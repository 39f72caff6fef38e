/** The growable, compacting buffer and the record format on top of it. */
module Buffer {
  import opened Arithmetic
  import opened Stream

  /** A record: its length, a line end, its bytes and a line end. */
  function Record(s: string): string {
    Decimal(|s|) + "\n" + s + "\n"
  }

  lemma {:induction false} DecimalLength(n: nat, w: nat)
    requires n < Pow10(w) && w > 0
    ensures |Decimal(n)| <= w
  {
    if n >= 10 {
      DecimalLength(n / 10, w - 1);
    }
  }

  /** The length of a record of less than 2^31 bytes has at most ten digits. */
  lemma RecordLength(s: string)
    requires |s| < 0x8000_0000
    ensures |Record(s)| <= 16 + |s| + 1
  {
    PowersOfTen();
    DecimalLength(|s|, 10);
  }

  class Bytes {
    var buf: array<char>
    /** Where the contents start, and how many there are. */
    var data: nat
    var size: nat

    ghost predicate Valid()
      reads this
    {
      data + size <= buf.Length
    }

    function Content(): string
      reads this, buf
      requires Valid()
    {
      buf[data..data + size]
    }

    function Space(): nat
      reads this
      requires Valid()
    {
      buf.Length - data - size
    }

    constructor (total: nat)
      ensures Valid() && Content() == "" && data == 0 && buf.Length == total && fresh(buf)
    {
      buf := new char[total](_ => '\0');
      data, size := 0, 0;
    }

    /** Moves the contents to the front if they start in the second half: the two places do not overlap. */
    method Nice()
      requires Valid()
      modifies this, buf
      ensures Valid() && Content() == old(Content()) && buf == old(buf)
      ensures data == if old(data) > buf.Length / 2 then 0 else old(data)
    {
      if data > buf.Length / 2 {
        assert size <= data;
        forall i | 0 <= i < size {
          buf[i] := buf[data + i];
        }
        data := 0;
      }
    }

    /** A larger array with the same beginning. */
    method Grow()
      requires Valid()
      modifies this
      ensures Valid() && Content() == old(Content()) && data == old(data) && fresh(buf)
      ensures buf.Length > old(buf.Length) && buf.Length >= 8192
      ensures buf.Length == (if old(buf.Length) < 8192 then 8192
                             else old(buf.Length) * if old(buf.Length) < 524288 then 8 else 2)
    {
      var total := buf.Length;
      var n := if total < 8 * 1024 then 8 * 1024 else if total < 512 * 1024 then 8 * total else 2 * total;
      var p := new char[n](_ => '\0');
      forall i | 0 <= i < total {
        p[i] := buf[i];
      }
      buf := p;
    }

    /** Makes room for `n` more bytes. */
    method Reserve(n: nat)
      requires Valid()
      modifies this
      ensures Valid() && Content() == old(Content()) && data == old(data) && Space() >= n
      ensures buf == old(buf) || fresh(buf)
    {
      while n > Space()
        invariant Valid() && Content() == old(Content()) && data == old(data) && size == old(size)
        invariant buf == old(buf) || fresh(buf)
        decreases n - Space()
      {
        Grow();
      }
    }

    /** Writes behind the contents. */
    method Put(s: string)
      requires Valid() && |s| <= Space()
      modifies this`size, buf
      ensures Valid() && Content() == old(Content()) + s
    {
      forall i | 0 <= i < |s| {
        buf[data + size + i] := s[i];
      }
      size := size + |s|;
    }

    method AppendRecord(s: string) returns (n: nat)
      requires Valid() && |s| < 0x8000_0000
      modifies this, buf
      ensures Valid() && Content() == old(Content()) + Record(s) && n == |Record(s)|
      ensures buf == old(buf) || fresh(buf)
    {
      RecordLength(s);
      Reserve(16 + |s| + 1);
      var len := Decimal(|s|) + "\n";
      Put(len);
      Put(s);
      Put("\n");
      n := |len| + |s| + 1;
    }

    method Append(c: char)
      requires Valid()
      modifies this, buf
      ensures Valid() && Content() == old(Content()) + [c]
      ensures buf == old(buf) || fresh(buf)
    {
      Reserve(1);
      Put([c]);
    }

    /** Drops what has been read. */
    method Decr(n: nat)
      requires Valid() && n <= size
      modifies `data, `size
      ensures Valid() && Content() == old(Content())[n..]
    {
      data := data + n;
      size := size - n;
    }

    /** The contents are `sz` bytes from the front again. */
    method Rewind(sz: nat)
      requires sz <= buf.Length
      modifies `data, `size
      ensures Valid() && data == 0 && size == sz
    {
      data, size := 0, sz;
    }
  }
}
