/** The indentation-tree configuration file: reading, writing, and that reading undoes writing. */
module Config {
  import opened Wrappers

  /** A comment is a node with the key "#". */
  datatype Node = Node(key: string, val: string, children: seq<Node>)

  const CONFIG_MAX_LINE: nat := 4096

  predicate Space(c: char) {
    c == ' ' || c == '\t' || c == '\n' || c == '\r' || c == '\U{0B}' || c == '\U{0C}'
  }

  predicate Separator(c: char) {
    c == '=' || c == ':'
  }

  predicate IsComment(n: Node) {
    n.key != "" && n.key[0] == '#'
  }

  // ---------------------------------------------------------------- strings

  function Blank(s: string): bool {
    forall i :: 0 <= i < |s| ==> Space(s[i])
  }

  function LeftTrimmed(s: string): (r: string)
    ensures r != "" ==> !Space(r[0])
    ensures |r| <= |s| && r == s[|s| - |r|..]
  {
    if s != "" && Space(s[0]) then LeftTrimmed(s[1..]) else s
  }

  function RightTrimmed(s: string): (r: string)
    ensures r != "" ==> !Space(r[|r| - 1])
    ensures r <= s
  {
    if s != "" && Space(s[|s| - 1]) then RightTrimmed(s[..|s| - 1]) else s
  }

  function Trim(s: string): string {
    RightTrimmed(LeftTrimmed(s))
  }

  /** Nothing to trim. */
  predicate Trimmed(s: string) {
    s == "" || (!Space(s[0]) && !Space(s[|s| - 1]))
  }

  function LeadingTabs(s: string): (r: nat)
    ensures r <= |s| && (r < |s| ==> s[r] != '\t')
    ensures forall i :: 0 <= i < r ==> s[i] == '\t'
  {
    if s == "" || s[0] != '\t' then 0 else
      var k := LeadingTabs(s[1..]);
      assert forall i :: 1 <= i < k + 1 ==> s[i] == s[1..][i - 1];
      1 + k
  }

  /** The first separator, or the length. */
  function FirstSeparator(s: string): (r: nat)
    ensures r <= |s| && (r < |s| ==> Separator(s[r]))
    ensures forall i :: 0 <= i < r ==> !Separator(s[i])
  {
    if s == "" || Separator(s[0]) then 0 else
      var k := FirstSeparator(s[1..]);
      assert forall i :: 1 <= i < k + 1 ==> s[i] == s[1..][i - 1];
      1 + k
  }

  // ---------------------------------------------------------------- the tree and its cursor

  /** The node `d` steps down the last children. */
  function Spine(t: Node, d: nat): Option<Node>
    decreases d
  {
    if d == 0 then Some(t)
    else if t.children == [] then None
    else Spine(t.children[|t.children| - 1], d - 1)
  }

  /** Adds a child to the node `d` steps down. */
  function AddAt(t: Node, d: nat, c: Node): Node
    requires Spine(t, d).Some?
    decreases d
  {
    if d == 0 then t.(children := t.children + [c])
    else
      var l := |t.children| - 1;
      t.(children := t.children[l := AddAt(t.children[l], d - 1, c)])
  }

  lemma {:induction false} SpineUp(t: Node, d: nat, e: nat)
    requires Spine(t, d).Some? && e <= d
    ensures Spine(t, e).Some?
    decreases d
  {
    if e > 0 {
      SpineUp(t.children[|t.children| - 1], d - 1, e - 1);
    }
  }

  lemma {:induction false} SpineAdded(t: Node, d: nat, c: Node, e: nat)
    requires Spine(t, d).Some? && e <= d
    ensures Spine(AddAt(t, d, c), e).Some? && Spine(AddAt(t, d, c), d + 1) == Some(c)
    decreases d
  {
    if d > 0 {
      var l := |t.children| - 1;
      SpineAdded(t.children[l], d - 1, c, if e > 0 then e - 1 else 0);
    } else {
      assert Spine(c, 0) == Some(c);
    }
  }

  // ---------------------------------------------------------------- one line

  datatype Parsed = Nothing | Comment(text: string) | Entry(indent: nat, key: string, val: string) | Invalid

  function ParseText(indent: nat, text: string): Parsed
    requires text != ""
  {
    if text[0] == '#' then Comment(text[1..])
    else if Space(text[0]) then Invalid
    else
      var sep := FirstSeparator(text);
      if sep == |text| then Invalid else Entry(indent, Trim(text[..sep]), Trim(text[sep + 1..]))
  }

  lemma NotBlank(line: string)
    requires !Blank(line)
    ensures LeadingTabs(line) < |line|
  {}

  /** A line without its line end. */
  function Parse(line: string): Parsed {
    if Blank(line) then Nothing
    else
      NotBlank(line);
      ParseText(LeadingTabs(line), line[LeadingTabs(line)..])
  }

  /** What the reader knows between lines: the tree, how deep its cursor is, and the last indentation. */
  datatype Reader = Reader(root: Node, depth: nat, lastIndent: nat)

  ghost predicate OnSpine(r: Reader) {
    Spine(r.root, r.depth).Some?
  }

  /** The cursor goes up once for every level of the dedent, but not past the root. */
  function Dedented(depth: nat, lastIndent: nat, indent: nat): (r: nat)
    ensures r <= depth
  {
    if indent > lastIndent then depth
    else
      var ups := lastIndent - indent + 1;
      if ups <= depth then depth - ups else 0
  }

  /** A comment goes to the node under the cursor; an entry goes below the cursor, which moves to it. */
  function Place(r: Reader, p: Parsed): Option<Reader>
    requires OnSpine(r)
  {
    match p
    case Nothing => Some(r)
    case Comment(text) => Some(r.(root := AddAt(r.root, r.depth, Node("#", text, []))))
    case Invalid => None
    case Entry(indent, key, val) =>
      if indent > r.lastIndent + 1 then None
      else
        var depth := Dedented(r.depth, r.lastIndent, indent);
        SpineUp(r.root, r.depth, depth);
        Some(Reader(AddAt(r.root, depth, Node(key, val, [])), depth + 1, indent))
  }

  lemma PlaceOnSpine(r: Reader, p: Parsed)
    requires OnSpine(r)
    ensures Place(r, p).Some? ==> OnSpine(Place(r, p).value)
  {
    match p
    case Comment(text) => SpineAdded(r.root, r.depth, Node("#", text, []), r.depth);
    case Entry(indent, key, val) =>
      var depth := Dedented(r.depth, r.lastIndent, indent);
      SpineUp(r.root, r.depth, depth);
      SpineAdded(r.root, depth, Node(key, val, []), depth);
    case _ =>
  }

  /** The lines one after the other; any error gives the whole tree up. */
  function Lines(r: Reader, lines: seq<string>): (q: Option<Reader>)
    requires OnSpine(r)
    ensures q.Some? ==> OnSpine(q.value)
    decreases |lines|
  {
    if lines == [] then Some(r)
    else
      PlaceOnSpine(r, Parse(lines[0]));
      match Place(r, Parse(lines[0]))
      case None => None
      case Some(q) => Lines(q, lines[1..])
  }

  const START: Reader := Reader(Node("root", "", []), 0, 0)

  // ---------------------------------------------------------------- which lines are accepted

  /** White space in the C locale. */
  predicate White(c: char) {
    c as int == 32 || 9 <= c as int <= 13
  }

  /** A line is refused if it goes on with white space after its tabs, or has neither ':' nor '='. */
  predicate Wrong(line: string) {
    var text := line[LeadingTabs(line)..];
    && (exists i :: 0 <= i < |line| && !White(line[i]))
    && text != "" && text[0] != '#' && (White(text[0]) || (':' !in text && '=' !in text))
  }

  predicate IsEntry(line: string) {
    var text := line[LeadingTabs(line)..];
    text != "" && text[0] != '#' && !White(text[0]) && (':' in text || '=' in text)
  }

  /** Which lines are refused and which are entries, and how deep they are. */
  lemma LineKinds(line: string)
    ensures Parse(line).Invalid? <==> Wrong(line)
    ensures Parse(line).Entry? <==> IsEntry(line)
    ensures Parse(line).Entry? ==> Parse(line).indent == LeadingTabs(line)
  {
    assert forall c :: White(c) == Space(c);
    var text := line[LeadingTabs(line)..];
    assert LeadingTabs(line) < |line| ==> text[0] == line[LeadingTabs(line)];
    var sep := FirstSeparator(text);
    assert sep < |text| ==> text[sep] in text;
    assert sep == |text| ==> ':' !in text && '=' !in text;
    hide LeadingTabs, FirstSeparator, Trim, Space, White;
  }

  /** The indentation of the last entry, if there is one. */
  function LastIndent(lines: seq<string>, last: nat): nat {
    if lines == [] then last
    else
      var line := lines[|lines| - 1];
      if IsEntry(line) then LeadingTabs(line) else LastIndent(lines[..|lines| - 1], last)
  }

  /** No line is refused, and no entry is more than one level deeper than the entry before it. */
  ghost predicate Accepted(lines: seq<string>, last: nat) {
    forall k :: 0 <= k < |lines| ==>
      && !Wrong(lines[k])
      && (IsEntry(lines[k]) ==> LeadingTabs(lines[k]) <= LastIndent(lines[..k], last) + 1)
  }

  lemma {:induction false} LastIndentStep(lines: seq<string>, last: nat)
    requires lines != []
    ensures LastIndent(lines, last) ==
      LastIndent(lines[1..], if IsEntry(lines[0]) then LeadingTabs(lines[0]) else last)
    decreases |lines|
  {
    hide IsEntry, LeadingTabs;
    if |lines| > 1 {
      var init := lines[..|lines| - 1];
      LastIndentStep(init, last);
      assert lines[1..][..|lines| - 2] == init[1..] && lines[1..][|lines| - 2] == lines[|lines| - 1];
    }
  }

  lemma AcceptedStep(lines: seq<string>, last: nat)
    requires lines != []
    ensures Accepted(lines, last) <==>
      && !Wrong(lines[0]) && (IsEntry(lines[0]) ==> LeadingTabs(lines[0]) <= last + 1)
      && Accepted(lines[1..], if IsEntry(lines[0]) then LeadingTabs(lines[0]) else last)
  {
    hide IsEntry, Wrong, LeadingTabs;
    var rest, next := lines[1..], if IsEntry(lines[0]) then LeadingTabs(lines[0]) else last;
    forall k | 0 <= k < |rest|
      ensures rest[k] == lines[k + 1] && LastIndent(lines[..k + 1], last) == LastIndent(rest[..k], next)
    {
      LastIndentStep(lines[..k + 1], last);
      assert lines[..k + 1][1..] == rest[..k];
    }
    assert LastIndent(lines[..0], last) == last;
    hide LastIndent;
    if !Wrong(lines[0]) && (IsEntry(lines[0]) ==> LeadingTabs(lines[0]) <= last + 1) && Accepted(rest, next) {
      forall k | 0 <= k < |lines|
        ensures !Wrong(lines[k])
        ensures IsEntry(lines[k]) ==> LeadingTabs(lines[k]) <= LastIndent(lines[..k], last) + 1
      {
        if k > 0 {
          assert rest[k - 1] == lines[k];
        }
      }
    }
  }

  lemma {:induction false} LinesIff(r: Reader, lines: seq<string>)
    requires OnSpine(r)
    ensures Lines(r, lines).Some? <==> Accepted(lines, r.lastIndent)
    decreases |lines|
  {
    hide Parse, IsEntry, Wrong, LeadingTabs, AddAt, Spine, Dedented;
    if lines != [] {
      AcceptedStep(lines, r.lastIndent);
      LineKinds(lines[0]);
      PlaceOnSpine(r, Parse(lines[0]));
      hide Accepted;
      match Place(r, Parse(lines[0]))
      case None =>
      case Some(q) => LinesIff(q, lines[1..]);
    }
  }

  // ---------------------------------------------------------------- fgets

  /** How much one fgets takes: up to a line end, or as much as fits the buffer. */
  function Chunk(text: string): (n: nat)
    requires text != ""
    ensures 0 < n <= |text| && n < CONFIG_MAX_LINE
  {
    ChunkUpTo(text, CONFIG_MAX_LINE - 1)
  }

  function ChunkUpTo(text: string, max: nat): (n: nat)
    requires text != "" && max > 0
    ensures 0 < n <= |text| && n <= max
  {
    if text[0] == '\n' || |text| == 1 || max == 1 then 1 else 1 + ChunkUpTo(text[1..], max - 1)
  }

  /** The lines of a text, each without its last character. */
  function Split(text: string): seq<string> {
    if text == "" then [] else [text[..Chunk(text) - 1]] + Split(text[Chunk(text)..])
  }

  /** Config::load on the contents of a file. A zero byte would end a line for strlen before its line end. */
  method Load(text: string) returns (root: Option<Node>)
    requires '\0' !in text
    ensures var q := Lines(START, Split(text)); root == if q.None? then None else Some(q.value.root)
    ensures root.Some? <==> Accepted(Split(text), 0)
  {
    LinesIff(START, Split(text));
    hide Accepted;
    var r := START;
    var rest := text;
    assert OnSpine(START);
    hide Spine, AddAt, Parse, Dedented;
    while rest != ""
      invariant OnSpine(r) && Lines(r, Split(rest)) == Lines(START, Split(text))
      decreases |rest|
    {
      var n := Chunk(rest);
      var buf := rest[..n - 1];
      PlaceOnSpine(r, Parse(buf));
      var p := ParseLine(buf);
      var next := PlaceLine(r, p);
      if next.None? {
        return None;
      }
      r := next.value;
      rest := rest[n..];
    }
    root := Some(r.root);
  }

  /** The loop that skips the key. */
  method SkipKey(text: string) returns (val: nat)
    ensures val == FirstSeparator(text)
  {
    val := 0;
    while val < |text| && !Separator(text[val])
      invariant 0 <= val <= |text| && forall i :: 0 <= i < val ==> !Separator(text[i])
    {
      val := val + 1;
    }
  }

  method ParseLine(buf: string) returns (p: Parsed)
    ensures p == Parse(buf)
  {
    hide Blank, LeadingTabs, Trim, FirstSeparator;
    if Blank(buf) {
      return Nothing;
    }
    NotBlank(buf);
    var indent := LeadingTabs(buf);
    var text := buf[indent..];
    if text[0] == '#' {
      return Comment(text[1..]);
    }
    if Space(text[0]) {
      return Invalid;
    }
    var val := SkipKey(text);
    if val == |text| {
      return Invalid;
    }
    return Entry(indent, Trim(text[..val]), Trim(text[val + 1..]));
  }

  /** The dedent goes up level by level. */
  method PlaceLine(r: Reader, p: Parsed) returns (q: Option<Reader>)
    requires OnSpine(r)
    ensures q == Place(r, p)
  {
    match p
    case Nothing => return Some(r);
    case Invalid => return None;
    case Comment(text) => return Some(r.(root := AddAt(r.root, r.depth, Node("#", text, []))));
    case Entry(indent, key, val) =>
      var depth := r.depth;
      if indent <= r.lastIndent {
        var i := indent;
        while i <= r.lastIndent
          invariant indent <= i <= r.lastIndent + 1
          invariant depth == if i - indent <= r.depth then r.depth - (i - indent) else 0
        {
          if depth != 0 {
            depth := depth - 1;
          }
          i := i + 1;
        }
      } else if indent > r.lastIndent + 1 {
        return None;
      }
      SpineUp(r.root, r.depth, depth);
      return Some(Reader(AddAt(r.root, depth, Node(key, val, [])), depth + 1, indent));
  }
}
