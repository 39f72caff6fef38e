/** The hash ring: two hand-written searches, the client's selector, and what a new server moves. */
module Ring {
  import opened Arithmetic
  import opened Wrappers

  /** A point of the ring and the server it belongs to. */
  datatype Item = Item(point: nat, server: nat)

  ghost predicate Sorted(items: seq<Item>) {
    forall i, j :: 0 <= i < j < |items| ==> items[i].point <= items[j].point
  }

  // ---------------------------------------------------------------- where a hash belongs

  /** The first index whose point is at least `h`, or the length: the lower bound. */
  function LowerBound(items: seq<Item>, h: nat): (r: nat)
    ensures r <= |items|
    ensures forall i :: 0 <= i < r ==> items[i].point < h
    ensures r < |items| ==> items[r].point >= h
  {
    if items == [] || items[0].point >= h then 0 else
      var k := LowerBound(items[1..], h);
      assert forall i :: 1 <= i < k + 1 ==> items[i] == items[1..][i - 1];
      1 + k
  }

  /** On a sorted ring it splits the points. */
  lemma LowerBoundSplits(items: seq<Item>, h: nat, i: nat)
    requires Sorted(items) && i < |items|
    ensures i < LowerBound(items, h) <==> items[i].point < h
  {}

  /** From the end of the ring it goes round to the start. */
  function Position(items: seq<Item>, h: nat): (r: nat)
    requires items != []
    ensures r < |items|
  {
    if LowerBound(items, h) == |items| then 0 else LowerBound(items, h)
  }

  /** The proxy's search. */
  method KetamaGetConn(items: seq<Item>, h: nat) returns (item: Item)
    requires items != [] && Sorted(items)
    ensures item == items[Position(items, h)]
  {
    var low, high, sz := 0, |items|, |items|;
    ghost var k := LowerBound(items, h);
    while true
      invariant 0 <= low <= k <= high <= sz
      decreases high - low
    {
      var mid := (low + high) / 2;
      if mid == sz {
        return items[0];
      }
      var midv := items[mid].point;
      var midv1 := if mid == 0 then 0 else items[mid - 1].point;
      LowerBoundSplits(items, h, mid);
      if mid > 0 {
        LowerBoundSplits(items, h, mid - 1);
      }
      if h <= midv && h > midv1 {
        return items[mid];
      }
      if midv < h {
        low := mid + 1;
      } else {
        high := mid - 1;
      }
      if low > high {
        return items[0];
      }
    }
  }

  /** The same search over the array of the ketama library. */
  method KetamaGetServer(points: array<Item>, h: nat) returns (midp: int)
    requires points.Length > 0 && Sorted(points[..])
    ensures midp == Position(points[..], h)
  {
    var lowp, highp := 0, points.Length;
    ghost var k := LowerBound(points[..], h);
    while true
      invariant 0 <= lowp <= k <= highp <= points.Length
      decreases highp - lowp
    {
      midp := (lowp + highp) / 2;
      if midp == points.Length {
        return 0;
      }
      var midval := points[midp].point;
      var midval1 := if midp == 0 then 0 else points[midp - 1].point;
      LowerBoundSplits(points[..], h, midp);
      if midp > 0 {
        LowerBoundSplits(points[..], h, midp - 1);
      }
      if h <= midval && h > midval1 {
        return;
      }
      if midval < h {
        lowp := midp + 1;
      } else {
        highp := midp - 1;
      }
      if lowp > highp {
        return 0;
      }
    }
  }

  // ---------------------------------------------------------------- what a new server moves

  /** `x` is the first item at or after `h`, going round. */
  ghost predicate Owns(x: Item, items: seq<Item>, h: nat) {
    && x in items
    && forall y :: y in items ==>
         if x.point >= h then y.point >= h ==> x.point <= y.point else y.point < h && x.point <= y.point
  }

  /** Points of different servers differ. */
  ghost predicate Distinct(items: seq<Item>) {
    forall x, y :: x in items && y in items && x.point == y.point ==> x.server == y.server
  }

  lemma PositionOwns(items: seq<Item>, h: nat)
    requires items != [] && Sorted(items)
    ensures Owns(items[Position(items, h)], items, h)
  {
    var x := items[Position(items, h)];
    forall y | y in items
      ensures if x.point >= h then y.point >= h ==> x.point <= y.point else y.point < h && x.point <= y.point
    {
      var i :| 0 <= i < |items| && items[i] == y;
      LowerBoundSplits(items, h, i);
    }
  }

  lemma OwnerUnique(x: Item, y: Item, items: seq<Item>, h: nat)
    requires Distinct(items) && Owns(x, items, h) && Owns(y, items, h)
    ensures x.server == y.server
  {}

  /** An item that comes first among more comes first among fewer. */
  lemma OwnerKept(x: Item, fewer: seq<Item>, more: seq<Item>, h: nat)
    requires Owns(x, more, h) && x in fewer && forall y :: y in fewer ==> y in more
    ensures Owns(x, fewer, h)
  {}

  // ---------------------------------------------------------------- sorting

  function Insert(r: seq<Item>, x: Item): seq<Item> {
    var k := LowerBound(r, x.point);
    r[..k] + [x] + r[k..]
  }

  /** Stands for the library's sort. */
  method SortItems(items: seq<Item>) returns (r: seq<Item>)
    ensures Sorted(r) && multiset(r) == multiset(items)
  {
    r := [];
    for i := 0 to |items|
      invariant Sorted(r) && multiset(r) == multiset(items[..i])
    {
      hide Insert, Sorted;
      assert items[..i + 1] == items[..i] + [items[i]];
      InsertSorted(r, items[i]);
      InsertKeeps(r, items[i]);
      r := Insert(r, items[i]);
    }
    assert items[..|items|] == items;
  }

  lemma InsertKeeps(r: seq<Item>, x: Item)
    ensures multiset(Insert(r, x)) == multiset(r) + multiset{x}
  {
    hide LowerBound;
    var k := LowerBound(r, x.point);
    assert r == r[..k] + r[k..];
  }

  lemma InsertSorted(r: seq<Item>, x: Item)
    requires Sorted(r)
    ensures Sorted(Insert(r, x))
  {
    var s := Insert(r, x);
    forall i, j | 0 <= i < j < |s|
      ensures s[i].point <= s[j].point
    {
      InsertOrder(r, x, i, j);
    }
  }

  lemma InsertAt(r: seq<Item>, x: Item, i: nat)
    requires i < |Insert(r, x)|
    ensures var k := LowerBound(r, x.point);
      Insert(r, x)[i] == if i < k then r[i] else if i == k then x else r[i - 1]
  {
    hide LowerBound;
  }

  lemma InsertOrder(r: seq<Item>, x: Item, i: nat, j: nat)
    requires Sorted(r) && i < j < |Insert(r, x)| == |r| + 1
    ensures Insert(r, x)[i].point <= Insert(r, x)[j].point
  {
    InsertAt(r, x, i);
    InsertAt(r, x, j);
    if i < |r| {
      LowerBoundSplits(r, x.point, i);
    }
    LowerBoundSplits(r, x.point, j - 1);
    hide LowerBound, Insert;
  }

  lemma SameItems(a: seq<Item>, b: seq<Item>)
    requires multiset(a) == multiset(b)
    ensures forall x :: x in a <==> x in b
  {
    forall x
      ensures x in a <==> x in b
    {
      assert x in a <==> x in multiset(a);
      assert x in b <==> x in multiset(b);
    }
  }

  // ---------------------------------------------------------------- the client's selector

  /** The items of one server. */
  function ItemsFor(points: seq<nat>, server: nat): (r: seq<Item>)
    ensures |r| == |points| && forall j :: 0 <= j < |r| ==> r[j] == Item(points[j], server)
  {
    seq(|points|, j requires 0 <= j < |points| => Item(points[j], server))
  }

  /** The items of a pool: `pool[i]` lists the points of server `i`. */
  function ItemsOf(pool: seq<seq<nat>>): seq<Item> {
    if pool == [] then [] else ItemsOf(pool[..|pool| - 1]) + ItemsFor(pool[|pool| - 1], |pool| - 1)
  }

  lemma ItemsPush(pool: seq<seq<nat>>, points: seq<nat>)
    ensures ItemsOf(pool + [points]) == ItemsOf(pool) + ItemsFor(points, |pool|)
  {
    assert (pool + [points])[..|pool|] == pool;
  }

  lemma {:induction false} ItemServers(pool: seq<seq<nat>>, x: Item)
    requires x in ItemsOf(pool)
    ensures x.server < |pool|
  {
    var front := pool[..|pool| - 1];
    if x in ItemsOf(front) {
      ItemServers(front, x);
    }
  }

  /** The ring of a pool, in the order of the points. */
  ghost predicate RingOf(continuum: seq<Item>, pool: seq<seq<nat>>) {
    Sorted(continuum) && multiset(continuum) == multiset(ItemsOf(pool))
  }

  /** The server a hash goes to: with one server there is nothing to look up. */
  function Chosen(continuum: seq<Item>, nServers: nat, h: nat): nat
    requires continuum != []
  {
    if nServers == 1 then continuum[0].server else continuum[Position(continuum, h)].server
  }

  /**
   * Minimal disruption: with one server more, every key stays on its server or moves to the new one,
   * whatever the pool, also when it grows from a single server.
   */
  lemma MinimalDisruption(before: seq<Item>, after: seq<Item>, pool: seq<seq<nat>>, points: seq<nat>, h: nat)
    requires RingOf(before, pool) && RingOf(after, pool + [points]) && before != [] && after != [] && Distinct(before)
    requires pool != []
    ensures Chosen(after, |pool| + 1, h) in {Chosen(before, |pool|, h), |pool|}
  {
    var x := after[Position(after, h)];
    PositionOwns(after, h);
    ItemsPush(pool, points);
    SameItems(after, ItemsOf(pool + [points]));
    SameItems(before, ItemsOf(pool));
    hide Position, Owns, ItemsFor, ItemsOf;
    if x.server != |pool| {
      assert x in before;
      if |pool| == 1 {
        ItemServers(pool, x);
        ItemServers(pool, before[0]);
      } else {
        OwnerKept(x, before, after, h);
        PositionOwns(before, h);
        assert forall y :: y in before ==> y in after;
        OwnerUnique(x, before[Position(before, h)], before, h);
      }
    }
  }

  // ---------------------------------------------------------------- equal points

  function SortedItems(items: seq<Item>): (r: seq<Item>) {
    if items == [] then [] else Insert(SortedItems(items[1..]), items[0])
  }

  lemma {:induction false} SortedRing(items: seq<Item>)
    ensures Sorted(SortedItems(items)) && multiset(SortedItems(items)) == multiset(items)
  {
    if items != [] {
      hide Insert, Sorted;
      SortedRing(items[1..]);
      InsertSorted(SortedItems(items[1..]), items[0]);
      InsertKeeps(SortedItems(items[1..]), items[0]);
      assert items == [items[0]] + items[1..];
    }
  }

  /** A sort may put any item first among those with its point. */
  lemma FirstOfEquals(items: seq<Item>, x: Item) returns (r: seq<Item>)
    requires x in items
    ensures Sorted(r) && multiset(r) == multiset(items) && r != [] && r[Position(r, x.point)] == x
  {
    var i :| 0 <= i < |items| && items[i] == x;
    var rest := items[..i] + items[i + 1..];
    assert items == items[..i] + [x] + items[i + 1..];
    SortedRing(rest);
    var q := SortedItems(rest);
    r := Insert(q, x);
    InsertSorted(q, x);
    InsertKeeps(q, x);
    var k := LowerBound(q, x.point);
    assert r[k] == x && forall j :: 0 <= j < k ==> r[j] == q[j];
    FirstAtLeast(r, x.point, k);
  }

  lemma FirstAtLeast(r: seq<Item>, h: nat, k: nat)
    requires k < |r| && r[k].point >= h && forall j :: 0 <= j < k ==> r[j].point < h
    ensures LowerBound(r, h) == k
  {}

  /** Whatever order a sort gives to equal points, no key moves between the servers of the pool. */
  ghost predicate NoneMoves(pool: seq<seq<nat>>, points: seq<nat>) {
    forall before, after, h: nat ::
      RingOf(before, pool) && RingOf(after, pool + [points]) && before != [] && after != []
      ==> Chosen(after, |pool| + 1, h) in {Chosen(before, |pool|, h), |pool|}
  }

  /** Only the new server gains keys if and only if no two servers of the old pool share a point. */
  lemma DisruptionIff(pool: seq<seq<nat>>, points: seq<nat>)
    requires pool != []
    ensures NoneMoves(pool, points) <==> Distinct(ItemsOf(pool))
  {
    if Distinct(ItemsOf(pool)) {
      forall before, after, h: nat |
        RingOf(before, pool) && RingOf(after, pool + [points]) && before != [] && after != []
        ensures Chosen(after, |pool| + 1, h) in {Chosen(before, |pool|, h), |pool|}
      {
        SameItems(before, ItemsOf(pool));
        hide Chosen, ItemsOf;
        MinimalDisruption(before, after, pool, points, h);
      }
    } else {
      var x, y :| x in ItemsOf(pool) && y in ItemsOf(pool) && x.point == y.point && x.server != y.server;
      ItemServers(pool, x);
      ItemServers(pool, y);
      ItemsPush(pool, points);
      hide ItemsOf, ItemsFor, Position;
      var before := FirstOfEquals(ItemsOf(pool), x);
      var after := FirstOfEquals(ItemsOf(pool + [points]), y);
      assert RingOf(before, pool) && RingOf(after, pool + [points]);
      assert Chosen(after, |pool| + 1, x.point) == y.server && Chosen(before, |pool|, x.point) == x.server;
    }
  }

  /** How many positions clockwise of `start` the first server is that can take over, or none. */
  function Walk(continuum: seq<Item>, start: nat, dead: nat, reconnects: set<nat>, j: nat): (r: Option<nat>)
    requires start < |continuum| && 0 < j <= |continuum| + 1
    ensures r.Some? ==>
      && j <= r.value <= |continuum| && Fits(continuum, start, dead, reconnects, r.value)
      && forall i :: j <= i < r.value ==> !Fits(continuum, start, dead, reconnects, i)
    ensures r.None? ==> forall i :: j <= i <= |continuum| ==> !Fits(continuum, start, dead, reconnects, i)
    decreases |continuum| + 1 - j
  {
    if j > |continuum| then None
    else if Fits(continuum, start, dead, reconnects, j) then Some(j)
    else Walk(continuum, start, dead, reconnects, j + 1)
  }

  lemma WalkStep(continuum: seq<Item>, start: nat, dead: nat, reconnects: set<nat>, j: nat)
    requires start < |continuum| && 0 < j <= |continuum|
    ensures Walk(continuum, start, dead, reconnects, j)
      == if Fits(continuum, start, dead, reconnects, j) then Some(j)
         else Walk(continuum, start, dead, reconnects, j + 1)
  {}

  /** Position `j` clockwise of `start`. */
  function Around(start: nat, j: nat, n: nat): (r: nat)
    requires n > 0
    ensures r < n
  {
    (start + j) % n
  }

  lemma AroundStep(start: nat, j: nat, n: nat)
    requires n > 0
    ensures Around(start, j + 1, n) == if Around(start, j, n) + 1 == n then 0 else Around(start, j, n) + 1
  {
    var x := start + j;
    if x % n + 1 == n {
      Quotient(x + 1, n, x / n + 1, 0);
    } else {
      Quotient(x + 1, n, x / n, x % n + 1);
    }
  }

  predicate Fits(continuum: seq<Item>, start: nat, dead: nat, reconnects: set<nat>, j: nat)
    requires start < |continuum|
  {
    var s := continuum[Around(start, j, |continuum|)].server;
    s != dead && s in reconnects
  }

  lemma Reaches(start: nat, i: nat, n: nat) returns (j: nat)
    requires start < n && i < n
    ensures 1 <= j <= n && Around(start, j, n) == i
  {
    if i > start {
      j := i - start;
      Quotient(start + j, n, 0, i);
    } else {
      j := i + n - start;
      Quotient(start + j, n, 1, i);
    }
  }

  /** The walk finds nobody iff no other server on the whole ring reconnects. */
  lemma NobodyIff(continuum: seq<Item>, start: nat, dead: nat, reconnects: set<nat>)
    requires start < |continuum|
    ensures Walk(continuum, start, dead, reconnects, 1).None?
      <==> forall x :: x in continuum ==> x.server == dead || x.server !in reconnects
  {
    hide Around;
    if Walk(continuum, start, dead, reconnects, 1).None? {
      forall x | x in continuum
        ensures x.server == dead || x.server !in reconnects
      {
        var i :| 0 <= i < |continuum| && continuum[i] == x;
        var j := Reaches(start, i, |continuum|);
        assert !Fits(continuum, start, dead, reconnects, j);
      }
    }
  }

  /** Going up from `start`, and from the end of the ring to its beginning, `i` comes before `p`. */
  predicate Passed(start: nat, i: nat, p: nat) {
    if start < p then start < i < p else start < i || i < p
  }

  /** A server that can take over for `dead` is found iff there is one, and it is the next one clockwise. */
  ghost predicate NextAlive(continuum: seq<Item>, start: nat, dead: nat, reconnects: set<nat>, it: Option<nat>) {
    match it
    case None => forall x :: x in continuum ==> x.server == dead || x.server !in reconnects
    case Some(p) =>
      && p < |continuum| && continuum[p].server != dead && continuum[p].server in reconnects
      && forall i :: 0 <= i < |continuum| && Passed(start, i, p) ==>
           continuum[i].server == dead || continuum[i].server !in reconnects
  }

  lemma StepsTo(start: nat, j: nat, n: nat)
    requires start < n && 1 <= j <= n
    ensures var p := Around(start, j, n); j == if p > start then p - start else p + n - start
  {
    if start + j < n {
      Quotient(start + j, n, 0, start + j);
    } else {
      Quotient(start + j, n, 1, start + j - n);
    }
  }

  lemma WalkNext(continuum: seq<Item>, start: nat, dead: nat, reconnects: set<nat>)
    requires start < |continuum|
    ensures var w := Walk(continuum, start, dead, reconnects, 1);
      NextAlive(continuum, start, dead, reconnects,
                if w.Some? then Some(Around(start, w.value, |continuum|)) else None)
  {
    NobodyIff(continuum, start, dead, reconnects);
    hide Around, Walk;
    var w, n := Walk(continuum, start, dead, reconnects, 1), |continuum|;
    if w.Some? {
      StepsTo(start, w.value, n);
      forall i | 0 <= i < n && Passed(start, i, Around(start, w.value, n))
        ensures continuum[i].server == dead || continuum[i].server !in reconnects
      {
        var j := Reaches(start, i, n);
        StepsTo(start, j, n);
        assert !Fits(continuum, start, dead, reconnects, j);
      }
    }
  }

  class KetamaSelector {
    var continuum: seq<Item>
    var nServers: nat
    var useFailover: bool

    constructor ()
      ensures continuum == [] && nServers == 0 && !useFailover
    {
      continuum, nServers, useFailover := [], 0, false;
    }

    method AddServers(pool: seq<seq<nat>>)
      modifies `continuum, `nServers
      ensures Sorted(continuum) && nServers == |pool|
      ensures multiset(continuum) == multiset(old(continuum)) + multiset(ItemsOf(pool))
    {
      var items := continuum;
      for i := 0 to |pool|
        invariant items == old(continuum) + ItemsOf(pool[..i])
      {
        assert pool[..i + 1] == pool[..i] + [pool[i]];
        ItemsPush(pool[..i], pool[i]);
        ghost var was := items;
        for j := 0 to |pool[i]|
          invariant items == was + ItemsFor(pool[i], i)[..j]
        {
          assert ItemsFor(pool[i], i)[..j + 1] == ItemsFor(pool[i], i)[..j] + [Item(pool[i][j], i)];
          items := items + [Item(pool[i][j], i)];
        }
        assert ItemsFor(pool[i], i)[..|pool[i]|] == ItemsFor(pool[i], i);
      }
      assert pool[..|pool|] == pool;
      nServers := |pool|;
      continuum := SortItems(items);
    }

    /**
     * getServerIt, with the servers that are alive and those that reconnect given. Without failover
     * the server itself has to reconnect; with it, the walk takes the first other one that does.
     */
    method GetServerIt(h: nat, checkAlive: bool, alive: set<nat>, reconnects: set<nat>) returns (it: Option<nat>)
      requires nServers > 0 ==> continuum != []
      ensures nServers == 0 ==> it == None
      ensures nServers > 0 ==>
        var start := if nServers == 1 then 0 else Position(continuum, h);
        var server := continuum[start].server;
        it == if !checkAlive || server in alive then Some(start)
              else if !useFailover then (if server in reconnects then Some(start) else None)
              else match Walk(continuum, start, server, reconnects, 1)
                   case None => None
                   case Some(j) => Some(Around(start, j, |continuum|))
      ensures nServers > 0 && checkAlive && useFailover ==>
        var start := if nServers == 1 then 0 else Position(continuum, h);
        var server := continuum[start].server;
        server !in alive ==> NextAlive(continuum, start, server, reconnects, it)
    {
      hide NextAlive, Walk, Around;
      if nServers == 0 {
        return None;
      }
      var p := if nServers == 1 then 0 else LowerBound(continuum, h);
      if p == |continuum| {
        p := 0;
      }
      var origin := continuum[p].server;
      if !checkAlive || origin in alive {
        return Some(p);
      }
      if useFailover {
        WalkNext(continuum, p, origin, reconnects);
        it := Failover(p, origin, reconnects);
      } else if origin !in reconnects {
        return None;
      } else {
        return Some(p);
      }
    }

    /** The walk: at most once round the ring, the starting position last. */
    method Failover(start: nat, origin: nat, reconnects: set<nat>) returns (it: Option<nat>)
      requires start < |continuum|
      ensures it == match Walk(continuum, start, origin, reconnects, 1)
                    case None => None
                    case Some(j) => Some(Around(start, j, |continuum|))
    {
      var p, maxIter := start, |continuum|;
      ghost var j := 0;
      assert p == Around(start, 0, |continuum|);
      hide Around;
      while maxIter > 0
        invariant 0 <= maxIter && j == |continuum| - maxIter && p == Around(start, j, |continuum|)
        invariant Walk(continuum, start, origin, reconnects, 1) == Walk(continuum, start, origin, reconnects, j + 1)
      {
        AroundStep(start, j, |continuum|);
        p := p + 1;
        j := j + 1;
        if p == |continuum| {
          p := 0;
        }
        WalkStep(continuum, start, origin, reconnects, j);
        hide Walk;
        if continuum[p].server != origin && continuum[p].server in reconnects {
          return Some(p);
        }
        maxIter := maxIter - 1;
      }
      return None;
    }
  }
}
