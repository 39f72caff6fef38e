/** Writing a tree and reading it back, and which trees reading can produce. */
module ConfigTheorems {
  import opened Config
  import opened Wrappers

  // ---------------------------------------------------------------- writing

  function Tabs(d: nat): (r: string)
    ensures |r| == d && forall i :: 0 <= i < d ==> r[i] == '\t'
  {
    if d == 0 then "" else "\t" + Tabs(d - 1)
  }

  function Render(n: Node): string {
    if IsComment(n) then "#" + n.val else n.key + ": " + n.val
  }

  /** The lines of the children of a node at depth `d`. */
  function SaveLines(cs: seq<Node>, d: nat): seq<string> {
    if cs == [] then []
    else [Tabs(d) + Render(cs[0])] + SaveLines(cs[0].children, d + 1) + SaveLines(cs[1..], d)
  }

  /** Lines as they stand in a file. */
  function Join(lines: seq<string>): string {
    if lines == [] then "" else lines[0] + "\n" + Join(lines[1..])
  }

  lemma {:induction false} JoinConcat(a: seq<string>, b: seq<string>)
    ensures Join(a + b) == Join(a) + Join(b)
  {
    if a == [] {
      assert a + b == b;
    } else {
      assert (a + b)[1..] == a[1..] + b;
      JoinConcat(a[1..], b);
    }
  }

  /** The lines of one child and of what is below it. */
  function NodeLines(n: Node, d: nat): seq<string> {
    [Tabs(d) + Render(n)] + SaveLines(n.children, d + 1)
  }

  lemma SaveStep(cs: seq<Node>, i: nat, d: nat)
    requires i < |cs|
    ensures SaveLines(cs[i..], d) == NodeLines(cs[i], d) + SaveLines(cs[i + 1..], d)
    ensures Join(NodeLines(cs[i], d)) == Tabs(d) + Render(cs[i]) + "\n" + Join(SaveLines(cs[i].children, d + 1))
  {
    hide Tabs, Render;
    assert cs[i..][1..] == cs[i + 1..] && cs[i..][0] == cs[i];
    assert NodeLines(cs[i], d)[1..] == SaveLines(cs[i].children, d + 1);
  }

  /** Config::save: each child's line, and then what is below it. */
  method Save(cs: seq<Node>, depth: nat) returns (out: string)
    ensures out == Join(SaveLines(cs, depth))
    decreases cs
  {
    out := "";
    ghost var done: seq<string> := [];
    assert cs[0..] == cs && [] + SaveLines(cs, depth) == SaveLines(cs, depth) && Join([]) == "";
    hide SaveLines, Join, NodeLines, Tabs, Render;
    for i := 0 to |cs|
      invariant SaveLines(cs, depth) == done + SaveLines(cs[i..], depth) && out == Join(done)
    {
      var below := Save(cs[i].children, depth + 1);
      SaveStep(cs, i, depth);
      JoinConcat(done, NodeLines(cs[i], depth));
      Assoc(done, NodeLines(cs[i], depth), SaveLines(cs[i + 1..], depth));
      out := out + (Tabs(depth) + Render(cs[i]) + "\n" + below);
      done := done + NodeLines(cs[i], depth);
    }
    NoneLeft(cs, depth);
    assert done + [] == done;
  }

  lemma NoneLeft(cs: seq<Node>, d: nat)
    ensures SaveLines(cs[|cs|..], d) == []
  {}

  lemma Assoc<T>(a: seq<T>, b: seq<T>, c: seq<T>)
    ensures a + (b + c) == (a + b) + c
  {}

  // ---------------------------------------------------------------- reading back a line

  predicate GoodKey(k: string) {
    Trimmed(k) && (forall i :: 0 <= i < |k| ==> !Separator(k[i]) && k[i] != '\n') && (k != "" ==> k[0] != '#')
  }

  predicate GoodValue(v: string) {
    Trimmed(v) && '\n' !in v
  }

  lemma LeftOf(s: string)
    ensures LeftTrimmed(" " + s) == LeftTrimmed(s)
  {
    assert (" " + s)[1..] == s;
  }

  lemma Already(s: string)
    requires Trimmed(s)
    ensures LeftTrimmed(s) == s && RightTrimmed(s) == s
  {}

  lemma TrimTrimmed(s: string)
    requires Trimmed(s)
    ensures Trim(s) == s && Trim(" " + s) == s
  {
    hide LeftTrimmed, RightTrimmed;
    LeftOf(s);
    Already(s);
  }

  lemma {:induction false} TabsLead(d: nat, s: string)
    requires s == "" || s[0] != '\t'
    ensures LeadingTabs(Tabs(d) + s) == d && (Tabs(d) + s)[d..] == s
  {
    if d > 0 {
      assert (Tabs(d) + s)[1..] == Tabs(d - 1) + s;
      TabsLead(d - 1, s);
    }
  }

  lemma KeyEnds(key: string, rest: string)
    requires forall i :: 0 <= i < |key| ==> !Separator(key[i])
    ensures FirstSeparator(key + ":" + rest) == |key|
  {
    var s := key + ":" + rest;
    assert s[|key|] == ':' && forall i :: 0 <= i < |key| ==> s[i] == key[i];
  }

  lemma CommentParsed(d: nat, val: string)
    ensures Parse(Tabs(d) + ("#" + val)) == Comment(val)
  {
    var line := Tabs(d) + ("#" + val);
    TabsLead(d, "#" + val);
    assert line[d] == '#' && !Space(line[d]);
    assert ("#" + val)[1..] == val;
  }

  lemma FirstChar(key: string, val: string)
    requires GoodKey(key)
    ensures var c := (key + ": " + val)[0]; !Space(c) && c != '#'
  {
    assert (key + ": " + val)[0] == (if key == "" then ':' else key[0]);
  }

  lemma Halves(key: string, val: string)
    requires GoodKey(key)
    ensures var text := key + ": " + val;
      && FirstSeparator(text) == |key| < |text|
      && text[..|key|] == key && text[|key| + 1..] == " " + val
  {
    assert key + ": " + val == key + ":" + (" " + val);
    KeyEnds(key, " " + val);
  }

  lemma TextParsed(d: nat, key: string, val: string)
    requires GoodKey(key) && GoodValue(val)
    ensures var text := key + ": " + val;
      text != "" && !Space(text[0]) && ParseText(d, text) == Entry(d, key, val)
  {
    FirstChar(key, val);
    Halves(key, val);
    TrimTrimmed(key);
    TrimTrimmed(val);
    hide Trim, FirstSeparator, GoodKey, GoodValue;
  }

  lemma EntryParsed(d: nat, key: string, val: string)
    requires GoodKey(key) && GoodValue(val)
    ensures Parse(Tabs(d) + (key + ": " + val)) == Entry(d, key, val)
  {
    hide GoodKey, GoodValue, ParseText, LeadingTabs;
    var text := key + ": " + val;
    var line := Tabs(d) + text;
    TextParsed(d, key, val);
    TabsLead(d, text);
    assert line[d] == text[0];
  }

  // ---------------------------------------------------------------- the trees that reading produces

  ghost predicate AllComments(cs: seq<Node>) {
    forall i :: 0 <= i < |cs| ==> IsComment(cs[i])
  }

  /** Comments ahead of entries, in every node. */
  ghost predicate GoodForest(cs: seq<Node>) {
    && (forall i :: 0 <= i < |cs| ==> GoodNode(cs[i]))
    && (forall i, j :: 0 <= i < j < |cs| && IsComment(cs[j]) ==> IsComment(cs[i]))
  }

  ghost predicate GoodNode(n: Node) {
    if IsComment(n) then n.key == "#" && n.children == [] && '\n' !in n.val
    else GoodKey(n.key) && GoodValue(n.val) && GoodForest(n.children)
  }

  ghost predicate GoodTree(t: Node) {
    t.key == "root" && t.val == "" && GoodForest(t.children)
  }

  // ---------------------------------------------------------------- reading back a forest

  /** Adds several children to the node `d` steps down. */
  function AddAll(t: Node, d: nat, cs: seq<Node>): Node
    requires Spine(t, d).Some?
    decreases |cs|
  {
    if cs == [] then t
    else
      SpineAdded(t, d, cs[0], d);
      AddAll(AddAt(t, d, cs[0]), d, cs[1..])
  }

  /** A child added below the node just added is a child of that node. */
  lemma {:induction false} AddBelow(t: Node, d: nat, n: Node, c: Node)
    requires Spine(t, d).Some?
    ensures Spine(AddAt(t, d, n), d + 1).Some?
    ensures AddAt(AddAt(t, d, n), d + 1, c) == AddAt(t, d, n.(children := n.children + [c]))
    decreases d
  {
    SpineAdded(t, d, n, d);
    var l := |t.children| - 1;
    if d == 0 {
      var u := t.children + [n];
      assert u[|u| - 1] == n;
      assert u[|u| - 1 := n.(children := n.children + [c])] == t.children + [n.(children := n.children + [c])];
      assert AddAt(n, 0, c) == n.(children := n.children + [c]);
    } else {
      AddBelow(t.children[l], d - 1, n, c);
    }
  }

  lemma {:induction false} AddAllBelow(t: Node, d: nat, n: Node, cs: seq<Node>)
    requires Spine(t, d).Some?
    ensures Spine(AddAt(t, d, n), d + 1).Some?
    ensures AddAll(AddAt(t, d, n), d + 1, cs) == AddAt(t, d, n.(children := n.children + cs))
    decreases |cs|
  {
    SpineAdded(t, d, n, d);
    if cs == [] {
      assert n.children + [] == n.children;
    } else {
      AddBelow(t, d, n, cs[0]);
      AddAllBelow(t, d, n.(children := n.children + [cs[0]]), cs[1..]);
      assert n.children + [cs[0]] + cs[1..] == n.children + cs;
    }
  }

  lemma {:induction false} AddAllAtRoot(t: Node, cs: seq<Node>)
    ensures AddAll(t, 0, cs) == t.(children := t.children + cs)
    decreases |cs|
  {
    if cs == [] {
      assert t.children + [] == t.children;
    } else {
      AddAllAtRoot(t.(children := t.children + [cs[0]]), cs[1..]);
      assert t.children + [cs[0]] + cs[1..] == t.children + cs;
    }
  }

  /** The cursor is at or below depth `d`, and the last indentation says how deep it is. */
  ghost predicate Below(r: Reader, d: nat) {
    OnSpine(r) && r.depth >= d && (r.lastIndent + 1 == r.depth || (r.depth == 0 && r.lastIndent == 0))
  }

  lemma CommentPlaced(r: Reader, d: nat, n: Node)
    requires Below(r, d) && r.depth == d && IsComment(n) && GoodNode(n)
    ensures var q := Place(r, Parse(Tabs(d) + Render(n)));
      q == Some(r.(root := AddAt(r.root, d, n))) && Below(q.value, d)
  {
    CommentParsed(d, n.val);
    SpineAdded(r.root, d, n, d);
    hide Parse;
  }

  lemma DedentedTo(r: Reader, d: nat)
    requires Below(r, d)
    ensures d <= r.lastIndent + 1 && Dedented(r.depth, r.lastIndent, d) == d
  {}

  lemma EntryGoes(r: Reader, d: nat, key: string, val: string)
    requires Below(r, d)
    ensures Spine(r.root, d).Some?
    ensures var q := Place(r, Entry(d, key, val));
      q == Some(Reader(AddAt(r.root, d, Node(key, val, [])), d + 1, d)) && Below(q.value, d + 1)
  {
    DedentedTo(r, d);
    hide Dedented, Spine, AddAt;
    SpineUp(r.root, r.depth, d);
    SpineAdded(r.root, d, Node(key, val, []), d);
  }

  lemma EntryPlaced(r: Reader, d: nat, n: Node)
    requires Below(r, d) && !IsComment(n) && GoodNode(n)
    ensures Spine(r.root, d).Some?
    ensures var q := Place(r, Parse(Tabs(d) + Render(n)));
      q == Some(Reader(AddAt(r.root, d, n.(children := [])), d + 1, d)) && Below(q.value, d + 1)
  {
    EntryParsed(d, n.key, n.val);
    EntryGoes(r, d, n.key, n.val);
    assert Render(n) == n.key + ": " + n.val && n.(children := []) == Node(n.key, n.val, []);
    hide *;
  }

  lemma LinesStep(r: Reader, line: string, rest: seq<string>)
    requires OnSpine(r) && Place(r, Parse(line)).Some?
    ensures OnSpine(Place(r, Parse(line)).value)
    ensures Lines(r, [line] + rest) == Lines(Place(r, Parse(line)).value, rest)
  {
    PlaceOnSpine(r, Parse(line));
    assert ([line] + rest)[1..] == rest;
  }

  lemma SaveSplit(cs: seq<Node>, d: nat, rest: seq<string>)
    requires cs != []
    ensures SaveLines(cs, d) + rest
      == [Tabs(d) + Render(cs[0])] + (SaveLines(cs[0].children, d + 1) + (SaveLines(cs[1..], d) + rest))
  {
    hide Tabs, Render;
  }

  lemma AddAllStep(t: Node, d: nat, cs: seq<Node>)
    requires Spine(t, d).Some? && cs != []
    ensures Spine(AddAt(t, d, cs[0]), d).Some?
    ensures AddAll(t, d, cs) == AddAll(AddAt(t, d, cs[0]), d, cs[1..])
  {
    SpineAdded(t, d, cs[0], d);
    hide Spine, AddAt;
  }

  /** The lines of a forest put it below the node at depth `d`. */
  lemma {:induction false} ForestRead(r: Reader, cs: seq<Node>, d: nat, rest: seq<string>) returns (q: Reader)
    requires Below(r, d) && GoodForest(cs)
    requires cs != [] && IsComment(cs[0]) ==> r.depth == d
    ensures Below(q, d) && Spine(r.root, d).Some? && q.root == AddAll(r.root, d, cs)
    ensures Lines(r, SaveLines(cs, d) + rest) == Lines(q, rest)
    decreases cs
  {
    SpineUp(r.root, r.depth, d);
    if cs == [] {
      assert SaveLines(cs, d) + rest == rest;
      return r;
    }
    hide *;
    if IsComment(cs[0]) {
      q := CommentRead(r, cs, d, rest);
    } else {
      q := EntryRead(r, cs, d, rest);
    }
  }

  lemma {:induction false} CommentRead(r: Reader, cs: seq<Node>, d: nat, rest: seq<string>) returns (q: Reader)
    requires Below(r, d) && GoodForest(cs) && cs != [] && IsComment(cs[0]) && r.depth == d
    ensures Below(q, d) && Spine(r.root, d).Some? && q.root == AddAll(r.root, d, cs)
    ensures Lines(r, SaveLines(cs, d) + rest) == Lines(q, rest)
    decreases cs, 0
  {
    var tail := SaveLines(cs[1..], d) + rest;
    SaveSplit(cs, d, rest);
    ForestRest(cs);
    AddAllStep(r.root, d, cs);
    CommentPlaced(r, d, cs[0]);
    LinesStep(r, Tabs(d) + Render(cs[0]), tail);
    NoLines(d + 1, tail);
    hide *;
    q := ForestRead(Place(r, Parse(Tabs(d) + Render(cs[0]))).value, cs[1..], d, rest);
  }

  /** The entry itself: the cursor is on it, and its own lines are to come. */
  lemma HeadRead(r: Reader, cs: seq<Node>, d: nat, rest: seq<string>) returns (q: Reader)
    requires Below(r, d) && GoodForest(cs) && cs != [] && !IsComment(cs[0])
    ensures Spine(r.root, d).Some? && q == Reader(AddAt(r.root, d, cs[0].(children := [])), d + 1, d) && Below(q, d + 1)
    ensures Lines(r, SaveLines(cs, d) + rest)
      == Lines(q, SaveLines(cs[0].children, d + 1) + (SaveLines(cs[1..], d) + rest))
  {
    SaveSplit(cs, d, rest);
    ForestRest(cs);
    EntryPlaced(r, d, cs[0]);
    LinesStep(r, Tabs(d) + Render(cs[0]), SaveLines(cs[0].children, d + 1) + (SaveLines(cs[1..], d) + rest));
    hide *;
    q := Place(r, Parse(Tabs(d) + Render(cs[0]))).value;
  }

  /** Adding an entry, then what is below it, then the rest, adds the whole forest. */
  lemma EntryAdded(t: Node, d: nat, cs: seq<Node>)
    requires Spine(t, d).Some? && cs != []
    ensures var u := AddAt(t, d, cs[0].(children := []));
      && Spine(u, d + 1).Some?
      && var v := AddAll(u, d + 1, cs[0].children);
         Spine(v, d).Some? && AddAll(v, d, cs[1..]) == AddAll(t, d, cs)
  {
    var n := cs[0];
    AddAllStep(t, d, cs);
    AddAllBelow(t, d, n.(children := []), n.children);
    assert n.(children := []).(children := [] + n.children) == n;
    hide *;
  }

  lemma {:induction false} EntryRead(r: Reader, cs: seq<Node>, d: nat, rest: seq<string>) returns (q: Reader)
    requires Below(r, d) && GoodForest(cs) && cs != [] && !IsComment(cs[0])
    ensures Below(q, d) && Spine(r.root, d).Some? && q.root == AddAll(r.root, d, cs)
    ensures Lines(r, SaveLines(cs, d) + rest) == Lines(q, rest)
    decreases cs, 0
  {
    hide Spine, AddAt, AddAll, Lines, SaveLines, GoodForest, IsComment;
    ForestRest(cs);
    var tail := SaveLines(cs[1..], d) + rest;
    var head := HeadRead(r, cs, d, rest);
    EntryAdded(r.root, d, cs);
    var below := ForestRead(head, cs[0].children, d + 1, tail);
    assert Below(below, d);
    q := ForestRead(below, cs[1..], d, rest);
  }

  lemma NoLines(d: nat, tail: seq<string>)
    ensures SaveLines([], d) + tail == tail
  {}

  lemma ForestRest(cs: seq<Node>)
    requires GoodForest(cs) && cs != []
    ensures GoodNode(cs[0]) && GoodForest(cs[1..])
    ensures IsComment(cs[0]) ==> cs[0].children == []
    ensures !IsComment(cs[0]) ==> GoodForest(cs[0].children) && (|cs| > 1 ==> !IsComment(cs[1]))
  {}

  // ---------------------------------------------------------------- reading back a file

  lemma {:induction false} ChunkAt(line: string, rest: string, max: nat)
    requires '\n' !in line && |line| + 1 <= max
    ensures ChunkUpTo(line + "\n" + rest, max) == |line| + 1
  {
    var text := line + "\n" + rest;
    if line != "" {
      assert text[0] == line[0] && text[1..] == line[1..] + "\n" + rest;
      ChunkAt(line[1..], rest, max - 1);
    }
  }

  ghost predicate NoLineEnds(lines: seq<string>) {
    forall i :: 0 <= i < |lines| ==> '\n' !in lines[i]
  }

  lemma {:induction false} SavedClean(cs: seq<Node>, d: nat)
    requires GoodForest(cs)
    ensures NoLineEnds(SaveLines(cs, d))
    decreases cs
  {
    hide Tabs, Render, GoodForest, GoodNode, IsComment;
    if cs != [] {
      ForestRest(cs);
      if !IsComment(cs[0]) {
        SavedClean(cs[0].children, d + 1);
      }
      SavedClean(cs[1..], d);
      RenderClean(cs[0], d);
    }
  }

  lemma RenderClean(n: Node, d: nat)
    requires GoodNode(n)
    ensures '\n' !in Tabs(d) + Render(n)
  {}

  /** The lines of a written tree, read one by one, give the tree back. */
  lemma LinesRead(t: Node)
    requires GoodTree(t)
    ensures var q := Lines(START, SaveLines(t.children, 0)); q.Some? && q.value.root == t
  {
    var lines := SaveLines(t.children, 0);
    assert lines + [] == lines;
    var q := ForestRead(START, t.children, 0, []);
    AddAllAtRoot(START.root, t.children);
    assert [] + t.children == t.children;
  }

  // ---------------------------------------------------------------- every tree that is read is one of these

  /** The path to the cursor has entries only, and nothing but comments has been put below it. */
  ghost predicate CursorGood(t: Node, d: nat)
    decreases d
  {
    if d == 0 then AllComments(t.children)
    else PathGood(t, 1) && CursorGood(t.children[|t.children| - 1], d - 1)
  }

  ghost predicate PathGood(t: Node, d: nat)
    decreases d
  {
    d == 0 || (t.children != [] && !IsComment(t.children[|t.children| - 1])
               && PathGood(t.children[|t.children| - 1], d - 1))
  }

  lemma {:induction false} CursorPath(t: Node, d: nat, e: nat)
    requires CursorGood(t, d) && e <= d
    ensures PathGood(t, e) && Spine(t, e).Some?
    decreases d
  {
    if e > 0 {
      CursorPath(t.children[|t.children| - 1], d - 1, e - 1);
    }
  }

  /** Replacing the last child by a good one of the same kind keeps the forest good. */
  lemma LastReplaced(cs: seq<Node>, n: Node)
    requires GoodForest(cs) && cs != [] && GoodNode(n) && IsComment(n) == IsComment(cs[|cs| - 1])
    ensures GoodForest(cs[|cs| - 1 := n])
  {}

  lemma Appended(cs: seq<Node>, n: Node)
    requires GoodForest(cs) && GoodNode(n) && (IsComment(n) ==> AllComments(cs))
    ensures GoodForest(cs + [n])
  {}

  /** An entry may go below any node of the path. */
  lemma {:induction false} EntryKeeps(t: Node, d: nat, n: Node)
    requires GoodForest(t.children) && PathGood(t, d) && Spine(t, d).Some?
    requires GoodNode(n) && !IsComment(n) && n.children == []
    ensures var u := AddAt(t, d, n);
      GoodForest(u.children) && CursorGood(u, d + 1) && u.key == t.key && u.val == t.val
    decreases d
  {
    var l := |t.children| - 1;
    if d == 0 {
      Appended(t.children, n);
      assert CursorGood(n, 0);
    } else {
      EntryKeeps(t.children[l], d - 1, n);
      LastReplaced(t.children, AddAt(t.children[l], d - 1, n));
    }
  }

  /** A comment may go below the cursor. */
  lemma {:induction false} CommentKeeps(t: Node, d: nat, n: Node)
    requires GoodForest(t.children) && CursorGood(t, d) && Spine(t, d).Some?
    requires GoodNode(n) && IsComment(n)
    ensures var u := AddAt(t, d, n);
      GoodForest(u.children) && CursorGood(u, d) && u.key == t.key && u.val == t.val
    decreases d
  {
    var l := |t.children| - 1;
    if d == 0 {
      Appended(t.children, n);
    } else {
      CommentKeeps(t.children[l], d - 1, n);
      LastReplaced(t.children, AddAt(t.children[l], d - 1, n));
    }
  }

  lemma TrimEnds(s: string)
    ensures Trimmed(Trim(s))
  {
    hide LeftTrimmed, RightTrimmed;
    var l := LeftTrimmed(s);
    assert RightTrimmed(l) <= l;
  }

  lemma TrimChars(s: string, i: nat)
    requires i < |Trim(s)|
    ensures Trim(s)[i] in s
  {
    hide LeftTrimmed, RightTrimmed;
    var l := LeftTrimmed(s);
    assert RightTrimmed(l)[i] == l[i] && l[i] == s[|s| - |l|..][i];
  }

  lemma TrimFirst(s: string)
    requires s != "" && !Space(s[0])
    ensures Trim(s) != "" && Trim(s)[0] == s[0]
  {
    KeepsFirst(s);
    assert LeftTrimmed(s) == s;
    hide LeftTrimmed, RightTrimmed;
  }

  lemma TrimGood(s: string)
    ensures Trimmed(Trim(s)) && (forall i :: 0 <= i < |Trim(s)| ==> Trim(s)[i] in s)
    ensures s != "" && !Space(s[0]) ==> Trim(s) != "" && Trim(s)[0] == s[0]
  {
    hide Trim;
    TrimEnds(s);
    forall i | 0 <= i < |Trim(s)|
      ensures Trim(s)[i] in s
    {
      TrimChars(s, i);
    }
    if s != "" && !Space(s[0]) {
      TrimFirst(s);
    }
  }

  lemma {:induction false} KeepsFirst(s: string)
    requires s != "" && !Space(s[0])
    ensures RightTrimmed(s) != ""
  {
    if Space(s[|s| - 1]) {
      KeepsFirst(s[..|s| - 1]);
    }
  }

  /** What a line without a line end in it can be. */
  ghost predicate GoodParsed(p: Parsed) {
    match p
    case Comment(text) => '\n' !in text
    case Entry(_, key, val) => GoodKey(key) && GoodValue(val)
    case _ => true
  }

  lemma ParseGood(line: string)
    requires '\n' !in line
    ensures GoodParsed(Parse(line))
  {
    if !Blank(line) {
      NotBlank(line);
      var indent := LeadingTabs(line);
      var text := line[indent..];
      assert forall c :: c in text ==> c in line;
      TextGood(indent, text);
    }
  }

  lemma ValueGood(s: string)
    requires '\n' !in s
    ensures GoodValue(Trim(s))
  {
    hide Trim;
    TrimGood(s);
  }

  lemma Within(text: string, k: nat)
    requires k <= |text| && '\n' !in text
    ensures '\n' !in text[k..]
  {}

  lemma TextGood(indent: nat, text: string)
    requires text != "" && '\n' !in text
    ensures GoodParsed(ParseText(indent, text))
  {
    hide Trim, GoodKey, GoodValue;
    Within(text, 1);
    if text[0] != '#' && !Space(text[0]) {
      var sep := FirstSeparator(text);
      if sep < |text| {
        KeyGood(text, sep);
        Within(text, sep + 1);
        ValueGood(text[sep + 1..]);
      }
    }
  }

  lemma KeyGood(text: string, sep: nat)
    requires text != "" && '\n' !in text && text[0] != '#' && !Space(text[0]) && sep < |text|
    requires forall i :: 0 <= i < sep ==> !Separator(text[i])
    ensures GoodKey(Trim(text[..sep]))
  {
    var s := text[..sep];
    TrimGood(s);
    assert forall c :: c in s ==> c in text && !Separator(c);
    if sep == 0 {
      assert Trim(s) == "";
    }
    hide Trim;
  }

  lemma {:induction false} ChunkClean(text: string, max: nat)
    requires text != "" && max > 0
    ensures '\n' !in text[..ChunkUpTo(text, max) - 1]
  {
    var n := ChunkUpTo(text, max);
    if n > 1 {
      ChunkClean(text[1..], max - 1);
      assert text[..n - 1] == [text[0]] + text[1..][..n - 2];
    }
  }

  lemma {:induction false} SplitClean(text: string)
    ensures NoLineEnds(Split(text))
    decreases |text|
  {
    if text != "" {
      ChunkClean(text, CONFIG_MAX_LINE - 1);
      SplitClean(text[Chunk(text)..]);
    }
  }

  ghost predicate GoodReader(r: Reader) {
    GoodTree(r.root) && CursorGood(r.root, r.depth) && OnSpine(r)
  }

  lemma PlaceGood(r: Reader, p: Parsed)
    requires GoodReader(r) && GoodParsed(p)
    ensures Place(r, p).Some? ==> GoodReader(Place(r, p).value)
  {
    PlaceOnSpine(r, p);
    hide Spine, AddAt, GoodForest, CursorGood;
    match p
    case Comment(text) => CommentKeeps(r.root, r.depth, Node("#", text, []));
    case Entry(indent, key, val) =>
      var depth := Dedented(r.depth, r.lastIndent, indent);
      CursorPath(r.root, r.depth, depth);
      assert GoodForest([]);
      EntryKeeps(r.root, depth, Node(key, val, []));
    case _ =>
  }

  lemma {:induction false} LinesGood(r: Reader, lines: seq<string>)
    requires GoodReader(r) && NoLineEnds(lines)
    ensures Lines(r, lines).Some? ==> GoodReader(Lines(r, lines).value)
    decreases |lines|
  {
    if lines != [] {
      ParseGood(lines[0]);
      PlaceGood(r, Parse(lines[0]));
      var q := Place(r, Parse(lines[0]));
      hide GoodReader, Parse, Place;
      if q.Some? {
        LinesGood(q.value, lines[1..]);
      }
    }
  }

  /** Whatever the file, a tree that is read has its comments first in every node, and clean keys and values. */
  lemma LoadedGood(text: string)
    ensures var q := Lines(START, Split(text)); q.Some? ==> GoodTree(q.value.root)
  {
    SplitClean(text);
    LinesGood(START, Split(text));
  }
}
