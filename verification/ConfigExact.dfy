/** Exactly which trees survive being written and read: how long a line of the file may be. */
module ConfigExact {
  import opened Config
  import opened ConfigTheorems
  import opened Wrappers

  // ---------------------------------------------------------------- reading adds at the end

  lemma {:induction false} SaveConcat(a: seq<Node>, b: seq<Node>, d: nat)
    ensures SaveLines(a + b, d) == SaveLines(a, d) + SaveLines(b, d)
    decreases |a|
  {
    hide Tabs, Render;
    if a == [] {
      assert a + b == b;
    } else {
      assert (a + b)[0] == a[0] && (a + b)[1..] == a[1..] + b;
      SaveConcat(a[1..], b, d);
    }
  }

  lemma SaveOne(n: Node, d: nat)
    ensures SaveLines([n], d) == [Tabs(d) + Render(n)] + SaveLines(n.children, d + 1)
  {
    assert [n][1..] == [];
  }

  lemma SaveLast(cs: seq<Node>, n: Node, d: nat)
    requires cs != []
    ensures SaveLines(cs[|cs| - 1 := n], d) ==
      SaveLines(cs[..|cs| - 1], d) + ([Tabs(d) + Render(n)] + SaveLines(n.children, d + 1))
  {
    hide SaveLines, Tabs, Render;
    assert cs[|cs| - 1 := n] == cs[..|cs| - 1] + [n];
    SaveConcat(cs[..|cs| - 1], [n], d);
    SaveOne(n, d);
  }

  /** A node added at the cursor comes last when the tree is written. */
  lemma {:induction false} AddedLast(t: Node, d: nat, c: Node, e: nat)
    requires Spine(t, d).Some? && c.children == []
    ensures SaveLines(AddAt(t, d, c).children, e) == SaveLines(t.children, e) + [Tabs(e + d) + Render(c)]
    decreases d
  {
    hide SaveLines, Tabs, Render;
    var cs := t.children;
    if d == 0 {
      SaveConcat(cs, [c], e);
      SaveOne(c, e);
      NoChildren(e + 1);
    } else {
      var l := |cs| - 1;
      var x := AddAt(cs[l], d - 1, c);
      AddedLast(cs[l], d - 1, c, e + 1);
      SaveLast(cs, x, e);
      SaveLast(cs, cs[l], e);
      assert cs[l := cs[l]] == cs;
      SameHead(cs[l], d - 1, c);
    }
  }

  lemma NoChildren(d: nat)
    ensures SaveLines([], d) == []
  {}

  lemma SameHead(t: Node, d: nat, c: Node)
    requires Spine(t, d).Some?
    ensures Render(AddAt(t, d, c)) == Render(t)
  {}

  function Written(r: Reader): seq<string> {
    SaveLines(r.root.children, 0)
  }

  /** The line that is written for what a line has added. */
  function Added(r: Reader, p: Parsed): seq<string> {
    match p
    case Comment(text) => [Tabs(r.depth) + Render(Node("#", text, []))]
    case Entry(indent, key, val) => [Tabs(Dedented(r.depth, r.lastIndent, indent)) + Render(Node(key, val, []))]
    case _ => []
  }

  lemma PlaceAdds(r: Reader, p: Parsed)
    requires OnSpine(r) && Place(r, p).Some?
    ensures OnSpine(Place(r, p).value) && Written(Place(r, p).value) == Written(r) + Added(r, p)
  {
    hide SaveLines, Tabs, Render, AddAt, Spine;
    PlaceOnSpine(r, p);
    match p
    case Comment(text) => AddedLast(r.root, r.depth, Node("#", text, []), 0);
    case Entry(indent, key, val) =>
      var depth := Dedented(r.depth, r.lastIndent, indent);
      SpineUp(r.root, r.depth, depth);
      AddedLast(r.root, depth, Node(key, val, []), 0);
    case Nothing => assert Written(r) + [] == Written(r);
    case Invalid =>
  }

  lemma {:induction false} LinesAdd(r: Reader, lines: seq<string>)
    requires OnSpine(r) && Lines(r, lines).Some?
    ensures var q := Lines(r, lines).value; Written(r) <= Written(q) && |Written(q)| <= |Written(r)| + |lines|
    decreases |lines|
  {
    if lines != [] {
      hide Place, Parse, Written, Added;
      var q := Place(r, Parse(lines[0])).value;
      PlaceAdds(r, Parse(lines[0]));
      AtMostOne(r, Parse(lines[0]));
      LinesAdd(q, lines[1..]);
    }
  }

  lemma AtMostOne(r: Reader, p: Parsed)
    ensures |Added(r, p)| <= 1
  {}

  // ---------------------------------------------------------------- lines and the reader's buffer

  /**
   * A line is read as it is written if it fits into the buffer with its line end. One that fits
   * without it loses its last character, which only an entry without a value can spare.
   */
  predicate Fits(line: string) {
    || |line| < 4095
    || (|line| == 4095 && Parse(line).Entry? && Parse(line).val == "")
  }

  /** The first character that is not a tab is in the part of the line that is read first. */
  predicate Shallow(line: string) {
    LeadingTabs(line) < 4094
  }

  /** What of a line that does not fit is read first. */
  function Cut(line: string): string
    requires |line| >= CONFIG_MAX_LINE - 2
  {
    line[..CONFIG_MAX_LINE - 2]
  }

  lemma {:induction false} ChunkLong(text: string, max: nat)
    requires |text| >= max > 0 && '\n' !in text[..max]
    ensures ChunkUpTo(text, max) == max
  {
    if max > 1 {
      assert text[..max][0] == text[0];
      assert text[1..][..max - 1] == text[..max][1..];
      ChunkLong(text[1..], max - 1);
    }
  }

  lemma SplitShort(line: string, rest: string)
    requires '\n' !in line && |line| + 1 < CONFIG_MAX_LINE
    ensures Split(line + "\n" + rest) == [line] + Split(rest)
  {
    var text := line + "\n" + rest;
    ChunkAt(line, rest, CONFIG_MAX_LINE - 1);
    assert text[..|line|] == line && text[|line| + 1..] == rest;
    hide ChunkUpTo;
  }

  lemma SplitLong(line: string, rest: string)
    requires '\n' !in line && |line| + 1 >= CONFIG_MAX_LINE
    ensures Split(line + "\n" + rest) == [Cut(line)] + Split(line[CONFIG_MAX_LINE - 1..] + "\n" + rest)
  {
    var text, max := line + "\n" + rest, CONFIG_MAX_LINE - 1;
    assert text[..max] == line[..max];
    ChunkLong(text, max);
    assert text[..max - 1] == Cut(line) && text[max..] == line[max..] + "\n" + rest;
    hide ChunkUpTo;
  }

  // ---------------------------------------------------------------- a line cut short

  lemma KeyFirst(key: string, rest: string)
    requires GoodKey(key)
    ensures var text := key + ":" + rest; text != "" && !Space(text[0]) && text[0] != '#'
  {
    assert (key + ":" + rest)[0] == (if key == "" then ':' else key[0]);
  }

  lemma KeyedText(d: nat, key: string, rest: string)
    requires GoodKey(key)
    ensures ParseText(d, key + ":" + rest) == Entry(d, key, Trim(rest))
  {
    hide Trim, FirstSeparator, GoodKey;
    var text := key + ":" + rest;
    KeyFirst(key, rest);
    KeyTrimmed(key, rest);
    assert text[..|key|] == key && text[|key| + 1..] == rest;
  }

  lemma KeyTrimmed(key: string, rest: string)
    requires GoodKey(key)
    ensures Trim(key) == key && FirstSeparator(key + ":" + rest) == |key|
  {
    hide Trim, FirstSeparator;
    KeyEnds(key, rest);
    TrimTrimmed(key);
  }

  /** Once its separator is there, a line is an entry with its key. */
  lemma KeyedLine(d: nat, key: string, rest: string)
    requires GoodKey(key)
    ensures Parse(Tabs(d) + (key + ":" + rest)) == Entry(d, key, Trim(rest))
  {
    hide GoodKey, ParseText, LeadingTabs, Trim;
    var text := key + ":" + rest;
    KeyFirst(key, rest);
    KeyedText(d, key, rest);
    TabsLead(d, text);
    assert (Tabs(d) + text)[d] == text[0];
  }

  /** Without it a line is refused. */
  lemma BareLine(d: nat, key: string)
    requires key != "" && !Space(key[0]) && key[0] != '#' && forall i :: 0 <= i < |key| ==> !Separator(key[i])
    ensures Parse(Tabs(d) + key) == Invalid
  {
    TabsLead(d, key);
    assert (Tabs(d) + key)[d] == key[0];
    assert FirstSeparator(key) == |key|;
    hide LeadingTabs, FirstSeparator;
  }

  lemma ShorterValue(val: string, m: nat)
    requires 0 < m <= |val|
    ensures Trim((" " + val)[..m]) != val
  {
    var s := (" " + val)[..m];
    assert Space(s[0]);
    hide RightTrimmed;
  }

  /** An entry without a value that loses the last space reads the same. */
  lemma CutSame(d: nat, key: string)
    requires GoodKey(key) && d + |key| + 3 == CONFIG_MAX_LINE
    ensures var line := Tabs(d) + (key + ": " + "");
      |line| + 1 == CONFIG_MAX_LINE && Parse(Cut(line)) == Entry(d, key, "")
  {
    hide GoodKey, Parse, Tabs;
    var line := Tabs(d) + (key + ": " + "");
    assert Cut(line) == Tabs(d) + (key + ":" + "");
    KeyedLine(d, key, "");
    assert Trim("") == "";
  }

  /** What is left of an entry that does not fit is refused, or another entry. */
  lemma CutEntry(d: nat, key: string, val: string)
    requires GoodKey(key) && d < CONFIG_MAX_LINE - 2
    requires var line := Tabs(d) + (key + ": " + val);
      |line| + 1 >= CONFIG_MAX_LINE && (val == "" ==> |line| + 1 > CONFIG_MAX_LINE)
    ensures var p := Parse(Cut(Tabs(d) + (key + ": " + val)));
      p == Invalid || (p.Entry? && p.indent == d && p.key == key && p.val != val)
  {
    hide Parse, Tabs, Trim;
    var text, max := key + ": " + val, CONFIG_MAX_LINE - 2;
    var line := Tabs(d) + text;
    assert Cut(line) == Tabs(d) + text[..max - d];
    if d + |key| + 1 <= max {
      var m := max - d - |key| - 1;
      assert text[..max - d] == key + ":" + (" " + val)[..m];
      KeyedLine(d, key, (" " + val)[..m]);
      if val != "" && m > 0 {
        ShorterValue(val, m);
      } else {
        assert Trim("") == "" by { NothingToTrim(); }
      }
    } else {
      assert text[..max - d] == key[..max - d];
      BareLine(d, key[..max - d]);
    }
  }

  lemma NothingToTrim()
    ensures Trim("") == ""
  {}

  lemma CutComment(d: nat, text: string)
    requires d < CONFIG_MAX_LINE - 2
    requires |Tabs(d) + ("#" + text)| + 1 >= CONFIG_MAX_LINE
    ensures var p := Parse(Cut(Tabs(d) + ("#" + text))); p.Comment? && |p.text| < |text|
  {
    hide Parse, Tabs;
    var max := CONFIG_MAX_LINE - 2;
    assert Cut(Tabs(d) + ("#" + text)) == Tabs(d) + ("#" + text[..max - d - 1]);
    CommentParsed(d, text[..max - d - 1]);
  }

  // ---------------------------------------------------------------- a whole file

  /** A line that has added itself is a comment at the cursor, or an entry at its own depth. */
  lemma OwnLine(r: Reader, line: string)
    requires '\n' !in line && Added(r, Parse(line)) == [line]
    ensures match Parse(line)
      case Comment(text) => line == Tabs(r.depth) + ("#" + text) && LeadingTabs(line) == r.depth
      case Entry(indent, key, val) =>
        && GoodKey(key) && line == Tabs(indent) + (key + ": " + val) && LeadingTabs(line) == indent
        && Dedented(r.depth, r.lastIndent, indent) == indent
      case _ => false
  {
    ParseGood(line);
    hide Parse, LeadingTabs, Tabs, Dedented, GoodValue;
    match Parse(line)
    case Comment(text) =>
      assert Render(Node("#", text, [])) == "#" + text;
      TabsLead(r.depth, "#" + text);
    case Entry(indent, key, val) =>
      var e := Dedented(r.depth, r.lastIndent, indent);
      assert Render(Node(key, val, [])) == key + ": " + val;
      FirstChar(key, val);
      TabsLead(e, key + ": " + val);
      IndentIs(line);
    case _ =>
  }

  lemma IndentIs(line: string)
    ensures Parse(line).Entry? ==> Parse(line).indent == LeadingTabs(line)
  {
    hide LeadingTabs, FirstSeparator, Trim;
  }

  lemma CutLine(r: Reader, line: string)
    requires '\n' !in line && Added(r, Parse(line)) == [line] && Shallow(line) && !Fits(line)
    ensures var p := Parse(Cut(line)); p == Invalid || (|Added(r, p)| == 1 && Added(r, p) != [line])
  {
    hide Parse, LeadingTabs, Tabs, Dedented, GoodKey;
    OwnLine(r, line);
    match Parse(line)
    case Comment(text) =>
      CutComment(r.depth, text);
    case Entry(indent, key, val) =>
      CutEntry(indent, key, val);
      var p := Parse(Cut(line));
      if p.Entry? {
        NotComment(key, p.val);
        OtherValue(Tabs(indent), key, val, p.val);
      }
  }

  lemma NotComment(key: string, val: string)
    requires GoodKey(key)
    ensures Render(Node(key, val, [])) == key + ": " + val
  {}

  lemma OtherValue(a: string, key: string, v: string, w: string)
    requires v != w
    ensures a + (key + ": " + v) != a + (key + ": " + w)
  {
    var k := |a| + |key| + 2;
    assert (a + (key + ": " + v))[k..] == v && (a + (key + ": " + w))[k..] == w;
  }

  /** A line that fits is read as it is. */
  lemma FitLine(r: Reader, line: string, rest: string)
    requires OnSpine(r) && '\n' !in line && Fits(line) && Added(r, Parse(line)) == [line]
    requires Place(r, Parse(line)).Some?
    ensures var q := Place(r, Parse(line)).value;
      OnSpine(q) && Lines(r, Split(line + "\n" + rest)) == Lines(q, Split(rest))
  {
    hide Split, Parse, LeadingTabs, Tabs, Dedented, Place, Spine, GoodKey, Added;
    PlaceOnSpine(r, Parse(line));
    if |line| + 1 < CONFIG_MAX_LINE {
      SplitShort(line, rest);
      LinesStep(r, line, Split(rest));
    } else {
      OwnLine(r, line);
      var p := Parse(line);
      CutSame(p.indent, p.key);
      assert line[CONFIG_MAX_LINE - 1..] == "";
      SplitLong(line, rest);
      SplitShort("", rest);
      assert "" + "\n" + rest == "\n" + rest;
      var q := Place(r, p).value;
      LinesStep(r, Cut(line), [""] + Split(rest));
      BlankLine(q, Split(rest));
    }
  }

  lemma BlankLine(q: Reader, rest: seq<string>)
    requires OnSpine(q)
    ensures Lines(q, [""] + rest) == Lines(q, rest)
  {
    assert Parse("") == Nothing;
    assert ([""] + rest)[1..] == rest;
  }

  /** Lines that write themselves when they are read do so one by one. */
  lemma OneByOne(r: Reader, lines: seq<string>)
    requires OnSpine(r) && lines != [] && Lines(r, lines).Some? && Written(Lines(r, lines).value) == Written(r) + lines
    ensures Place(r, Parse(lines[0])).Some? && Added(r, Parse(lines[0])) == [lines[0]]
    ensures var q := Place(r, Parse(lines[0])).value;
      && OnSpine(q) && Lines(q, lines[1..]) == Lines(r, lines)
      && Written(q) == Written(r) + [lines[0]] && Written(q) + lines[1..] == Written(r) + lines
  {
    hide Place, Parse, Written, Added, Spine;
    var q := Place(r, Parse(lines[0])).value;
    PlaceAdds(r, Parse(lines[0]));
    AtMostOne(r, Parse(lines[0]));
    LinesAdd(q, lines[1..]);
    var a, w, n := Added(r, Parse(lines[0])), Written(Lines(r, lines).value), |Written(r)|;
    assert |a| == 1;
    assert Written(q)[n] == a[0] && w[n] == lines[0];
  }

  ghost predicate AllFit(lines: seq<string>) {
    forall i :: 0 <= i < |lines| ==> Fits(lines[i])
  }

  ghost predicate AllShallow(lines: seq<string>) {
    forall i :: 0 <= i < |lines| ==> Shallow(lines[i])
  }

  /** Such lines survive as a file if they all fit, and only then. */
  lemma {:induction false} Survive(r: Reader, lines: seq<string>)
    requires OnSpine(r) && Lines(r, lines).Some? && Written(Lines(r, lines).value) == Written(r) + lines
    requires NoLineEnds(lines)
    ensures AllFit(lines) ==> Lines(r, Split(Join(lines))) == Lines(r, lines)
    ensures AllShallow(lines) && !AllFit(lines) ==>
      var w := Lines(r, Split(Join(lines))); w.None? || Written(w.value) != Written(r) + lines
    decreases |lines|
  {
    hide Place, Parse, Written, Added, Spine, Split, Fits, Shallow;
    if lines == [] {
      assert Split("") == [] by { SplitNothing(); }
    } else {
      var line, rest := lines[0], Join(lines[1..]);
      OneByOne(r, lines);
      if Fits(line) {
        FitLine(r, line, rest);
        Survive(Place(r, Parse(line)).value, lines[1..]);
      } else if Shallow(line) {
        DoesNotSurvive(r, lines);
      }
    }
  }

  lemma SplitNothing()
    ensures Split("") == []
  {}

  lemma DoesNotSurvive(r: Reader, lines: seq<string>)
    requires OnSpine(r) && lines != [] && '\n' !in lines[0] && Added(r, Parse(lines[0])) == [lines[0]]
    requires Shallow(lines[0]) && !Fits(lines[0])
    ensures var w := Lines(r, Split(Join(lines))); w.None? || Written(w.value) != Written(r) + lines
  {
    hide Parse, Written, Spine, Split, Shallow;
    var line, rest := lines[0], Join(lines[1..]);
    CutLine(r, line);
    SplitLong(line, rest);
    hide Added, Fits;
    var more := Split(line[CONFIG_MAX_LINE - 1..] + "\n" + rest);
    var p := Parse(Cut(line));
    assert ([Cut(line)] + more)[1..] == more;
    if Place(r, p).Some? {
      PlaceAdds(r, p);
      LinesStep(r, Cut(line), more);
      var q := Place(r, p).value;
      if Lines(q, more).Some? {
        LinesAdd(q, more);
        assert Written(Lines(q, more).value)[|Written(r)|] == Added(r, p)[0] != line;
      }
    }
  }

  // ---------------------------------------------------------------- results

  function Reloaded(t: Node): Option<Node> {
    match Lines(START, Split(Join(SaveLines(t.children, 0))))
    case None => None
    case Some(r) => Some(r.root)
  }

  /**
   * A tree that is less than 4094 deep is read back as it was written if and only if it is one that
   * reading can produce, and every line of it fits.
   */
  lemma LoadSaveIff(t: Node)
    requires AllShallow(SaveLines(t.children, 0))
    ensures Reloaded(t) == Some(t) <==> GoodTree(t) && AllFit(SaveLines(t.children, 0))
  {
    hide Lines, Split, Fits, Shallow, SaveLines;
    LoadedGood(Join(SaveLines(t.children, 0)));
    if GoodTree(t) {
      Prepared(t);
      Survive(START, SaveLines(t.children, 0));
    }
  }

  lemma Prepared(t: Node)
    requires GoodTree(t)
    ensures var lines := SaveLines(t.children, 0);
      && OnSpine(START) && Written(START) == [] && NoLineEnds(lines)
      && Lines(START, lines).Some? && Lines(START, lines).value.root == t
      && Written(Lines(START, lines).value) == Written(START) + lines
  {
    hide Lines;
    LinesRead(t);
    SavedClean(t.children, 0);
    assert [] + SaveLines(t.children, 0) == SaveLines(t.children, 0);
  }

  /** What has been read from a file survives writing and reading again, at any depth, if its lines fit. */
  lemma Fixpoint(text: string)
    requires Lines(START, Split(text)).Some?
    ensures var t := Lines(START, Split(text)).value.root;
      && (AllFit(SaveLines(t.children, 0)) ==> Reloaded(t) == Some(t))
      && (AllShallow(SaveLines(t.children, 0)) && Reloaded(t) == Some(t) ==> AllFit(SaveLines(t.children, 0)))
  {
    LoadedGood(text);
    var t := Lines(START, Split(text)).value.root;
    hide Lines, Split, Fits, Shallow, SaveLines;
    Prepared(t);
    Survive(START, SaveLines(t.children, 0));
  }
}
