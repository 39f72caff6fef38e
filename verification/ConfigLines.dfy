/** What a line of a configuration file means. */
module ConfigLines {
  import opened Config
  import opened ConfigTheorems

  /** What trimming takes away is white space, and what it leaves does not begin or end with any. */
  lemma Trimming(s: string) returns (a: string, b: string)
    ensures s == a + Trim(s) + b
    ensures (forall i :: 0 <= i < |a| ==> White(a[i])) && (forall i :: 0 <= i < |b| ==> White(b[i]))
    ensures Trim(s) != "" ==> !White(Trim(s)[0]) && !White(Trim(s)[|Trim(s)| - 1])
  {
    hide LeftTrimmed, RightTrimmed, White;
    var l := LeftTrimmed(s);
    var r := RightTrimmed(l);
    LeftSpaces(s);
    RightSpaces(l);
    a, b := s[..|s| - |l|], l[|r|..];
    assert r != "" ==> r[0] == l[0];
  }

  lemma {:induction false} LeftSpaces(s: string)
    ensures forall i :: 0 <= i < |s| - |LeftTrimmed(s)| ==> White(s[i])
    ensures LeftTrimmed(s) != "" ==> !White(LeftTrimmed(s)[0])
  {
    if s != "" && Space(s[0]) {
      LeftSpaces(s[1..]);
      assert forall i :: 1 <= i < |s| ==> s[i] == s[1..][i - 1];
    }
  }

  lemma {:induction false} RightSpaces(s: string)
    ensures RightTrimmed(s) != "" ==> !White(RightTrimmed(s)[|RightTrimmed(s)| - 1])
    ensures forall i :: |RightTrimmed(s)| <= i < |s| ==> White(s[i])
  {
    if s != "" && Space(s[|s| - 1]) {
      RightSpaces(s[..|s| - 1]);
      assert forall i :: 0 <= i < |s| - 1 ==> s[i] == s[..|s| - 1][i];
    }
  }

  /** A key ends at the first ':' or '='; the key and the value are trimmed. */
  lemma EntryLine(d: nat, key: string, v: string)
    requires forall i :: 0 <= i < |key| ==> key[i] != ':' && key[i] != '='
    requires key != "" ==> key[0] != '#' && !White(key[0])
    ensures Parse(Tabs(d) + (key + "=" + v)) == Entry(d, Trim(key), Trim(v))
    ensures Parse(Tabs(d) + (key + ":" + v)) == Entry(d, Trim(key), Trim(v))
  {
    hide Parse, Trim, Tabs;
    AnyEntry(d, key, '=', v);
    AnyEntry(d, key, ':', v);
  }

  lemma AnyEntry(d: nat, key: string, c: char, v: string)
    requires (c == '=' || c == ':') && forall i :: 0 <= i < |key| ==> key[i] != ':' && key[i] != '='
    requires key != "" ==> key[0] != '#' && !White(key[0])
    ensures Parse(Tabs(d) + (key + [c] + v)) == Entry(d, Trim(key), Trim(v))
  {
    hide LeadingTabs, ParseText, Trim, Tabs;
    var text := key + [c] + v;
    TextEntry(d, key, c, v);
    TabsLead(d, text);
    assert (Tabs(d) + text)[d] == text[0];
  }

  lemma TextEntry(d: nat, key: string, c: char, v: string)
    requires (c == '=' || c == ':') && forall i :: 0 <= i < |key| ==> key[i] != ':' && key[i] != '='
    requires key != "" ==> key[0] != '#' && !White(key[0])
    ensures var text := key + [c] + v; !Space(text[0]) && ParseText(d, text) == Entry(d, Trim(key), Trim(v))
  {
    hide FirstSeparator, Trim;
    var text := key + [c] + v;
    assert text[|key|] == c && (forall i :: 0 <= i < |key| ==> text[i] == key[i]);
    assert FirstSeparator(text) == |key|;
    assert text[..|key|] == key && text[|key| + 1..] == v;
    assert text[0] == if key == "" then c else key[0];
  }

  /** A line of white space means nothing, and no other line does. */
  lemma EmptyLine(line: string)
    ensures Parse(line) == Nothing <==> forall i :: 0 <= i < |line| ==> White(line[i])
  {
    assert forall c :: White(c) == Space(c);
    hide LeadingTabs, FirstSeparator, Trim, Space, White;
  }

  /**
   * How a node is written: its tabs, then '#' and the text of a comment, or the key, a colon, a space
   * and the value; then the lines of its children, one tab deeper, and then those of the nodes behind it.
   */
  lemma SavedText(n: Node, rest: seq<Node>, d: nat)
    ensures Join(SaveLines([n] + rest, d)) ==
      Tabs(d) + (if n.key != "" && n.key[0] == '#' then "#" + n.val else n.key + ": " + n.val) + "\n" +
      Join(SaveLines(n.children, d + 1)) + Join(SaveLines(rest, d))
  {
    hide SaveLines, Join, NodeLines, Tabs;
    var cs := [n] + rest;
    assert cs[0..] == cs && cs[0 + 1..] == rest;
    SaveStep(cs, 0, d);
    JoinConcat(NodeLines(n, d), SaveLines(rest, d));
  }
}
