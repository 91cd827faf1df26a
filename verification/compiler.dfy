/** The two halves together: a policy document's lines, parsed and then
    rendered. Then small documents whose graph and DOT text are worked out
    completely: what a heading, a bullet and a plain line each become, and
    a two-section document end to end. */
module Compiler {
  import opened Text
  import opened Graphs
  import opened Lines
  import opened Parser
  import opened ParserFacts
  import opened Dot
  import Decimal

  /** The DOT text of a parsed document has one line per non-blank input
      line and one per containment edge, between the header and the
      closing brace. */
  lemma CompiledDotLines(lines: seq<string>)
    requires forall i :: 0 <= i < |lines| ==> NoNewline(lines[i])
    ensures Split(ToDot(Parse(lines))) == DotLines(Parse(lines))
    ensures |Split(ToDot(Parse(lines)))| == 2 + |NonBlank(lines)| + |Parse(lines).edges|
  {
    ParseLabelsNoNewline(lines);
    ParseNodes(lines);
    DotSplitsIntoLines(Parse(lines));
  }

  // ---------------------------------------------------------------------
  // Worked examples
  // ---------------------------------------------------------------------

  /** A line that is already trimmed and starts with a character other
      than `#`, `-` and `*` is a plain rule labelled with the whole line. */
  lemma PlainLine(line: string)
    requires Trimmed(line) && |line| > 0 && line[0] !in "#-*"
    ensures Classify(line) == Plain(line)
  {
    StripUnique("", line, "");
    assert "" + line + "" == line;
  }

  /** The string identities `HeadingLine` needs, kept in a lemma of their
      own: stated next to facts about `Classify`, identities between
      concatenated literals send the solver into a matching loop. */
  lemma HeadingLineParts(level: nat, title: string)
    requires level >= 1 && Trimmed(title) && |title| > 0
    ensures Trimmed(seq(level, _ => '#') + (" " + title))
    ensures var line := seq(level, _ => '#') + (" " + title);
            line == "" + line + ""
    ensures " " + title == " " + title + ""
  {
    var line := seq(level, _ => '#') + (" " + title);
    assert line[0] == '#';
    assert line[|line| - 1] == title[|title| - 1];
  }

  /** `#...# <title>` with a trimmed, non-empty title is a heading whose
      level is the number of `#` characters. */
  lemma HeadingLine(line: string, level: nat, title: string)
    requires level >= 1 && Trimmed(title) && |title| > 0
    requires line == seq(level, _ => '#') + (" " + title)
    ensures Classify(line) == Heading(level, title)
  {
    HeadingLineParts(level, title);
    StripUnique("", line, "");
    StripUnique(" ", title, "");
    HeadingParts(line, level, " " + title);
  }

  /** The string identities `BulletLine` needs, kept apart for the same
      reason as `HeadingLineParts`. */
  lemma BulletLineParts(text: string)
    requires Trimmed(text) && |text| > 0
    ensures Trimmed("- " + text)
    ensures "- " + text == "" + ("- " + text) + ""
    ensures text == "" + text + ""
    ensures forall i :: 0 <= i < |"- "| ==> InClass("- "[i], BulletMark)
  {
    var line := "- " + text;
    assert line[0] == '-';
    assert line[|line| - 1] == text[|text| - 1];
  }

  /** `- <text>` with a trimmed text that does not itself start with a
      marker is a bullet labelled with the text. */
  lemma BulletLine(line: string, text: string)
    requires Trimmed(text) && |text| > 0 && !InClass(text[0], BulletMark)
    requires line == "- " + text
    ensures Classify(line) == Bullet(text)
  {
    BulletLineParts(text);
    StripUnique("", line, "");
    StripUnique("", text, "");
    BulletLabel(line, "- ", text);
  }

  /** Text that reads back unchanged as a label: trimmed, non-empty, and
      not opening with a character that selects another case. */
  predicate Ordinary(t: string) {
    Trimmed(t) && |t| > 0 && t[0] !in "#-* "
  }

  /** The string identities `TabEndsMarkers` needs, kept apart for the same
      reason as `HeadingLineParts`. */
  lemma TabLineParts(x: string)
    requires Ordinary(x)
    ensures Trimmed("-\t-" + x) && Trimmed("-" + x)
    ensures "-\t-" + x == "" + ("-\t-" + x) + ""
    ensures "-\t-" + x == "-" + ("\t-" + x)
    ensures "\t-" + x == "\t" + ("-" + x) + ""
  {
    assert ("-\t-" + x)[0] == '-' && ("-\t-" + x)[|"-\t-" + x| - 1] == x[|x| - 1];
    assert ("-" + x)[0] == '-' && ("-" + x)[|"-" + x| - 1] == x[|x| - 1];
  }

  /** Only `-`, `*` and the space character are peeled off a bullet before
      the label is trimmed, so a tab ends the marker run and the markers
      after it stay in the label: `-<tab>-x` is labelled `-x`, not `x`. */
  lemma TabEndsMarkers(line: string, x: string)
    requires Ordinary(x) && line == "-\t-" + x
    ensures Classify(line) == Bullet("-" + x)
  {
    TabLineParts(x);
    StripUnique("", line, "");
    StripUnique("\t", "-" + x, "");
    BulletLabel(line, "-", "\t-" + x);
  }

  /** A document of two sections, the first with two bullets and the
      second, one level deeper, with one, over any titles and rule texts:
      ```
      # <s1>
      - <r1>
      - <r2>
      ## <s2>
      - <r3>
      ```
  */
  function DocA(s1: string, r1: string, r2: string, s2: string, r3: string): seq<string> {
    ["# " + s1, "- " + r1, "- " + r2, "## " + s2, "- " + r3]
  }

  function KindsOfA(s1: string, r1: string, r2: string, s2: string, r3: string): seq<LineKind> {
    [Heading(1, s1), Bullet(r1), Bullet(r2), Heading(2, s2), Bullet(r3)]
  }

  function GraphA(s1: string, r1: string, r2: string, s2: string, r3: string): Graph {
    Graph(
      [ Node(Sec(1), s1, SectionNode(1)),
        Node(Rule(1), r1, RuleNode),
        Node(Rule(2), r2, RuleNode),
        Node(Sec(2), s2, SectionNode(2)),
        Node(Rule(3), r3, RuleNode) ],
      [ Edge(Sec(1), Rule(1), Contains),
        Edge(Sec(1), Rule(2), Contains),
        Edge(Sec(2), Rule(3), Contains) ])
  }

  /** Lines whose classifications are known, one by one. */
  lemma KindsFrom(lines: seq<string>, ks: seq<LineKind>)
    requires |lines| == |ks|
    requires forall i :: 0 <= i < |lines| ==> Classify(lines[i]) == ks[i]
    ensures Kinds(lines) == ks
  {
  }

  lemma KindsA(s1: string, r1: string, r2: string, s2: string, r3: string)
    requires Ordinary(s1) && Ordinary(r1) && Ordinary(r2) && Ordinary(s2) && Ordinary(r3)
    ensures Kinds(DocA(s1, r1, r2, s2, r3)) == KindsOfA(s1, r1, r2, s2, r3)
  {
    var doc, ks := DocA(s1, r1, r2, s2, r3), KindsOfA(s1, r1, r2, s2, r3);
    forall i | 0 <= i < 5 ensures Classify(doc[i]) == ks[i] {
      if i == 0 {
        assert doc[0] == seq(1, _ => '#') + (" " + s1);
        HeadingLine(doc[0], 1, s1);
      } else if i == 3 {
        assert doc[3] == seq(2, _ => '#') + (" " + s2);
        HeadingLine(doc[3], 2, s2);
      } else {
        BulletLine(doc[i], ks[i].text);
      }
    }
    KindsFrom(doc, ks);
  }

  lemma FoldA(s1: string, r1: string, r2: string, s2: string, r3: string)
    ensures Fold(KindsOfA(s1, r1, r2, s2, r3)).graph == GraphA(s1, r1, r2, s2, r3)
  {
    var ks := KindsOfA(s1, r1, r2, s2, r3);
    FoldPrefix(ks, 0);
    FoldPrefix(ks, 1);
    FoldPrefix(ks, 2);
    FoldPrefix(ks, 3);
    FoldPrefix(ks, 4);
    assert ks[..5] == ks;
  }

  /** Two sections, each containing the bullets that follow it: five
      nodes numbered per kind, and three edges. */
  lemma ScenarioA(s1: string, r1: string, r2: string, s2: string, r3: string)
    requires Ordinary(s1) && Ordinary(r1) && Ordinary(r2) && Ordinary(s2) && Ordinary(r3)
    ensures Parse(DocA(s1, r1, r2, s2, r3)) == GraphA(s1, r1, r2, s2, r3)
  {
    KindsA(s1, r1, r2, s2, r3);
    FoldA(s1, r1, r2, s2, r3);
  }

  /** A bare line before any heading is a rule with no containing section. */
  lemma ScenarioB(r: string)
    requires Ordinary(r)
    ensures Parse([r]) == Graph([Node(Rule(1), r, RuleNode)], [])
  {
    PlainLine(r);
    var ks := Kinds([r]);
    FoldPrefix(ks, 0);
    assert ks[..1] == ks;
  }

  lemma DotA(s1: string, r1: string, r2: string, s2: string, r3: string)
    requires NoNewline(s1) && NoNewline(r1) && NoNewline(r2) && NoNewline(s2) && NoNewline(r3)
    ensures Split(ToDot(GraphA(s1, r1, r2, s2, r3))) == DotLines(GraphA(s1, r1, r2, s2, r3))
    ensures var out := Split(ToDot(GraphA(s1, r1, r2, s2, r3)));
            && |out| == 10
            && out[0] == Header
            && out[1] == NodeLine(Node(Sec(1), s1, SectionNode(1)))
            && out[6] == EdgeLine(Edge(Sec(1), Rule(1), Contains))
            && out[9] == Footer
  {
    var g := GraphA(s1, r1, r2, s2, r3);
    assert forall i :: 0 <= i < |g.nodes| ==> NoNewline(g.nodes[i].text);
    assert forall k :: 0 <= k < |g.edges| ==> NoNewline(g.edges[k].text);
    DotSplitsIntoLines(g);
    DotLayout(g);
  }

  /** The DOT text of that two-section document: the header, the five node
      lines in node order, the three edge lines in edge order and the
      closing brace. */
  lemma ScenarioC(s1: string, r1: string, r2: string, s2: string, r3: string)
    requires Ordinary(s1) && Ordinary(r1) && Ordinary(r2) && Ordinary(s2) && Ordinary(r3)
    requires NoNewline(s1) && NoNewline(r1) && NoNewline(r2) && NoNewline(s2) && NoNewline(r3)
    ensures var g := GraphA(s1, r1, r2, s2, r3);
            Split(ToDot(Parse(DocA(s1, r1, r2, s2, r3)))) == [Header] + NodeLines(g.nodes) + EdgeLines(g.edges) + [Footer]
    ensures var out := Split(ToDot(Parse(DocA(s1, r1, r2, s2, r3))));
            && |out| == 10
            && out[0] == "digraph G {"
            && out[1] == "  \"" + "section-1" + "\" [label=\"" + s1 + "\"];"
            && out[6] == "  \"" + "section-1" + "\" -> \"" + "rule-1" + "\" [label=\"" + "contains" + "\"];"
            && out[9] == "}"
  {
    ScenarioA(s1, r1, r2, s2, r3);
    DotA(s1, r1, r2, s2, r3);
    FirstIds();
  }

  lemma FirstIds()
    ensures IdString(Sec(1)) == "section-1" && IdString(Rule(1)) == "rule-1"
  {
    assert Decimal.NatToString(1) == "1";
  }

}
