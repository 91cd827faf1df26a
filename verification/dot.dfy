/** The DOT renderer: a graph becomes a `digraph` document with one line
    per node and per edge. Labels are inserted as they are, without any
    escaping. */
module Dot {
  import opened Text
  import opened Graphs

  const Header: string := "digraph G {"
  const Footer: string := "}"

  /** `  "<id>" [label="<label>"];` */
  function NodeLine(n: Node): string {
    "  \"" + IdString(n.id) + "\" [label=\"" + n.text + "\"];"
  }

  /** `  "<from>" -> "<to>" [label="<label>"];` */
  function EdgeLine(e: Edge): string {
    "  \"" + IdString(e.from) + "\" -> \"" + IdString(e.to) + "\" [label=\"" + e.text + "\"];"
  }

  function NodeLines(nodes: seq<Node>): (r: seq<string>)
    ensures |r| == |nodes|
    ensures forall i :: 0 <= i < |nodes| ==> r[i] == NodeLine(nodes[i])
  {
    seq(|nodes|, i requires 0 <= i < |nodes| => NodeLine(nodes[i]))
  }

  function EdgeLines(edges: seq<Edge>): (r: seq<string>)
    ensures |r| == |edges|
    ensures forall k :: 0 <= k < |edges| ==> r[k] == EdgeLine(edges[k])
  {
    seq(|edges|, k requires 0 <= k < |edges| => EdgeLine(edges[k]))
  }

  lemma NodeLinesPrefix(nodes: seq<Node>, i: nat)
    requires i < |nodes|
    ensures NodeLines(nodes[..i + 1]) == NodeLines(nodes[..i]) + [NodeLine(nodes[i])]
  {
  }

  lemma EdgeLinesPrefix(edges: seq<Edge>, k: nat)
    requires k < |edges|
    ensures EdgeLines(edges[..k + 1]) == EdgeLines(edges[..k]) + [EdgeLine(edges[k])]
  {
  }

  /** The document's lines before they are joined. */
  function DotLines(g: Graph): seq<string> {
    [Header] + NodeLines(g.nodes) + EdgeLines(g.edges) + [Footer]
  }

  /** The document: its lines joined by single newlines, with no newline
      after the last. */
  function ToDot(g: Graph): string {
    Join(DotLines(g))
  }

  /** Where the pieces of `[first] + middle + rest + [last]` sit. */
  lemma FrameLayout(first: string, middle: seq<string>, rest: seq<string>, last: string)
    ensures var ls := [first] + middle + rest + [last];
            && |ls| == 2 + |middle| + |rest|
            && ls[0] == first
            && ls[|ls| - 1] == last
            && (forall i :: 0 <= i < |middle| ==> ls[1 + i] == middle[i])
            && (forall k :: 0 <= k < |rest| ==> ls[1 + |middle| + k] == rest[k])
  {
  }

  /** The header, then one line per node in node order, then one line per
      edge in edge order, then the closing brace. */
  lemma DotLayout(g: Graph)
    ensures |DotLines(g)| == 2 + |g.nodes| + |g.edges|
    ensures DotLines(g)[0] == Header
    ensures DotLines(g)[|DotLines(g)| - 1] == Footer
    ensures forall i :: 0 <= i < |g.nodes| ==> DotLines(g)[1 + i] == NodeLine(g.nodes[i])
    ensures forall k :: 0 <= k < |g.edges| ==> DotLines(g)[1 + |g.nodes| + k] == EdgeLine(g.edges[k])
  {
    FrameLayout(Header, NodeLines(g.nodes), EdgeLines(g.edges), Footer);
  }

  lemma NodeLineNoNewline(n: Node)
    requires NoNewline(n.text)
    ensures NoNewline(NodeLine(n))
  {
    assert '\n' !in IdString(n.id);
  }

  lemma EdgeLineNoNewline(e: Edge)
    requires NoNewline(e.text)
    ensures NoNewline(EdgeLine(e))
  {
    assert '\n' !in IdString(e.from) && '\n' !in IdString(e.to);
  }

  /** Labels without newlines are what make the line structure readable:
      splitting the document on newlines gives back exactly its lines. */
  lemma DotSplitsIntoLines(g: Graph)
    requires forall i :: 0 <= i < |g.nodes| ==> NoNewline(g.nodes[i].text)
    requires forall k :: 0 <= k < |g.edges| ==> NoNewline(g.edges[k].text)
    ensures Split(ToDot(g)) == DotLines(g)
    ensures |Split(ToDot(g))| == 2 + |g.nodes| + |g.edges|
  {
    var ls := DotLines(g);
    DotLayout(g);
    forall j | 0 <= j < |ls| ensures NoNewline(ls[j]) {
      if 1 <= j < 1 + |g.nodes| {
        NodeLineNoNewline(g.nodes[j - 1]);
      } else if 1 + |g.nodes| <= j < |ls| - 1 {
        EdgeLineNoNewline(g.edges[j - 1 - |g.nodes|]);
      } else {
        assert ls[j] == Header || ls[j] == Footer;
      }
    }
    SplitJoin(ls);
  }

  /** The document opens with `digraph G {` and its last character is the
      closing brace: there is no trailing newline. */
  lemma DotEnds(g: Graph)
    ensures |ToDot(g)| >= |Header| && ToDot(g)[..|Header|] == Header
    ensures |ToDot(g)| >= 1 && ToDot(g)[|ToDot(g)| - 1] == '}'
  {
    DotLayout(g);
    JoinEnds(DotLines(g));
  }

  /** The number of double quotes in `s`. */
  function Quotes(s: string): nat {
    if |s| == 0 then 0 else Quotes(s[..|s| - 1]) + (if s[|s| - 1] == '"' then 1 else 0)
  }

  lemma {:induction false} QuotesConcat(a: string, b: string)
    ensures Quotes(a + b) == Quotes(a) + Quotes(b)
    decreases |b|
  {
    if |b| == 0 {
      assert a + b == a;
    } else {
      QuotesConcat(a, b[..|b| - 1]);
      assert (a + b)[..|a + b| - 1] == a + b[..|b| - 1];
    }
  }

  lemma {:induction false} QuotesAbsent(s: string)
    requires '"' !in s
    ensures Quotes(s) == 0
  {
    if |s| > 0 {
      QuotesAbsent(s[..|s| - 1]);
    }
  }

  /** A node's label appears in its line verbatim, right after `label="`. */
  lemma NodeLineVerbatim(n: Node)
    ensures var k := 13 + |IdString(n.id)|;
            k + |n.text| <= |NodeLine(n)| && NodeLine(n)[k..k + |n.text|] == n.text
  {
  }

  /** An edge line names both ends verbatim, each in quotes with ` -> `
      between them, and then carries the edge's label verbatim right after
      `label="`. */
  lemma EdgeLineVerbatim(e: Edge)
    ensures var f, t := IdString(e.from), IdString(e.to);
            && 19 + |f| + |t| + |e.text| <= |EdgeLine(e)|
            && EdgeLine(e)[3..3 + |f|] == f
            && EdgeLine(e)[3 + |f|..9 + |f|] == "\" -> \""
            && EdgeLine(e)[9 + |f|..9 + |f| + |t|] == t
            && EdgeLine(e)[19 + |f| + |t|..19 + |f| + |t| + |e.text|] == e.text
  {
    var f, t := IdString(e.from), IdString(e.to);
    var a := "  \"" + f;
    var b := a + "\" -> \"" + t;
    var c := b + "\" [label=\"" + e.text;
    assert EdgeLine(e) == c + "\"];";
    assert |a| == 3 + |f| && a[3..] == f;
    assert |b| == 9 + |f| + |t| && b[..|a|] == a && b[|a|..|a| + 6] == "\" -> \"" && b[|a| + 6..] == t;
    assert |c| == 19 + |f| + |t| + |e.text| && c[..|b|] == b && c[|b| + 10..] == e.text;
  }

  /** Nothing is escaped: a node line holds the four quotes that delimit
      the id and the label plus every quote of the label itself, so a label
      with a quote in it leaves the line's quoting unbalanced. */
  lemma NodeLineQuotes(n: Node)
    ensures Quotes(NodeLine(n)) == 4 + Quotes(n.text)
  {
    var id := IdString(n.id);
    assert Quotes("\"") == 1 by { assert "\""[..0] == ""; }
    assert Quotes("  \"") == 1 by {
      assert "  \"" == "  " + "\"";
      QuotesConcat("  ", "\"");
      QuotesAbsent("  ");
    }
    assert Quotes("\" [label=\"") == 2 by {
      assert "\" [label=\"" == "\"" + " [label=" + "\"";
      QuotesConcat("\"", " [label=");
      QuotesConcat("\"" + " [label=", "\"");
      QuotesAbsent(" [label=");
    }
    assert Quotes("\"];") == 1 by {
      assert "\"];" == "\"" + "];";
      QuotesConcat("\"", "];");
      QuotesAbsent("];");
    }
    QuotesAbsent(id);
    QuotesConcat("  \"", id);
    QuotesConcat("  \"" + id, "\" [label=\"");
    QuotesConcat("  \"" + id + "\" [label=\"", n.text);
    QuotesConcat("  \"" + id + "\" [label=\"" + n.text, "\"];");
  }

  /** The renderer as it is written: a list of lines built by two loops,
      then joined. */
  method RenderDot(g: Graph) returns (s: string)
    ensures s == ToDot(g)
  {
    var lines := [Header];
    for i := 0 to |g.nodes|
      invariant lines == [Header] + NodeLines(g.nodes[..i])
    {
      NodeLinesPrefix(g.nodes, i);
      lines := lines + [NodeLine(g.nodes[i])];
    }
    assert g.nodes[..|g.nodes|] == g.nodes;
    for k := 0 to |g.edges|
      invariant lines == [Header] + NodeLines(g.nodes) + EdgeLines(g.edges[..k])
    {
      EdgeLinesPrefix(g.edges, k);
      lines := lines + [EdgeLine(g.edges[k])];
    }
    assert g.edges[..|g.edges|] == g.edges;
    lines := lines + [Footer];
    s := Join(lines);
  }
}
