/** What the parser guarantees about the graph it builds, stated against
    reference definitions that look at the classified lines directly
    instead of threading the loop's state. */
module ParserFacts {
  import opened Text
  import opened Graphs
  import opened Lines
  import opened Parser

  // ---------------------------------------------------------------------
  // Reference definitions, over classified lines
  // ---------------------------------------------------------------------

  /** How many headings `ks` holds. */
  function SectionCount(ks: seq<LineKind>): nat {
    if |ks| == 0 then 0
    else SectionCount(ks[..|ks| - 1]) + (if ks[|ks| - 1].Heading? then 1 else 0)
  }

  /** How many rule lines (bullets or plain text) `ks` holds. */
  function RuleCount(ks: seq<LineKind>): nat {
    if |ks| == 0 then 0
    else RuleCount(ks[..|ks| - 1]) + (if ks[|ks| - 1].IsRule() then 1 else 0)
  }

  /** `ks` without its blank lines, in order. */
  function NonBlankKinds(ks: seq<LineKind>): (r: seq<LineKind>)
    ensures |r| <= |ks|
    ensures forall i :: 0 <= i < |r| ==> !r[i].Blank?
  {
    if |ks| == 0 then []
    else
      var last := ks[|ks| - 1];
      NonBlankKinds(ks[..|ks| - 1]) + (if last.Blank? then [] else [last])
  }

  /** The node a non-blank line gets, from the counts before it. */
  function NewNode(sections: nat, rules: nat, k: LineKind): Node {
    if k.Heading? then Node(Sec(sections + 1), k.title, SectionNode(k.level))
    else Node(Rule(rules + 1), k.Label(), RuleNode)
  }

  /** The node line `i` of `ks` stands for: its id is one more than the
      number of lines of its own kind before it. Meant for non-blank lines. */
  function NodeFor(ks: seq<LineKind>, i: nat): Node
    requires i < |ks|
  {
    NewNode(SectionCount(ks[..i]), RuleCount(ks[..i]), ks[i])
  }

  /** One node per entry of `ks`, in order. */
  function RefNodes(ks: seq<LineKind>): seq<Node> {
    seq(|ks|, i requires 0 <= i < |ks| => NodeFor(ks, i))
  }

  /** The edge line `i` contributes: one, from the newest section before
      it, when it is a rule line and some heading comes before it. */
  function EdgeAt(ks: seq<LineKind>, i: nat): seq<Edge>
    requires i < |ks|
  {
    var sections := SectionCount(ks[..i]);
    if ks[i].IsRule() && sections > 0
    then [Edge(Sec(sections), Rule(RuleCount(ks[..i]) + 1), Contains)]
    else []
  }

  /** The edges contributed by the first `n` lines, in line order. */
  function EdgesUpTo(ks: seq<LineKind>, n: nat): seq<Edge>
    requires n <= |ks|
  {
    if n == 0 then [] else EdgesUpTo(ks, n - 1) + EdgeAt(ks, n - 1)
  }

  function RefEdges(ks: seq<LineKind>): seq<Edge> {
    EdgesUpTo(ks, |ks|)
  }

  // ---------------------------------------------------------------------
  // The fold against the reference
  // ---------------------------------------------------------------------

  /** Blank lines neither change the state nor count. */
  lemma {:induction false} FoldIgnoresBlank(ks: seq<LineKind>)
    ensures Fold(NonBlankKinds(ks)) == Fold(ks)
    ensures SectionCount(NonBlankKinds(ks)) == SectionCount(ks)
    ensures RuleCount(NonBlankKinds(ks)) == RuleCount(ks)
  {
    if |ks| > 0 {
      var p, last := ks[..|ks| - 1], ks[|ks| - 1];
      FoldIgnoresBlank(p);
      var q := NonBlankKinds(p);
      if last.Blank? {
        assert NonBlankKinds(ks) == q + [];
        assert q + [] == q;
      } else {
        assert NonBlankKinds(ks) == q + [last];
        assert (q + [last])[..|q|] == q;
      }
    }
  }

  /** The two counters count headings and rule lines, and the current
      section is the newest section id once there is one. */
  lemma {:induction false} FoldCounters(ks: seq<LineKind>)
    ensures Fold(ks).sectionCount == SectionCount(ks)
    ensures Fold(ks).ruleCount == RuleCount(ks)
    ensures Fold(ks).current == if SectionCount(ks) == 0 then None else Some(Sec(SectionCount(ks)))
  {
    if |ks| > 0 {
      FoldCounters(ks[..|ks| - 1]);
    }
  }

  lemma EdgesUpToExtend(ks: seq<LineKind>, more: seq<LineKind>, n: nat)
    requires n <= |ks|
    ensures EdgesUpTo(ks + more, n) == EdgesUpTo(ks, n)
  {
    if n > 0 {
      EdgesUpToExtend(ks, more, n - 1);
      assert (ks + more)[..n - 1] == ks[..n - 1];
    }
  }

  /** One step adds an edge exactly for a rule line under a section. */
  lemma ApplyEdges(st: ParseState, k: LineKind)
    ensures Apply(st, k).graph.edges ==
              st.graph.edges +
              (if k.IsRule() && st.current.Some?
               then [Edge(st.current.value, Rule(st.ruleCount + 1), Contains)]
               else [])
  {
  }

  /** The edges the loop builds are exactly the reference edges. */
  lemma {:induction false} FoldEdges(ks: seq<LineKind>)
    ensures Fold(ks).graph.edges == RefEdges(ks)
  {
    if |ks| > 0 {
      var p, last := ks[..|ks| - 1], ks[|ks| - 1];
      FoldEdges(p);
      FoldCounters(p);
      assert ks == p + [last];
      EdgesUpToExtend(p, [last], |p|);
      assert RefEdges(ks) == RefEdges(p) + EdgeAt(ks, |p|);
      ApplyEdges(Fold(p), last);
    }
  }

  lemma RefNodesSnoc(ks: seq<LineKind>, k: LineKind)
    ensures RefNodes(ks + [k]) == RefNodes(ks) + [NodeFor(ks + [k], |ks|)]
  {
    var k2 := ks + [k];
    forall i | 0 <= i < |ks|
      ensures NodeFor(k2, i) == NodeFor(ks, i)
    {
      assert k2[..i] == ks[..i];
    }
  }

  /** A non-blank line appends exactly one node, numbered from the state's
      counters. */
  lemma ApplyNodes(st: ParseState, k: LineKind)
    requires !k.Blank?
    ensures Apply(st, k).graph.nodes == st.graph.nodes + [NewNode(st.sectionCount, st.ruleCount, k)]
  {
  }

  lemma NodeForLast(q: seq<LineKind>, last: LineKind)
    ensures NodeFor(q + [last], |q|) == NewNode(SectionCount(q), RuleCount(q), last)
  {
    var ks := q + [last];
    assert ks[..|q|] == q;
    assert ks[|q|] == last;
  }

  /** The nodes the loop builds are the reference nodes of the non-blank
      lines: node `i` comes from the `i`-th non-blank line. */
  lemma {:induction false} FoldNodes(ks: seq<LineKind>)
    ensures Fold(ks).graph.nodes == RefNodes(NonBlankKinds(ks))
  {
    if |ks| > 0 {
      var p, last := ks[..|ks| - 1], ks[|ks| - 1];
      FoldNodes(p);
      var q := NonBlankKinds(p);
      assert Fold(ks) == Apply(Fold(p), last);
      if last.Blank? {
        assert NonBlankKinds(ks) == q + [];
        assert q + [] == q;
      } else {
        FoldCounters(p);
        FoldIgnoresBlank(p);
        assert NonBlankKinds(ks) == q + [last];
        ApplyNodes(Fold(p), last);
        RefNodesSnoc(q, last);
        NodeForLast(q, last);
      }
    }
  }

  // ---------------------------------------------------------------------
  // The same facts about text lines
  // ---------------------------------------------------------------------

  /** The lines that are not blank after trimming, in order. */
  function NonBlank(lines: seq<string>): (r: seq<string>)
    ensures |r| <= |lines|
    ensures forall i :: 0 <= i < |r| ==> !AllSpace(r[i]) && r[i] in lines
  {
    if |lines| == 0 then []
    else
      var last := lines[|lines| - 1];
      NonBlank(lines[..|lines| - 1]) + (if AllSpace(last) then [] else [last])
  }

  lemma KindsSnoc(lines: seq<string>, line: string)
    ensures Kinds(lines + [line]) == Kinds(lines) + [Classify(line)]
  {
  }

  lemma {:induction false} KindsOfNonBlank(lines: seq<string>)
    ensures Kinds(NonBlank(lines)) == NonBlankKinds(Kinds(lines))
  {
    if |lines| > 0 {
      var p, last := lines[..|lines| - 1], lines[|lines| - 1];
      KindsOfNonBlank(p);
      ClassifySpec(last);
      assert Kinds(lines)[..|p|] == Kinds(p);
      KindsSnoc(NonBlank(p), last);
    }
  }

  /** Node `i` of the graph comes from the `i`-th non-blank line, and there
      is one node per non-blank line. */
  lemma ParseNodes(lines: seq<string>)
    ensures |Parse(lines).nodes| == |NonBlank(lines)|
    ensures forall i :: 0 <= i < |NonBlank(lines)| ==>
              Parse(lines).nodes[i] == NodeFor(Kinds(NonBlank(lines)), i)
  {
    FoldNodes(Kinds(lines));
    KindsOfNonBlank(lines);
  }

  /** A line that is blank after trimming adds no node and no edge. */
  lemma BlankLineNoOp(lines: seq<string>, line: string)
    requires AllSpace(line)
    ensures Parse(lines + [line]) == Parse(lines)
  {
    KindsSnoc(lines, line);
    ClassifySpec(line);
    var ks := Kinds(lines + [line]);
    assert ks[..|lines|] == Kinds(lines);
  }

  /** Empty input, or input of blank lines only, yields an empty graph. */
  lemma {:induction false} BlankInputEmptyGraph(lines: seq<string>)
    requires forall i :: 0 <= i < |lines| ==> AllSpace(lines[i])
    ensures Parse(lines) == EmptyGraph
  {
    if |lines| > 0 {
      var p := lines[..|lines| - 1];
      BlankInputEmptyGraph(p);
      assert lines == p + [lines[|lines| - 1]];
      BlankLineNoOp(p, lines[|lines| - 1]);
    }
  }

  lemma KindsConcat(a: seq<string>, b: seq<string>)
    ensures Kinds(a + b) == Kinds(a) + Kinds(b)
  {
    var l, r := Kinds(a + b), Kinds(a) + Kinds(b);
    forall i | 0 <= i < |l| ensures l[i] == r[i] {
      if i < |a| {
        assert (a + b)[i] == a[i];
      } else {
        assert (a + b)[i] == b[i - |a|];
      }
    }
  }

  // ---------------------------------------------------------------------
  // Nodes and edges are only ever appended
  // ---------------------------------------------------------------------

  lemma {:induction false} FoldAppendOnly(ks: seq<LineKind>, more: seq<LineKind>)
    ensures Fold(ks).graph.nodes <= Fold(ks + more).graph.nodes
    ensures Fold(ks).graph.edges <= Fold(ks + more).graph.edges
    decreases |more|
  {
    if |more| == 0 {
      assert ks + more == ks;
    } else {
      var shorter := more[..|more| - 1];
      FoldAppendOnly(ks, shorter);
      assert (ks + more)[..|ks + more| - 1] == ks + shorter;
    }
  }

  /** Reading further lines never changes or removes a node or edge that
      is already there. */
  lemma ParseAppendOnly(lines: seq<string>, more: seq<string>)
    ensures Parse(lines).nodes <= Parse(lines + more).nodes
    ensures Parse(lines).edges <= Parse(lines + more).edges
  {
    KindsConcat(lines, more);
    FoldAppendOnly(Kinds(lines), Kinds(more));
  }

  // ---------------------------------------------------------------------
  // Identifiers
  // ---------------------------------------------------------------------

  /** `[1, 2, ..., k]`. */
  function Iota(k: nat): (r: seq<nat>)
    ensures |r| == k
  {
    if k == 0 then [] else Iota(k - 1) + [k]
  }

  /** The numbers of the section ids among `nodes`, in node order. */
  function SectionNumbers(nodes: seq<Node>): seq<nat> {
    if |nodes| == 0 then []
    else
      var id := nodes[|nodes| - 1].id;
      SectionNumbers(nodes[..|nodes| - 1]) + (if id.Sec? then [id.n] else [])
  }

  /** The numbers of the rule ids among `nodes`, in node order. */
  function RuleNumbers(nodes: seq<Node>): seq<nat> {
    if |nodes| == 0 then []
    else
      var id := nodes[|nodes| - 1].id;
      RuleNumbers(nodes[..|nodes| - 1]) + (if id.Rule? then [id.n] else [])
  }

  /** Appending a node appends its number to the list of its own kind. */
  lemma NumbersSnoc(nodes: seq<Node>, n: Node)
    ensures SectionNumbers(nodes + [n]) == SectionNumbers(nodes) + (if n.id.Sec? then [n.id.n] else [])
    ensures RuleNumbers(nodes + [n]) == RuleNumbers(nodes) + (if n.id.Rule? then [n.id.n] else [])
  {
    assert (nodes + [n])[..|nodes|] == nodes;
  }

  /** One step keeps the ids numbered `1..count` per kind. */
  lemma ApplyKeepsIds(st: ParseState, k: LineKind)
    requires SectionNumbers(st.graph.nodes) == Iota(st.sectionCount)
    requires RuleNumbers(st.graph.nodes) == Iota(st.ruleCount)
    ensures SectionNumbers(Apply(st, k).graph.nodes) == Iota(Apply(st, k).sectionCount)
    ensures RuleNumbers(Apply(st, k).graph.nodes) == Iota(Apply(st, k).ruleCount)
  {
    if !k.Blank? {
      ApplyNodes(st, k);
      NumbersSnoc(st.graph.nodes, NewNode(st.sectionCount, st.ruleCount, k));
    }
  }

  /** Section ids run `section-1 ... section-k` in order of appearance and
      rule ids `rule-1 ... rule-m`, each counter on its own. */
  lemma {:induction false} FoldIds(ks: seq<LineKind>)
    ensures SectionNumbers(Fold(ks).graph.nodes) == Iota(SectionCount(ks))
    ensures RuleNumbers(Fold(ks).graph.nodes) == Iota(RuleCount(ks))
  {
    FoldCounters(ks);
    if |ks| > 0 {
      var p := ks[..|ks| - 1];
      FoldIds(p);
      FoldCounters(p);
      ApplyKeepsIds(Fold(p), ks[|ks| - 1]);
    }
  }

  lemma ParseIds(lines: seq<string>)
    ensures SectionNumbers(Parse(lines).nodes) == Iota(SectionCount(Kinds(lines)))
    ensures RuleNumbers(Parse(lines).nodes) == Iota(RuleCount(Kinds(lines)))
  {
    FoldIds(Kinds(lines));
  }

  // ---------------------------------------------------------------------
  // Shape of the graph
  // ---------------------------------------------------------------------

  /** `id` names one of `nodes`. */
  ghost predicate HasNode(nodes: seq<Node>, id: NodeId) {
    exists i :: 0 <= i < |nodes| && nodes[i].id == id
  }

  /** A containment edge from an existing section to an existing rule. */
  ghost predicate EdgeOk(nodes: seq<Node>, e: Edge) {
    && e.text == Contains
    && e.from.Sec? && e.to.Rule?
    && HasNode(nodes, e.from) && HasNode(nodes, e.to)
  }

  /** Ids are unique and agree with the node's kind; every edge is a
      containment edge from a section to a rule, both present; no rule has
      two incoming edges (and, edges ending only at rules, no section has
      any). */
  ghost predicate WellFormed(g: Graph) {
    && (forall i, j :: 0 <= i < j < |g.nodes| ==> g.nodes[i].id != g.nodes[j].id)
    && (forall i :: 0 <= i < |g.nodes| ==> (g.nodes[i].id.Sec? <==> g.nodes[i].kind.SectionNode?))
    && (forall k :: 0 <= k < |g.edges| ==> EdgeOk(g.nodes, g.edges[k]))
    && (forall k1, k2 :: 0 <= k1 < k2 < |g.edges| ==> g.edges[k1].to != g.edges[k2].to)
  }

  /** Node ids are unique, agree with the node's kind, and are numbered
      from 1 up to the counter of their kind. */
  ghost predicate NodesOk(nodes: seq<Node>, sections: nat, rules: nat) {
    && (forall i, j :: 0 <= i < j < |nodes| ==> nodes[i].id != nodes[j].id)
    && (forall i :: 0 <= i < |nodes| ==> (nodes[i].id.Sec? <==> nodes[i].kind.SectionNode?))
    && (forall i :: 0 <= i < |nodes| ==> 1 <= nodes[i].id.n <= (if nodes[i].id.Sec? then sections else rules))
  }

  /** Every edge is a containment edge between present nodes, and edge
      targets are rule numbers up to `rules`, strictly increasing. */
  ghost predicate EdgesOk(nodes: seq<Node>, edges: seq<Edge>, rules: nat) {
    && (forall k :: 0 <= k < |edges| ==> EdgeOk(nodes, edges[k]))
    && (forall k :: 0 <= k < |edges| ==> edges[k].to.n <= rules)
    && (forall k1, k2 :: 0 <= k1 < k2 < |edges| ==> edges[k1].to.n < edges[k2].to.n)
  }

  /** What the loop keeps true of its state between lines. */
  ghost predicate StateOk(st: ParseState) {
    && NodesOk(st.graph.nodes, st.sectionCount, st.ruleCount)
    && EdgesOk(st.graph.nodes, st.graph.edges, st.ruleCount)
    && (st.current.Some? ==> st.current.value.Sec? && HasNode(st.graph.nodes, st.current.value))
  }

  lemma StateOkWellFormed(st: ParseState)
    requires StateOk(st)
    ensures WellFormed(st.graph)
  {
  }

  lemma HasNodeAppend(nodes: seq<Node>, n: Node, id: NodeId)
    requires HasNode(nodes, id)
    ensures HasNode(nodes + [n], id)
  {
    var i :| 0 <= i < |nodes| && nodes[i].id == id;
    assert (nodes + [n])[i] == nodes[i];
  }

  lemma HasLastNode(nodes: seq<Node>, n: Node)
    ensures HasNode(nodes + [n], n.id)
  {
    assert (nodes + [n])[|nodes|] == n;
  }

  lemma NewSectionNodesOk(nodes: seq<Node>, sections: nat, rules: nat, n: Node)
    requires NodesOk(nodes, sections, rules)
    requires n.id == Sec(sections + 1) && n.kind.SectionNode?
    ensures NodesOk(nodes + [n], sections + 1, rules)
  {
  }

  lemma NewRuleNodesOk(nodes: seq<Node>, sections: nat, rules: nat, n: Node)
    requires NodesOk(nodes, sections, rules)
    requires n.id == Rule(rules + 1) && n.kind.RuleNode?
    ensures NodesOk(nodes + [n], sections, rules + 1)
  {
  }

  /** Edges stay valid when a node is added and the rule bound grows. */
  lemma EdgesSurviveNewNode(nodes: seq<Node>, edges: seq<Edge>, rules: nat, n: Node, rules': nat)
    requires EdgesOk(nodes, edges, rules) && rules <= rules'
    ensures EdgesOk(nodes + [n], edges, rules')
  {
    forall k | 0 <= k < |edges| ensures EdgeOk(nodes + [n], edges[k]) {
      HasNodeAppend(nodes, n, edges[k].from);
      HasNodeAppend(nodes, n, edges[k].to);
    }
  }

  /** An edge into the next rule number keeps the targets increasing. */
  lemma NewEdgeOk(nodes: seq<Node>, edges: seq<Edge>, rules: nat, e: Edge)
    requires EdgesOk(nodes, edges, rules) && EdgeOk(nodes, e) && e.to.n == rules + 1
    ensures EdgesOk(nodes, edges + [e], rules + 1)
  {
  }

  /** A heading appends a fresh section node, numbered one past the
      sections so far, makes it the current section, adds no edge, and
      leaves the state well formed. */
  lemma HeadingKeepsStateOk(st: ParseState, k: LineKind)
    requires StateOk(st) && k.Heading?
    ensures Apply(st, k).graph.nodes == st.graph.nodes + [Node(Sec(st.sectionCount + 1), k.title, SectionNode(k.level))]
    ensures Apply(st, k).current == Some(Sec(st.sectionCount + 1))
    ensures Apply(st, k).graph.edges == st.graph.edges
    ensures StateOk(Apply(st, k))
  {
    var nodes := st.graph.nodes;
    var n := Node(Sec(st.sectionCount + 1), k.title, SectionNode(k.level));
    assert Apply(st, k).graph.nodes == nodes + [n];
    NewSectionNodesOk(nodes, st.sectionCount, st.ruleCount, n);
    EdgesSurviveNewNode(nodes, st.graph.edges, st.ruleCount, n, st.ruleCount);
    HasLastNode(nodes, n);
  }

  /** A rule line appends a fresh rule node, numbered one past the rules
      so far, keeps the current section, adds one edge into the new rule
      from the current section when there is one and none otherwise, and
      leaves the state well formed (so that edge starts at a section node
      already present). */
  lemma RuleKeepsStateOk(st: ParseState, k: LineKind)
    requires StateOk(st) && k.IsRule()
    ensures Apply(st, k).graph.nodes == st.graph.nodes + [Node(Rule(st.ruleCount + 1), k.text, RuleNode)]
    ensures Apply(st, k).current == st.current
    ensures Apply(st, k).graph.edges ==
              st.graph.edges +
              (if st.current.Some? then [Edge(st.current.value, Rule(st.ruleCount + 1), Contains)] else [])
    ensures StateOk(Apply(st, k))
  {
    var nodes, edges := st.graph.nodes, st.graph.edges;
    var next := Apply(st, k);
    var n := Node(Rule(st.ruleCount + 1), k.text, RuleNode);
    var nodes' := nodes + [n];
    assert next.graph.nodes == nodes';
    NewRuleNodesOk(nodes, st.sectionCount, st.ruleCount, n);
    if st.current.Some? {
      var e := Edge(st.current.value, n.id, Contains);
      assert next.graph.edges == edges + [e];
      EdgesSurviveNewNode(nodes, edges, st.ruleCount, n, st.ruleCount);
      HasNodeAppend(nodes, n, st.current.value);
      HasLastNode(nodes, n);
      assert EdgeOk(nodes', e);
      NewEdgeOk(nodes', edges, st.ruleCount, e);
    } else {
      assert next.graph.edges == edges;
      EdgesSurviveNewNode(nodes, edges, st.ruleCount, n, st.ruleCount + 1);
    }
  }

  lemma ApplyKeepsStateOk(st: ParseState, k: LineKind)
    requires StateOk(st)
    ensures StateOk(Apply(st, k))
  {
    if k.Heading? {
      HeadingKeepsStateOk(st, k);
    } else if k.IsRule() {
      RuleKeepsStateOk(st, k);
    }
  }

  lemma {:induction false} FoldStateOk(ks: seq<LineKind>)
    ensures StateOk(Fold(ks))
  {
    if |ks| > 0 {
      FoldStateOk(ks[..|ks| - 1]);
      ApplyKeepsStateOk(Fold(ks[..|ks| - 1]), ks[|ks| - 1]);
    }
  }

  /** Whatever the input, the graph is well formed. */
  lemma ParseWellFormed(lines: seq<string>)
    ensures WellFormed(Parse(lines))
  {
    FoldStateOk(Kinds(lines));
    StateOkWellFormed(Run(lines));
  }

  /** No section node has an incoming edge. */
  lemma NoEdgeIntoSection(lines: seq<string>)
    ensures forall k, i ::
              && 0 <= k < |Parse(lines).edges|
              && 0 <= i < |Parse(lines).nodes|
              && Parse(lines).nodes[i].kind.SectionNode?
              ==> Parse(lines).edges[k].to != Parse(lines).nodes[i].id
  {
    ParseWellFormed(lines);
  }

  // ---------------------------------------------------------------------
  // Where edges come from
  // ---------------------------------------------------------------------

  lemma {:induction false} SectionCountPositive(ks: seq<LineKind>)
    ensures SectionCount(ks) > 0 <==> exists j :: 0 <= j < |ks| && ks[j].Heading?
  {
    if |ks| > 0 {
      var p := ks[..|ks| - 1];
      SectionCountPositive(p);
      if exists j :: 0 <= j < |p| && p[j].Heading? {
        var j :| 0 <= j < |p| && p[j].Heading?;
        assert ks[j] == p[j];
      }
      if exists j :: 0 <= j < |ks| && ks[j].Heading? {
        var j :| 0 <= j < |ks| && ks[j].Heading?;
        if j < |p| {
          assert p[j] == ks[j];
        }
      }
    }
  }

  /** With no heading before it, no line contributes an edge. */
  lemma NoEdgeBeforeFirstSection(ks: seq<LineKind>, i: nat)
    requires i < |ks|
    requires forall m :: 0 <= m < i ==> !ks[m].Heading?
    ensures EdgeAt(ks, i) == []
  {
    SectionCountPositive(ks[..i]);
  }

  lemma {:induction false} SectionCountFlat(ks: seq<LineKind>, j: nat, i: nat)
    requires j < i <= |ks|
    requires ks[j].Heading?
    requires forall m :: j < m < i ==> !ks[m].Heading?
    ensures SectionCount(ks[..i]) == SectionCount(ks[..j]) + 1
    decreases i - j
  {
    if i == j + 1 {
      assert ks[..i][..j] == ks[..j];
    } else {
      SectionCountFlat(ks, j, i - 1);
      assert ks[..i][..i - 1] == ks[..i - 1];
    }
  }

  /** A rule line gets its edge from the newest heading before it: the edge
      runs from that heading's node to the rule's own node. */
  lemma EdgeFromNewestSection(ks: seq<LineKind>, j: nat, i: nat)
    requires j < i < |ks|
    requires ks[j].Heading? && ks[i].IsRule()
    requires forall m :: j < m < i ==> !ks[m].Heading?
    ensures EdgeAt(ks, i) == [Edge(NodeFor(ks, j).id, NodeFor(ks, i).id, Contains)]
  {
    SectionCountFlat(ks, j, i);
  }

  /** With no heading at all, every rule is an orphan: there are no edges. */
  lemma {:induction false} OrphanRules(ks: seq<LineKind>)
    requires SectionCount(ks) == 0
    ensures Fold(ks).graph.edges == []
  {
    if |ks| > 0 {
      var p := ks[..|ks| - 1];
      OrphanRules(p);
      FoldCounters(p);
    }
  }

  lemma {:induction false} EdgesAfterSection(ks: seq<LineKind>, more: seq<LineKind>)
    requires SectionCount(ks) > 0
    ensures |Fold(ks + more).graph.edges| == |Fold(ks).graph.edges| + RuleCount(more)
    ensures Fold(ks + more).current.Some?
    decreases |more|
  {
    FoldCounters(ks);
    if |more| == 0 {
      assert ks + more == ks;
    } else {
      var shorter := more[..|more| - 1];
      EdgesAfterSection(ks, shorter);
      assert (ks + more)[..|ks + more| - 1] == ks + shorter;
    }
  }

  /** Every rule line after the first heading gets exactly one edge, and no
      other line does. */
  lemma EdgeCount(pre: seq<LineKind>, h: LineKind, post: seq<LineKind>)
    requires forall m :: 0 <= m < |pre| ==> !pre[m].Heading?
    requires h.Heading?
    ensures |Fold(pre + [h] + post).graph.edges| == RuleCount(post)
  {
    SectionCountPositive(pre);
    OrphanRules(pre);
    assert (pre + [h])[..|pre|] == pre;
    EdgesAfterSection(pre + [h], post);
  }

  /** The edges of the graph are the reference edges of its lines. */
  lemma ParseEdges(lines: seq<string>)
    ensures Parse(lines).edges == RefEdges(Kinds(lines))
  {
    FoldEdges(Kinds(lines));
  }

  /** The same count for text lines: the edges are as many as the rule
      lines that follow the first heading line. */
  lemma ParseEdgeCount(pre: seq<string>, heading: string, post: seq<string>)
    requires forall m :: 0 <= m < |pre| ==> !Classify(pre[m]).Heading?
    requires Classify(heading).Heading?
    ensures |Parse(pre + [heading] + post).edges| == RuleCount(Kinds(post))
  {
    var kp, kh := Kinds(pre), Kinds([heading]);
    assert forall m :: 0 <= m < |kp| ==> !kp[m].Heading?;
    assert kh == [Classify(heading)];
    KindsConcat(pre, [heading]);
    KindsConcat(pre + [heading], post);
    EdgeCount(kp, kh[0], Kinds(post));
  }

  // ---------------------------------------------------------------------
  // Labels
  // ---------------------------------------------------------------------

  /** No label has whitespace at either end. */
  lemma ParseLabelsTrimmed(lines: seq<string>)
    ensures forall i :: 0 <= i < |Parse(lines).nodes| ==> Trimmed(Parse(lines).nodes[i].text)
  {
    ParseNodes(lines);
    var nb := NonBlank(lines);
    forall i | 0 <= i < |nb| ensures Trimmed(NodeFor(Kinds(nb), i).text) {
      ClassifySpec(nb[i]);
    }
  }

  /** The label of the `i`-th non-blank line is cut out of that line. */
  lemma NonBlankLabelChars(lines: seq<string>, i: nat)
    requires i < |NonBlank(lines)|
    ensures forall j :: 0 <= j < |NodeFor(Kinds(NonBlank(lines)), i).text| ==>
              NodeFor(Kinds(NonBlank(lines)), i).text[j] in NonBlank(lines)[i]
  {
    var nb := NonBlank(lines);
    LabelChars(nb[i]);
    assert NodeFor(Kinds(nb), i).text == Classify(nb[i]).Label();
  }

  /** Every edge is labelled `contains`. */
  lemma ParseEdgeLabels(lines: seq<string>)
    ensures forall k :: 0 <= k < |Parse(lines).edges| ==> Parse(lines).edges[k].text == Contains
  {
    ParseWellFormed(lines);
  }

  /** Lines free of newlines (as lines split from a text always are) give
      labels free of newlines. */
  lemma ParseLabelsNoNewline(lines: seq<string>)
    requires forall i :: 0 <= i < |lines| ==> NoNewline(lines[i])
    ensures forall i :: 0 <= i < |Parse(lines).nodes| ==> NoNewline(Parse(lines).nodes[i].text)
    ensures forall k :: 0 <= k < |Parse(lines).edges| ==> NoNewline(Parse(lines).edges[k].text)
  {
    ParseNodes(lines);
    ParseEdgeLabels(lines);
    var nb := NonBlank(lines);
    forall i | 0 <= i < |nb| ensures NoNewline(NodeFor(Kinds(nb), i).text) {
      NonBlankLabelChars(lines, i);
      assert nb[i] in lines;
    }
  }
}
