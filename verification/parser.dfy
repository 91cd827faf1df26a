/** The policy parser: one forward pass over the lines of a policy
    document, threading two independent id counters and the most recent
    section. Reading the file and splitting it into lines is left to the
    caller; the parser starts from the lines. */
module Parser {
  import opened Graphs
  import opened Lines

  datatype Option<T> = None | Some(value: T)

  /** Everything the loop carries from one line to the next. */
  datatype ParseState = ParseState(
    sectionCount: nat,
    ruleCount: nat,
    current: Option<NodeId>,
    graph: Graph)

  const Start := ParseState(0, 0, None, EmptyGraph)

  /** A rule line: a fresh rule node, plus a containment edge from the
      current section when one has been seen. */
  function AddRule(st: ParseState, text: string): ParseState {
    var id := Rule(st.ruleCount + 1);
    var edges :=
      match st.current
      case Some(sec) => st.graph.edges + [Edge(sec, id, Contains)]
      case None => st.graph.edges;
    ParseState(st.sectionCount, st.ruleCount + 1, st.current,
               Graph(st.graph.nodes + [Node(id, text, RuleNode)], edges))
  }

  /** The effect of a classified line on the state. */
  function Apply(st: ParseState, kind: LineKind): ParseState {
    match kind
    case Blank => st
    case Heading(level, title) =>
      var id := Sec(st.sectionCount + 1);
      ParseState(st.sectionCount + 1, st.ruleCount, Some(id),
                 Graph(st.graph.nodes + [Node(id, title, SectionNode(level))], st.graph.edges))
    case Bullet(text) => AddRule(st, text)
    case Plain(text) => AddRule(st, text)
  }

  /** Each line's classification, in line order. */
  function Kinds(lines: seq<string>): (ks: seq<LineKind>)
    ensures |ks| == |lines|
    ensures forall i :: 0 <= i < |lines| ==> ks[i] == Classify(lines[i])
  {
    seq(|lines|, i requires 0 <= i < |lines| => Classify(lines[i]))
  }

  /** The state after the loop has consumed lines of kinds `ks`, as a left
      fold. Every node is counted by exactly one of the two counters, every
      edge ends at a distinct rule, and there is a current section exactly
      when a heading has been seen. */
  function Fold(ks: seq<LineKind>): (st: ParseState)
    ensures |st.graph.nodes| == st.sectionCount + st.ruleCount
    ensures |st.graph.edges| <= st.ruleCount
    ensures st.current.None? <==> st.sectionCount == 0
  {
    if |ks| == 0 then Start
    else Apply(Fold(ks[..|ks| - 1]), ks[|ks| - 1])
  }

  function Run(lines: seq<string>): ParseState {
    Fold(Kinds(lines))
  }

  function Parse(lines: seq<string>): Graph {
    Run(lines).graph
  }

  lemma FoldPrefix(ks: seq<LineKind>, i: nat)
    requires i < |ks|
    ensures Fold(ks[..i + 1]) == Apply(Fold(ks[..i]), ks[i])
  {
    assert ks[..i + 1][..i] == ks[..i];
  }

  /** The parser written as the loop it is, with mutable counters and
      lists; it computes the fold `Parse`. */
  method ParsePolicy(lines: seq<string>) returns (g: Graph)
    ensures g == Parse(lines)
  {
    ghost var ks := Kinds(lines);
    var st := Start;
    for i := 0 to |lines|
      invariant st == Fold(ks[..i])
    {
      FoldPrefix(ks, i);
      var kind := Classify(lines[i]);
      ghost var prev := st;
      st := ApplyKind(st, kind);
      StepsToApply(prev, kind, st);
    }
    assert ks[..|lines|] == ks;
    g := st.graph;
  }

  /** One classified line's effect on the state, field by field. A blank
      line changes nothing. A heading bumps the section counter, appends a
      section node with that number and its level, and becomes the current
      section. A rule line bumps the rule counter, appends a rule node with
      that number, and gains a `contains` edge from the current section
      exactly when there is one. No other part of the state changes. */
  predicate StepsTo(st: ParseState, kind: LineKind, next: ParseState) {
    && (kind.Blank? ==> next == st)
    && next.sectionCount == st.sectionCount + (if kind.Heading? then 1 else 0)
    && next.ruleCount == st.ruleCount + (if kind.IsRule() then 1 else 0)
    && next.current == (if kind.Heading? then Some(Sec(next.sectionCount)) else st.current)
    && (kind.Heading? ==>
          next.graph.nodes == st.graph.nodes + [Node(Sec(next.sectionCount), kind.title, SectionNode(kind.level))])
    && (kind.IsRule() ==>
          next.graph.nodes == st.graph.nodes + [Node(Rule(next.ruleCount), kind.text, RuleNode)])
    && next.graph.edges ==
         st.graph.edges +
         (if kind.IsRule() && st.current.Some?
          then [Edge(st.current.value, Rule(next.ruleCount), Contains)]
          else [])
  }

  /** The field-by-field description pins the step down: the state `Apply`
      produces is the one and only state it allows. */
  lemma StepsToApply(st: ParseState, kind: LineKind, next: ParseState)
    ensures StepsTo(st, kind, next) <==> next == Apply(st, kind)
  {
  }

  /** The loop body once the line is classified, with the loop's mutable
      counters and lists. */
  method ApplyKind(st: ParseState, kind: LineKind) returns (next: ParseState)
    ensures StepsTo(st, kind, next)
  {
    var nodes, edges := st.graph.nodes, st.graph.edges;
    var sectionCounter, ruleCounter, currentSection := st.sectionCount, st.ruleCount, st.current;
    if kind.Heading? {
      sectionCounter := sectionCounter + 1;
      var sectionId := Sec(sectionCounter);
      nodes := nodes + [Node(sectionId, kind.title, SectionNode(kind.level))];
      currentSection := Some(sectionId);
    } else if kind.IsRule() {
      ruleCounter := ruleCounter + 1;
      var ruleId := Rule(ruleCounter);
      nodes := nodes + [Node(ruleId, kind.text, RuleNode)];
      if currentSection.Some? {
        edges := edges + [Edge(currentSection.value, ruleId, Contains)];
      }
    }
    next := ParseState(sectionCounter, ruleCounter, currentSection, Graph(nodes, edges));
  }
}
