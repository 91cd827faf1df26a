/** The compiler's output record: an ordered list of section and rule
    nodes and an ordered list of containment edges between them. */
module Graphs {
  import Decimal

  /** Node identifiers. The compiler spells them `section-N` and `rule-N`,
      with one counter per kind; see `IdString`. */
  datatype NodeId = Sec(n: nat) | Rule(n: nat)

  /** A section node carries the heading depth; a rule node carries nothing else. */
  datatype NodeKind = SectionNode(level: nat) | RuleNode

  datatype Node = Node(id: NodeId, text: string, kind: NodeKind)

  datatype Edge = Edge(from: NodeId, to: NodeId, text: string)

  datatype Graph = Graph(nodes: seq<Node>, edges: seq<Edge>)

  /** The only edge label the compiler produces. Node and edge labels are
      called `text` here because `label` is a Dafny keyword. */
  const Contains: string := "contains"

  const EmptyGraph := Graph([], [])

  /** The textual id as it appears in the JSON and DOT output. */
  function IdString(id: NodeId): (s: string)
    ensures |s| > 0
    ensures '"' !in s && '\n' !in s
  {
    var digits := Decimal.NatToString(id.n);
    assert '"' !in digits && '\n' !in digits by {
      forall i | 0 <= i < |digits| ensures digits[i] != '"' && digits[i] != '\n' {
        assert Decimal.IsDigit(digits[i]);
      }
    }
    match id
    case Sec(n) => "section-" + digits
    case Rule(n) => "rule-" + digits
  }

  /** Distinct identifiers never render to the same text. */
  lemma IdStringInjective(a: NodeId, b: NodeId)
    requires IdString(a) == IdString(b)
    ensures a == b
  {
    var da, db := Decimal.NatToString(a.n), Decimal.NatToString(b.n);
    assert IdString(a)[0] == IdString(b)[0];
    assert a.Sec? <==> b.Sec?;
    var k := if a.Sec? then 8 else 5;
    assert IdString(a)[k..] == da;
    assert IdString(b)[k..] == db;
    Decimal.NatToStringInjective(a.n, b.n);
  }
}
