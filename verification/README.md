# governance-graph-compiler, modelled in Dafny

The compiler turns a markdown policy document into a graph and renders
that graph as a DOT diagram. This project models its core,
`src/ggc/compiler.py`, in three parts:

- **The `Graph` record.** An ordered list of nodes and an ordered list of
  edges. Each node is a section (a heading, with its level) or a rule (a
  bullet or a line of plain text). Each edge is a `"contains"` edge from a
  section to a rule. Ids are `Sec(n)` and `Rule(n)`; `Graphs.IdString`
  spells them `section-n` and `rule-n` (module `Graphs`, with decimal
  rendering in `Decimal`).
- **The policy parser** `parse_policy`. It makes one pass over the
  document's lines, threading a section counter, a rule counter and the
  current section. Each line is trimmed with Python's `str.strip()`
  (module `Text`, which uses the whitespace set of `str.isspace`) and
  falls into one of four cases (module `Lines`):
  - blank;
  - heading (`#`);
  - bullet (`-` or `*`);
  - plain text.

  `Parser.Fold` is the loop as a left fold over the classified lines.
  `Parser.ParsePolicy` is the same loop written with mutable counters.
  `ParserFacts` states what the graph is, against reference definitions
  that look at the lines directly, with no state threaded through.
- **The DOT renderer** `to_dot` (module `Dot`). It writes a header, one
  line per node, one line per edge and a closing brace, joined by
  newlines. `Text.Split`, which splits on `"\n"` like Python's
  `str.split`, is the partner of the join.

Module `Compiler` puts the two halves together. It also works out small
documents completely: what a heading, a bullet and a plain line each
become, and a two-section document parsed and rendered end to end. These
examples hold for any titles and rule texts that are "ordinary"
(`Compiler.Ordinary`): trimmed, non-empty, and not starting with `#`,
`-`, `*` or a space, so that each reads back unchanged as a label. The
DOT example (`Compiler.ScenarioC`) also needs them free of newlines.

A bullet's label is not the line with every leading `-`, `*` and
whitespace character removed. The code (line 45) removes only `-`, `*`
and the space character, and then trims. So a tab ends the marker run:
`-<tab>-x` is labelled `-x` (`Compiler.TabEndsMarkers`).

## Model

| member | source | states |
|---|---|---|
| Text.LeadingCount | src/ggc/compiler.py:30 | the length of the longest prefix drawn from a character class: everything before it is in the class, and the next character is not |
| Text.LStrip | src/ggc/compiler.py:45 | `lstrip` removes a prefix of characters from the class, and what remains is a suffix that does not start with one |
| Text.Strip | src/ggc/compiler.py:25 | the result of `strip()` has no whitespace at either end |
| Text.StripSpec | src/ggc/compiler.py:25 | `strip()` returns a contiguous piece of the line with only whitespace before and after it |
| Text.StripEmpty | src/ggc/compiler.py:25-27 | a line trims to the empty string exactly when it is all whitespace, so these are the lines that get skipped |
| Text.StripUnique | src/ggc/compiler.py:25 | trimming whitespace-padded trimmed text gives back that text |
| Text.StripIdempotent | src/ggc/compiler.py:25 | trimming twice is trimming once |
| Text.StripChars | src/ggc/compiler.py:25 | every character of the trimmed line occurs in the line |
| Text.Join | src/ggc/compiler.py:80 | Python's `"\n".join`. Its contract is stated by `Text.SplitJoin` and `Text.JoinEnds` |
| Text.SplitJoin | src/ggc/compiler.py:80 | splitting the `"\n"`-join of at least one newline-free line on newlines gives the lines back |
| Text.JoinEnds | src/ggc/compiler.py:80 | the joined text begins with the first line and ends with the last |
| Decimal.NatToString | src/ggc/compiler.py:33 | a counter renders as at least one digit, with no leading zero unless it is 0 |
| Decimal.DecimalRoundTrip | src/ggc/compiler.py:33 | reading the rendered digits back gives the counter |
| Decimal.NatToStringInjective | src/ggc/compiler.py:46 | distinct counters render differently |
| Graphs.IdString | src/ggc/compiler.py:33 | an id string is non-empty and has no double quote and no newline |
| Graphs.IdStringInjective | src/ggc/compiler.py:58 | distinct ids render to distinct strings, so `section-n` never collides with `rule-m` |
| Lines.Classify | src/ggc/compiler.py:25-61 | the case split of one loop iteration. Its contract is stated by `Lines.ClassifySpec`, `Lines.HeadingParts`, `Lines.BulletLabel` and `Lines.LabelChars` |
| Lines.ClassifySpec | src/ggc/compiler.py:25-61 | a line is blank iff it is all whitespace. Otherwise its first significant character picks the case, in the order `#`, then `-` or `*`, then anything else. A heading's level is the length of its `#` run. Titles and rule labels are trimmed, and a plain rule's label is the whole trimmed line |
| Lines.HeadingParts | src/ggc/compiler.py:29-31 | a trimmed line made of `level` hashes and then text that does not start with `#` is a heading of that level, titled with that text trimmed |
| Lines.BulletLabel | src/ggc/compiler.py:43-45 | a bullet's label is what follows its maximal run of `-`, `*` and space characters, trimmed |
| Lines.LabelChars | src/ggc/compiler.py:31-61 | every character of a title or label occurs in its line |
| Parser.Fold | src/ggc/compiler.py:20-66 | after any prefix of lines, the two counters account for every node, there are no more edges than rules, and there is a current section exactly when a heading has been seen |
| Parser.ParsePolicy | src/ggc/compiler.py:15-67 | the loop with mutable counters and lists computes the fold over the classified lines |
| Parser.ApplyKind | src/ggc/compiler.py:29-65 | the loop body's branches, with mutable counters: a blank line changes nothing; a heading bumps the section counter, appends `section-n` with its title and level and becomes the current section; a rule line bumps the rule counter, appends `rule-m` with its label, and gains a `contains` edge from the current section exactly when there is one; nothing else changes |
| Parser.StepsToApply | src/ggc/compiler.py:29-65 | that field-by-field description of one line's effect allows exactly one next state, the one `Apply` computes |
| Parser.Apply | src/ggc/compiler.py:29-65 | one classified line applied to the state. Its contract is stated by `Parser.StepsToApply`, `ParserFacts.HeadingKeepsStateOk` and `ParserFacts.RuleKeepsStateOk` |
| Parser.AddRule | src/ggc/compiler.py:43-65 | the shared rule-line branch: a new rule node plus an edge from the current section when there is one. Its contract is stated by `ParserFacts.RuleKeepsStateOk` and `ParserFacts.EdgesAfterSection` |
| Parser.Parse | src/ggc/compiler.py:15-67 | the graph of a document's lines. Its contract is stated by `ParserFacts.ParseNodes`, `ParserFacts.ParseEdges`, `ParserFacts.ParseIds` and `ParserFacts.ParseWellFormed` |
| ParserFacts.FoldIgnoresBlank | src/ggc/compiler.py:25-27 | dropping blank lines changes neither the final state nor the heading and rule counts |
| ParserFacts.FoldCounters | src/ggc/compiler.py:20-40 | the counters are the numbers of heading and rule lines seen, and the current section is the newest heading's id |
| ParserFacts.FoldEdges | src/ggc/compiler.py:52-65 | the edges are the reference edges: one per rule line that has a heading before it, from the newest such heading, in line order |
| ParserFacts.FoldNodes | src/ggc/compiler.py:24-66 | the nodes are the reference nodes: one per non-blank line, in order, each numbered by how many lines of its kind come before it |
| ParserFacts.ParseNodes | src/ggc/compiler.py:24-66 | there are as many nodes as non-blank lines, and node i comes from the i-th non-blank line |
| ParserFacts.BlankLineNoOp | src/ggc/compiler.py:25-27 | appending a whitespace-only line leaves the graph unchanged |
| ParserFacts.BlankInputEmptyGraph | src/ggc/compiler.py:17-27 | an empty or all-blank document gives an empty graph |
| ParserFacts.FoldAppendOnly | src/ggc/compiler.py:34-65 | the nodes and edges after a prefix of lines are prefixes of the final ones |
| ParserFacts.ParseAppendOnly | src/ggc/compiler.py:34-65 | reading more lines never changes or removes an existing node or edge |
| ParserFacts.ApplyKeepsIds | src/ggc/compiler.py:32-58 | one step keeps section ids numbered 1..sections and rule ids numbered 1..rules, in node order |
| ParserFacts.FoldIds | src/ggc/compiler.py:20-58 | section ids are exactly 1..k in order of appearance and rule ids exactly 1..m, with independent counters that are never reset |
| ParserFacts.ParseIds | src/ggc/compiler.py:20-58 | for the parsed document, section ids are 1..(number of headings) and rule ids are 1..(number of rule lines) |
| ParserFacts.HeadingKeepsStateOk | src/ggc/compiler.py:29-41 | from a well-formed state, a heading appends the section node numbered one past the sections so far, with its title and level; it becomes the current section; the edges are unchanged; and the state stays well formed |
| ParserFacts.RuleKeepsStateOk | src/ggc/compiler.py:43-65 | from a well-formed state, a rule line appends the rule node numbered one past the rules so far, with its label; the current section stays; exactly one edge into the new rule is added when there is a current section and none otherwise; and the state stays well formed, so that edge starts at a section node already present |
| ParserFacts.ParseWellFormed | src/ggc/compiler.py:32-65 | ids are unique and match node kinds. Every edge is a `"contains"` edge from an existing section to an existing rule, and no rule has two incoming edges |
| ParserFacts.NoEdgeIntoSection | src/ggc/compiler.py:52-65 | no section node has an incoming edge |
| ParserFacts.SectionCountPositive | src/ggc/compiler.py:22-40 | the section counter is positive iff some heading line has been seen |
| ParserFacts.NoEdgeBeforeFirstSection | src/ggc/compiler.py:52-53 | a rule line with no heading before it contributes no edge |
| ParserFacts.EdgeFromNewestSection | src/ggc/compiler.py:40-53 | a rule line's edge starts at the node of the most recent heading before it and ends at the rule's own node |
| ParserFacts.OrphanRules | src/ggc/compiler.py:22-65 | a document with no heading has no edges |
| ParserFacts.EdgesAfterSection | src/ggc/compiler.py:52-65 | once a heading has been seen, every later rule line adds exactly one edge |
| ParserFacts.EdgeCount | src/ggc/compiler.py:52-65 | the edge count is the number of rule lines after the first heading |
| ParserFacts.ParseEdges | src/ggc/compiler.py:52-65 | the parsed edges are the reference edges of the document's lines |
| ParserFacts.ParseEdgeCount | src/ggc/compiler.py:40-65 | for text lines, the edges number as many as the rule lines after the first heading line |
| ParserFacts.ParseEdgeLabels | src/ggc/compiler.py:53-65 | every edge is labelled `contains` |
| ParserFacts.ParseLabelsTrimmed | src/ggc/compiler.py:31-61 | no title or label has whitespace at either end |
| ParserFacts.ParseLabelsNoNewline | src/ggc/compiler.py:31-65 | newline-free lines give newline-free labels |
| Dot.ToDot | src/ggc/compiler.py:70-80 | the DOT document of a graph. Its contract is stated by `Dot.DotLayout`, `Dot.DotSplitsIntoLines`, `Dot.DotEnds` and `Dot.RenderDot` |
| Dot.NodeLine | src/ggc/compiler.py:73-75 | one node's line. Its contract is stated by `Dot.NodeLineVerbatim` and `Dot.NodeLineQuotes` |
| Dot.EdgeLine | src/ggc/compiler.py:77-78 | one edge's line. Its contract is stated by `Dot.EdgeLineVerbatim` |
| Dot.DotLayout | src/ggc/compiler.py:71-79 | the header, then node i's line at position 1+i, then edge k's line at 1+nodes+k, then the closing brace: 2+nodes+edges lines |
| Dot.DotSplitsIntoLines | src/ggc/compiler.py:80 | when labels have no newline, splitting the DOT text on newlines gives exactly its 2+nodes+edges lines |
| Dot.DotEnds | src/ggc/compiler.py:71-80 | the text starts with `digraph G {` and its last character is `}`, with no trailing newline |
| Dot.NodeLineVerbatim | src/ggc/compiler.py:73-75 | a node's label appears unchanged in its line, right after `label="` |
| Dot.EdgeLineVerbatim | src/ggc/compiler.py:77-78 | an edge's line names its source and target ids verbatim, each in quotes with ` -> ` between them, and then carries the label verbatim right after `label="` |
| Dot.NodeLineQuotes | src/ggc/compiler.py:75 | a node line has four delimiting quotes plus every quote in the label, so nothing is escaped |
| Dot.RenderDot | src/ggc/compiler.py:70-80 | the renderer's two loops and its join produce the DOT document |
| Compiler.CompiledDotLines | src/ggc/compiler.py:15-80 | a parsed document's DOT text has 2 + non-blank lines + edges lines |
| Compiler.PlainLine | src/ggc/compiler.py:56-61 | a trimmed line that does not start with `#`, `-` or `*` is a rule labelled with the whole line |
| Compiler.HeadingLine | src/ggc/compiler.py:29-31 | `#…# title`, for any trimmed, non-empty title, is a heading whose level is the number of `#` before the space and whose title is `title`; the space ends the run, so `# #x` is a level-1 heading titled `#x` |
| Compiler.BulletLine | src/ggc/compiler.py:43-45 | `- text` is a rule labelled `text` when `text` is trimmed, non-empty, and does not start with `-`, `*` or a space (otherwise more markers are peeled off: `- -x` is labelled `x`) |
| Compiler.TabEndsMarkers | src/ggc/compiler.py:45 | a tab stops the marker run, so `-<tab>-x` is labelled `-x` |
| Compiler.KindsA | src/ggc/compiler.py:24-61 | for ordinary titles and texts, the lines `# s1`, `- r1`, `- r2`, `## s2`, `- r3` classify as heading, bullet, bullet, heading, bullet |
| Compiler.ScenarioA | src/ggc/compiler.py:15-67 | for ordinary titles and texts, that document parses to sections 1 and 2, rules 1–3, and edges section-1→rule-1, section-1→rule-2 and section-2→rule-3 |
| Compiler.ScenarioB | src/ggc/compiler.py:56-65 | an ordinary bare line with no heading before it becomes rule-1 with no edge |
| Compiler.ScenarioC | src/ggc/compiler.py:70-80 | for ordinary, newline-free titles and texts, that document's DOT text splits into exactly 10 lines: the header, the 5 node lines in node order, the 3 edge lines in edge order, and `}`; the first node line and the first edge line are spelled out with `section-1` and `rule-1` |

## Left out

- Reading the file and splitting it into lines (line 16). The parser takes
  the lines as its input. Python's `splitlines` never leaves a newline
  inside a line, so the lemmas that need newline-free lines assume it.
- `write_graph` (lines 83-90). It creates directories, writes files and
  serialises JSON with a library whose exact formatting is not visible
  here, so there is no JSON round-trip.
- `src/ggc/cli.py`. It handles argument parsing, printing and exit codes
  and has no logic of its own.
- Escaping. As in the code, labels go into the DOT text unescaped
  (`Dot.NodeLineQuotes`). A label with a `"` gives a broken DOT line.
- The `node.get("label", "")` and `edge.get("label", "")` defaults (lines
  73 and 77). Every node and edge the parser builds has a label, so the
  model's records always carry one.
- The truthiness test `if current_section_id:` (lines 52 and 64) is
  modelled as "a section has been seen" (`Option.Some`). A section id is
  never the empty string.
- Text.Strip: its contract states only that the result is trimmed. That
  it is the line with its leading and trailing whitespace removed, and
  empty exactly for all-space lines, is stated by the lemmas `Text.StripSpec` and `Text.StripEmpty`.
- The node dictionaries' `type` and `level` fields are the node kind
  (`SectionNode(level)` or `RuleNode`). Python dictionary key order is
  not modelled.
