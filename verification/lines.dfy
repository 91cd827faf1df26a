/** Classification of one policy line: the case analysis the parser's
    loop body performs before it touches any state. */
module Lines {
  import opened Text

  /** What a line becomes. `Bullet` and `Plain` both produce a rule node;
      they differ only in how the label is cut out of the line. */
  datatype LineKind =
    | Blank
    | Heading(level: nat, title: string)
    | Bullet(text: string)
    | Plain(text: string)
  {
    predicate IsRule() {
      Bullet? || Plain?
    }

    /** The label the node for this line carries (empty for a blank line). */
    function Label(): string {
      match this
      case Blank => ""
      case Heading(_, title) => title
      case Bullet(text) => text
      case Plain(text) => text
    }
  }

  /** `t` opens with a run of exactly `level` hash characters (at least one). */
  predicate HashRun(t: string, level: nat) {
    && 1 <= level <= |t|
    && (forall i :: 0 <= i < level ==> t[i] == '#')
    && (level == |t| || t[level] != '#')
  }

  /** The line's first significant character, if it has one. */
  function Lead(line: string): (c: char)
    requires !AllSpace(line)
    ensures !IsSpace(c)
  {
    Strip(line)[0]
  }

  /** The case split of one loop iteration. The line is trimmed, then the
      first matching case wins: blank, heading (`#`), bullet (`-` or `*`),
      and anything else is a plain rule. */
  function Classify(line: string): LineKind {
    var t := Strip(line);
    if |t| == 0 then Blank
    else if t[0] == '#' then
      var level := LeadingCount(t, HashMark);
      Heading(level, Strip(t[level..]))
    else if t[0] == '-' || t[0] == '*' then
      Bullet(Strip(LStrip(t, BulletMark)))
    else
      Plain(t)
  }

  /** Which case a line falls into is decided by its first significant
      character, in the order blank, `#`, `-`/`*`, anything else; a heading's
      level is the length of the run of `#` it opens with, and every label
      produced is trimmed. */
  lemma ClassifySpec(line: string)
    ensures Classify(line).Blank? <==> AllSpace(line)
    ensures Classify(line).Heading? <==> !AllSpace(line) && Lead(line) == '#'
    ensures Classify(line).Bullet? <==> !AllSpace(line) && (Lead(line) == '-' || Lead(line) == '*')
    ensures Classify(line).Plain? <==> !AllSpace(line) && Lead(line) !in "#-*"
    ensures Classify(line).Heading? ==> HashRun(Strip(line), Classify(line).level)
    ensures Classify(line).Heading? ==> Trimmed(Classify(line).title)
    ensures Classify(line).Plain? ==> Classify(line).text == Strip(line)
    ensures Classify(line).IsRule() ==> Trimmed(Classify(line).text)
  {
    StripEmpty(line);
  }

  /** The label a bullet line yields: the trimmed line splits into a run of
      `-`, `*` and space characters and a remainder that does not start
      with one of them, and the label is that remainder trimmed. Whitespace
      other than a space stops the marker run (`"-\t-x"` yields `"-x"`). */
  lemma BulletLabel(line: string, markers: string, rest: string)
    requires Strip(line) == markers + rest
    requires forall i :: 0 <= i < |markers| ==> InClass(markers[i], BulletMark)
    requires |rest| == 0 || !InClass(rest[0], BulletMark)
    requires |markers| > 0 && markers[0] != ' '
    ensures Classify(line) == Bullet(Strip(rest))
  {
    var t := Strip(line);
    assert t[0] == markers[0];
    assert forall i :: 0 <= i < |markers| ==> InClass(t[i], BulletMark) by {
      forall i | 0 <= i < |markers| ensures InClass(t[i], BulletMark) {
        assert t[i] == markers[i];
      }
    }
    assert |rest| > 0 ==> t[|markers|] == rest[0];
    var k := LeadingCount(t, BulletMark);
    assert k == |markers|;
    assert LStrip(t, BulletMark) == rest;
  }

  /** The title a heading line yields: after the trimmed line's run of `#`
      characters, the remainder trimmed; the level is the length of the run. */
  lemma HeadingParts(line: string, level: nat, rest: string)
    requires level >= 1
    requires Strip(line) == seq(level, _ => '#') + rest
    requires |rest| == 0 || rest[0] != '#'
    ensures Classify(line) == Heading(level, Strip(rest))
  {
    var t := Strip(line);
    assert t[0] == '#';
    assert forall i :: 0 <= i < level ==> InClass(t[i], HashMark) by {
      forall i | 0 <= i < level ensures InClass(t[i], HashMark) {
        assert t[i] == seq(level, _ => '#')[i];
      }
    }
    assert |rest| > 0 ==> t[level] == rest[0];
    var k := LeadingCount(t, HashMark);
    assert k == level;
    assert t[level..] == rest;
  }

  /** A label is cut out of its line: each of its characters occurs there.
      In particular a line without a newline yields a label without one. */
  lemma LabelChars(line: string)
    ensures forall i :: 0 <= i < |Classify(line).Label()| ==> Classify(line).Label()[i] in line
  {
    var t := Strip(line);
    StripChars(line);
    var k := Classify(line);
    if |t| > 0 && t[0] == '#' {
      var level := LeadingCount(t, HashMark);
      assert k.Label() == Strip(t[level..]);
      StripChars(t[level..]);
      SuffixChars(t, level);
    } else if |t| > 0 && (t[0] == '-' || t[0] == '*') {
      var rest := LStrip(t, BulletMark);
      assert k.Label() == Strip(rest);
      StripChars(rest);
      SuffixChars(t, |t| - |rest|);
    }
  }
}
