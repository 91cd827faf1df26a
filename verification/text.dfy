/** String helpers the compiler relies on: Python's whitespace class and
    `str.strip`, `str.lstrip(chars)`, and the `"\n".join` / `split("\n")`
    pair used when the DOT text is assembled. Strings are `seq<char>`. */
module Text {

  /** The characters Python's `str.isspace` accepts, which is the set
      `str.strip()` with no argument removes. */
  const SpaceChars: set<char> := {
    ' ', '\t', '\n', '\r', '\U{0B}', '\U{0C}',
    '\U{1C}', '\U{1D}', '\U{1E}', '\U{1F}',
    '\U{85}', '\U{A0}', '\U{1680}',
    '\U{2000}', '\U{2001}', '\U{2002}', '\U{2003}', '\U{2004}', '\U{2005}',
    '\U{2006}', '\U{2007}', '\U{2008}', '\U{2009}', '\U{200A}',
    '\U{2028}', '\U{2029}', '\U{202F}', '\U{205F}', '\U{3000}'
  }

  predicate IsSpace(c: char) {
    c in SpaceChars
  }

  /** The character sets the compiler strips: `strip()` removes
      whitespace, the heading level counts `#`, and a bullet label is
      found after `lstrip('-* ')`. */
  datatype CharClass = Whitespace | HashMark | BulletMark

  predicate InClass(c: char, cls: CharClass) {
    match cls
    case Whitespace => IsSpace(c)
    case HashMark => c == '#'
    case BulletMark => c == '-' || c == '*' || c == ' '
  }

  predicate AllSpace(s: string) {
    forall i :: 0 <= i < |s| ==> IsSpace(s[i])
  }

  /** Neither end of `s` is whitespace. */
  predicate Trimmed(s: string) {
    |s| == 0 || (!IsSpace(s[0]) && !IsSpace(s[|s| - 1]))
  }

  /** `s` is `r` with whitespace (possibly none) added on both sides. */
  ghost predicate SpacePadded(s: string, r: string) {
    exists a :: 0 <= a <= |s| - |r| && s[a..a + |r|] == r && AllSpace(s[..a]) && AllSpace(s[a + |r|..])
  }

  /** Length of the longest prefix of `s` drawn from `cls`. */
  function LeadingCount(s: string, cls: CharClass): (k: nat)
    ensures k <= |s|
    ensures forall i :: 0 <= i < k ==> InClass(s[i], cls)
    ensures k == |s| || !InClass(s[k], cls)
  {
    if |s| == 0 || !InClass(s[0], cls) then 0 else 1 + LeadingCount(s[1..], cls)
  }

  /** Length of the longest suffix of `s` drawn from `cls`. */
  function TrailingCount(s: string, cls: CharClass): (k: nat)
    ensures k <= |s|
    ensures forall i :: |s| - k <= i < |s| ==> InClass(s[i], cls)
    ensures k == |s| || !InClass(s[|s| - 1 - k], cls)
  {
    if |s| == 0 || !InClass(s[|s| - 1], cls) then 0 else 1 + TrailingCount(s[..|s| - 1], cls)
  }

  /** Python's `s.lstrip(chars)` for the character set `cls`. */
  function LStrip(s: string, cls: CharClass): (r: string)
    ensures |r| <= |s| && r == s[|s| - |r|..]
    ensures forall i :: 0 <= i < |s| - |r| ==> InClass(s[i], cls)
    ensures |r| == 0 || !InClass(r[0], cls)
  {
    s[LeadingCount(s, cls)..]
  }

  /** Python's `s.strip()`: whitespace removed from both ends. */
  function Strip(s: string): (r: string)
    ensures Trimmed(r)
  {
    var a := LeadingCount(s, Whitespace);
    var t := s[a..];
    t[..|t| - TrailingCount(t, Whitespace)]
  }

  /** `Strip(s)` is `s` with whitespace padding taken off both sides. */
  lemma StripSpec(s: string)
    ensures SpacePadded(s, Strip(s))
  {
    var a := LeadingCount(s, Whitespace);
    var t := s[a..];
    var r := t[..|t| - TrailingCount(t, Whitespace)];
    assert r == Strip(s);
    assert s[a..a + |r|] == r;
    assert s[a + |r|..] == t[|r|..];
    assert AllSpace(s[..a]);
    var u := s[a + |r|..];
    assert AllSpace(u) by {
      forall i | 0 <= i < |u| ensures IsSpace(u[i]) {
        assert u[i] == t[|r| + i];
      }
    }
  }

  /** Stripping leaves nothing exactly when the text is all whitespace. */
  lemma StripEmpty(s: string)
    ensures |Strip(s)| == 0 <==> AllSpace(s)
  {
    StripSpec(s);
  }

  /** Every character of `Strip(s)` occurs in `s`. */
  lemma StripChars(s: string)
    ensures forall i :: 0 <= i < |Strip(s)| ==> Strip(s)[i] in s
  {
    var r := Strip(s);
    StripSpec(s);
    var a :| 0 <= a <= |s| - |r| && s[a..a + |r|] == r && AllSpace(s[..a]) && AllSpace(s[a + |r|..]);
    forall i | 0 <= i < |r| ensures r[i] in s {
      assert r[i] == s[a + i];
    }
  }

  lemma SuffixChars(s: string, a: nat)
    requires a <= |s|
    ensures forall c :: c in s[a..] ==> c in s
  {
    forall c | c in s[a..] ensures c in s {
      var j :| 0 <= j < |s[a..]| && s[a..][j] == c;
      assert s[a + j] == c;
    }
  }

  /** `Strip` is characterised by its contract: whatever whitespace padding
      surrounds a trimmed string, stripping recovers exactly that string. */
  lemma StripUnique(w1: string, r: string, w2: string)
    requires AllSpace(w1) && AllSpace(w2) && Trimmed(r)
    ensures Strip(w1 + r + w2) == r
  {
    var s := w1 + r + w2;
    var a := LeadingCount(s, Whitespace);
    if |r| == 0 {
      assert AllSpace(s) by {
        forall i | 0 <= i < |s| ensures IsSpace(s[i]) {
          if i < |w1| { assert s[i] == w1[i]; } else { assert s[i] == w2[i - |w1|]; }
        }
      }
    } else {
      assert s[|w1|] == r[0];
      assert a == |w1|;
      var t := s[a..];
      assert t == r + w2;
      var b := TrailingCount(t, Whitespace);
      assert t[|r| - 1] == r[|r| - 1];
      assert b == |w2|;
      assert t[..|t| - b] == r;
    }
  }

  lemma StripIdempotent(s: string)
    ensures Strip(Strip(s)) == Strip(s)
  {
    StripUnique("", Strip(s), "");
    assert "" + Strip(s) + "" == Strip(s);
  }

  /** Python's `"\n".join(lines)`. */
  function Join(lines: seq<string>): string {
    if |lines| == 0 then ""
    else if |lines| == 1 then lines[0]
    else lines[0] + "\n" + Join(lines[1..])
  }

  /** Python's `s.split("\n")`: always at least one piece, and an empty
      piece at each end the text starts or ends with a newline. */
  function Split(s: string): (r: seq<string>)
    ensures |r| >= 1
  {
    if |s| == 0 then [""]
    else
      var rest := Split(s[1..]);
      if s[0] == '\n' then [""] + rest
      else [[s[0]] + rest[0]] + rest[1..]
  }

  predicate NoNewline(s: string) {
    '\n' !in s
  }

  lemma {:induction false} SplitNoNewline(a: string, t: string)
    requires NoNewline(a)
    ensures Split(a + t) == [a + Split(t)[0]] + Split(t)[1..]
    decreases |a|
  {
    if |a| == 0 {
      assert a + t == t;
      assert a + Split(t)[0] == Split(t)[0];
    } else {
      assert (a + t)[1..] == a[1..] + t;
      assert (a + t)[0] == a[0];
      SplitNoNewline(a[1..], t);
      assert [a[0]] + (a[1..] + Split(t)[0]) == a + Split(t)[0];
    }
  }

  /** Splitting a join of newline-free lines gives the lines back. */
  lemma {:induction false} SplitJoin(lines: seq<string>)
    requires |lines| >= 1
    requires forall i :: 0 <= i < |lines| ==> NoNewline(lines[i])
    ensures Split(Join(lines)) == lines
    decreases |lines|
  {
    if |lines| == 1 {
      SplitNoNewline(lines[0], "");
      assert lines[0] + "" == lines[0];
    } else {
      var rest := Join(lines[1..]);
      SplitJoin(lines[1..]);
      assert Split("\n" + rest) == [""] + Split(rest) by {
        assert ("\n" + rest)[1..] == rest;
      }
      assert lines[0] + "\n" + rest == lines[0] + ("\n" + rest);
      SplitNoNewline(lines[0], "\n" + rest);
      assert lines[0] + "" == lines[0];
      assert lines == [lines[0]] + lines[1..];
    }
  }

  /** A join starts with its first piece and ends with its last. */
  lemma {:induction false} JoinEnds(lines: seq<string>)
    requires |lines| >= 1
    ensures |Join(lines)| >= |lines[0]| && Join(lines)[..|lines[0]|] == lines[0]
    ensures |Join(lines)| >= |lines[|lines| - 1]|
    ensures Join(lines)[|Join(lines)| - |lines[|lines| - 1]|..] == lines[|lines| - 1]
    decreases |lines|
  {
    if |lines| > 1 {
      JoinEnds(lines[1..]);
      var rest := Join(lines[1..]);
      assert Join(lines) == lines[0] + ("\n" + rest);
    }
  }
}
