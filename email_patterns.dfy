/** The two e-mail regular expressions of the application, each given twice:
    as what the regex means (some split of the text into the parts the
    pattern names) and as a left-to-right scan, with a proof that they agree.

    - the strict pattern `^[^\s@]+@[^\s@]+\.[^\s@]+$` (feedback schema and the
      client form), and
    - the loose pattern `^\S+@\S+\.\S+$` (user schema and registration). */
module EmailPatterns {
  import opened Common

  predicate NoSpaceNoAt(s: string) {
    forall i :: 0 <= i < |s| ==> !IsSpace(s[i]) && s[i] != '@'
  }

  /** First index at or after `from` holding `c`, or |s| when there is none. */
  function IndexOf(s: string, c: char, from: nat): (r: nat)
    requires from <= |s|
    ensures from <= r <= |s|
    ensures r < |s| ==> s[r] == c
    ensures forall k :: from <= k < r ==> s[k] != c
    decreases |s| - from
  {
    if from == |s| then |s| else if s[from] == c then from else IndexOf(s, c, from + 1)
  }

  /** Last index below `n` holding `c`, or -1 when there is none. */
  function LastIndexBefore(s: string, c: char, n: nat): (r: int)
    requires n <= |s|
    ensures -1 <= r < n
    ensures r >= 0 ==> s[r] == c
    ensures forall k :: r < k < n ==> s[k] != c
  {
    if n == 0 then -1 else if s[n - 1] == c then n - 1 else LastIndexBefore(s, c, n - 1)
  }

  // ---------------------------------------------------------------------
  // ^[^\s@]+@[^\s@]+\.[^\s@]+$

  /** `s` splits as local `@` domain `.` tld, at positions i and j. */
  predicate StrictSplitAt(s: string, i: int, j: int) {
    && 0 < i && i + 1 < j && j + 1 < |s|
    && s[i] == '@' && s[j] == '.'
    && NoSpaceNoAt(s[..i]) && NoSpaceNoAt(s[i + 1..j]) && NoSpaceNoAt(s[j + 1..])
  }

  ghost predicate MatchesStrictPattern(s: string) {
    exists i, j :: StrictSplitAt(s, i, j)
  }

  /** A dot with at least one character on each side of it. */
  predicate HasInnerDot(d: string) {
    exists j :: 0 < j < |d| - 1 && d[j] == '.'
  }

  /** The scan: the first `@` ends a non-empty local part, and what follows
      has no space and no `@` and contains an inner dot. */
  predicate StrictEmail(s: string) {
    var i := IndexOf(s, '@', 0);
    0 < i < |s| && NoSpace(s[..i]) && NoSpaceNoAt(s[i + 1..]) && HasInnerDot(s[i + 1..])
  }

  lemma StrictEmailCorrect(s: string)
    ensures StrictEmail(s) <==> MatchesStrictPattern(s)
  {
    if StrictEmail(s) {
      StrictEmailMatches(s);
    }
    if MatchesStrictPattern(s) {
      StrictPatternScans(s);
    }
  }

  lemma StrictEmailMatches(s: string)
    requires StrictEmail(s)
    ensures MatchesStrictPattern(s)
  {
    var i := IndexOf(s, '@', 0);
    var d := s[i + 1..];
    var j :| 0 < j < |d| - 1 && d[j] == '.';
    assert s[i + 1..i + 1 + j] == d[..j];
    assert s[i + 1 + j + 1..] == d[j + 1..];
    assert StrictSplitAt(s, i, i + 1 + j);
  }

  lemma StrictPatternScans(s: string)
    requires MatchesStrictPattern(s)
    ensures StrictEmail(s)
  {
    var i, j :| StrictSplitAt(s, i, j);
    assert forall k :: 0 <= k < i ==> s[k] == s[..i][k];
    assert IndexOf(s, '@', 0) == i;
    var d := s[i + 1..];
    assert d == s[i + 1..j] + ['.'] + s[j + 1..];
    assert d[j - i - 1] == '.';
    assert HasInnerDot(d);
  }

  // ---------------------------------------------------------------------
  // ^\S+@\S+\.\S+$

  /** `s` has no space and splits as a `@` b `.` c with a, b, c non-empty. */
  predicate LooseSplitAt(s: string, i: int, j: int) {
    && 0 < i && i + 1 < j && j + 1 < |s|
    && s[i] == '@' && s[j] == '.' && NoSpace(s)
  }

  ghost predicate MatchesLoosePattern(s: string) {
    exists i, j :: LooseSplitAt(s, i, j)
  }

  /** The scan: the first `@` after the first character must come at least
      two characters before the last `.` that is not the final character. */
  predicate LooseEmail(s: string) {
    && NoSpace(s) && |s| >= 2
    && IndexOf(s, '@', 1) + 1 < LastIndexBefore(s, '.', |s| - 1)
  }

  lemma LooseEmailCorrect(s: string)
    ensures LooseEmail(s) <==> MatchesLoosePattern(s)
  {
    if LooseEmail(s) {
      var i := IndexOf(s, '@', 1);
      var j := LastIndexBefore(s, '.', |s| - 1);
      assert LooseSplitAt(s, i, j);
    }
    if MatchesLoosePattern(s) {
      var i0, j0 :| LooseSplitAt(s, i0, j0);
      var i := IndexOf(s, '@', 1);
      var j := LastIndexBefore(s, '.', |s| - 1);
      assert i <= i0;
      assert j0 <= j;
    }
  }

  /** Every address the strict pattern accepts, the loose one accepts too. */
  lemma StrictImpliesLoose(s: string)
    ensures StrictEmail(s) ==> LooseEmail(s)
  {
    StrictEmailCorrect(s);
    LooseEmailCorrect(s);
    if MatchesStrictPattern(s) {
      var i, j :| StrictSplitAt(s, i, j);
      assert s == s[..i] + [s[i]] + s[i + 1..j] + [s[j]] + s[j + 1..];
      forall k | 0 <= k < |s| ensures !IsSpace(s[k]) {
        if k < i { assert s[k] == s[..i][k]; }
        else if i < k < j { assert s[k] == s[i + 1..j][k - i - 1]; }
        else if k > j { assert s[k] == s[j + 1..][k - j - 1]; }
      }
      assert LooseSplitAt(s, i, j);
    }
  }

  /** Lower-casing moves neither `@`, `.` nor white space, so an address the
      loose pattern accepts is still accepted once lower-cased. */
  lemma LooseSurvivesLower(s: string)
    ensures MatchesLoosePattern(s) ==> MatchesLoosePattern(Lower(s))
  {
    if MatchesLoosePattern(s) {
      var i, j :| LooseSplitAt(s, i, j);
      forall k | 0 <= k < |s| ensures !IsSpace(Lower(s)[k]) {
        LowerCharSpace(s[k]);
      }
      assert LooseSplitAt(Lower(s), i, j);
    }
  }

  /** Lower-casing keeps `@`, `.` and white space where they are, in both
      directions. */
  lemma LowerCharKeepsMarks(c: char)
    ensures (LowerChar(c) == '@') == (c == '@') && (LowerChar(c) == '.') == (c == '.')
    ensures IsSpace(LowerChar(c)) == IsSpace(c)
  {
    LowerCharSpace(c);
  }

  lemma LowerSliceNoSpaceNoAt(s: string, a: nat, b: nat)
    requires a <= b <= |s|
    ensures NoSpaceNoAt(Lower(s)[a..b]) == NoSpaceNoAt(s[a..b])
  {
    forall k | a <= k < b
      ensures (!IsSpace(Lower(s)[k]) && Lower(s)[k] != '@') == (!IsSpace(s[k]) && s[k] != '@')
    {
      LowerCharKeepsMarks(s[k]);
    }
    assert forall k :: 0 <= k < b - a ==> Lower(s)[a..b][k] == Lower(s)[a + k] && s[a..b][k] == s[a + k];
  }

  lemma LowerStrictSplit(s: string, i: int, j: int)
    requires 0 < i && i + 1 < j && j + 1 < |s|
    ensures StrictSplitAt(Lower(s), i, j) == StrictSplitAt(s, i, j)
  {
    LowerCharKeepsMarks(s[i]);
    LowerCharKeepsMarks(s[j]);
    LowerSliceNoSpaceNoAt(s, 0, i);
    LowerSliceNoSpaceNoAt(s, i + 1, j);
    LowerSliceNoSpaceNoAt(s, j + 1, |s|);
    assert s[..i] == s[0..i] && Lower(s)[..i] == Lower(s)[0..i];
    assert s[j + 1..] == s[j + 1..|s|] && Lower(s)[j + 1..] == Lower(s)[j + 1..|s|];
  }

  /** The strict pattern accepts an address exactly when it accepts its
      lower-cased form. */
  lemma StrictLowerIff(s: string)
    ensures MatchesStrictPattern(Lower(s)) <==> MatchesStrictPattern(s)
  {
    if MatchesStrictPattern(s) {
      var i, j :| StrictSplitAt(s, i, j);
      LowerStrictSplit(s, i, j);
    }
    if MatchesStrictPattern(Lower(s)) {
      var i, j :| StrictSplitAt(Lower(s), i, j);
      LowerStrictSplit(s, i, j);
    }
  }
}
