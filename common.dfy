/** Values shared by every part of the model: optional values, the JSON
    response envelope, and the small string operations the handlers use
    (trimming, lower-casing, substring search, decimal formatting). */
module Common {

  datatype Option<T> = None | Some(value: T)

  /** One entry of a schema validation error: the path that failed and the
      message of the first validator of that path that rejected it. */
  datatype ValidatorError = ValidatorError(path: string, message: string)

  /** One schema path and the verdict of its validators: the message of
      the first that rejected the value, or `None`. */
  datatype Check = Check(path: string, error: Option<string>)

  /** The errors of a document: one per rejected path, in schema order. */
  function Errors(cs: seq<Check>): (errs: seq<ValidatorError>)
    ensures |errs| <= |cs|
    ensures errs == [] <==> forall i :: 0 <= i < |cs| ==> cs[i].error.None?
  {
    if cs == [] then []
    else
      (if cs[0].error.Some? then [ValidatorError(cs[0].path, cs[0].error.value)] else [])
        + Errors(cs[1..])
  }

  /** An error is reported exactly when its path's validators give its message. */
  lemma {:induction false} ErrorsMember(cs: seq<Check>, e: ValidatorError)
    ensures e in Errors(cs) <==> exists i :: 0 <= i < |cs| && cs[i] == Check(e.path, Some(e.message))
  {
    if cs != [] {
      ErrorsMember(cs[1..], e);
      if e in Errors(cs[1..]) {
        var i :| 0 <= i < |cs[1..]| && cs[1..][i] == Check(e.path, Some(e.message));
        assert cs[i + 1] == cs[1..][i];
      }
      if exists i :: 0 <= i < |cs| && cs[i] == Check(e.path, Some(e.message)) {
        var i :| 0 <= i < |cs| && cs[i] == Check(e.path, Some(e.message));
        if i > 0 { assert cs[1..][i - 1] == cs[i]; }
      }
    }
  }

  /** Each path of a schema is reported at most once. */
  lemma {:induction false} ErrorsDistinct(cs: seq<Check>)
    requires forall i, j :: 0 <= i < j < |cs| ==> cs[i].path != cs[j].path
    ensures forall i, j :: 0 <= i < j < |Errors(cs)| ==> Errors(cs)[i].path != Errors(cs)[j].path
  {
    if cs != [] {
      var t := Errors(cs[1..]);
      ErrorsDistinct(cs[1..]);
      if cs[0].error.Some? {
        var errs := Errors(cs);
        forall j | 0 < j < |errs| ensures errs[0].path != errs[j].path {
          assert errs[j] == t[j - 1] && errs[j] in t;
          ErrorsMember(cs[1..], errs[j]);
          var k :| 0 <= k < |cs[1..]| && cs[1..][k] == Check(errs[j].path, Some(errs[j].message));
          assert cs[k + 1].path == errs[j].path;
        }
      }
    }
  }

  /** One `{field, message}` entry of a validation error response. */
  datatype FieldDetail = FieldDetail(field: string, message: string)

  /** The `{success, data | error, details?}` envelope every handler answers
      with, together with its HTTP status. */
  datatype Response<T> =
    | Ok(status: nat, data: T)
    | Fail(status: nat, error: string, details: Option<seq<FieldDetail>>)
  {
    /** The `success` field of the JSON body. */
    predicate Success() { Ok? }
  }

  /** JavaScript truthiness of an optional string: absent and "" are falsy. */
  predicate Truthy(o: Option<string>) {
    o.Some? && o.value != ""
  }

  /** JavaScript `o || d` on an optional string. */
  function OrElse(o: Option<string>, d: string): string {
    if Truthy(o) then o.value else d
  }

  // ---------------------------------------------------------------------
  // Whitespace and trimming (String.prototype.trim and the regex class \s)

  /** The characters JavaScript counts as white space or line terminators. */
  predicate IsSpace(c: char) {
    || c == ' ' || c == '\t' || c == '\n' || c == '\r'
    || c == '\U{000B}' || c == '\U{000C}' || c == '\U{00A0}' || c == '\U{1680}'
    || ('\U{2000}' <= c <= '\U{200A}')
    || c == '\U{2028}' || c == '\U{2029}' || c == '\U{202F}' || c == '\U{205F}'
    || c == '\U{3000}' || c == '\U{FEFF}'
  }

  predicate NoSpace(s: string) {
    forall i :: 0 <= i < |s| ==> !IsSpace(s[i])
  }

  function TrimStart(s: string): (r: string)
    ensures |r| <= |s| && r == s[|s| - |r|..]
    ensures r == [] || !IsSpace(r[0])
    ensures forall i :: 0 <= i < |s| - |r| ==> IsSpace(s[i])
  {
    if |s| > 0 && IsSpace(s[0]) then TrimStart(s[1..]) else s
  }

  function TrimEnd(s: string): (r: string)
    ensures |r| <= |s| && r == s[..|r|]
    ensures r == [] || !IsSpace(r[|r| - 1])
    ensures forall i :: |r| <= i < |s| ==> IsSpace(s[i])
  {
    if |s| > 0 && IsSpace(s[|s| - 1]) then TrimEnd(s[..|s| - 1]) else s
  }

  /** String.prototype.trim: strips white space at both ends, keeps the middle. */
  function Trim(s: string): (r: string)
    ensures |r| <= |s|
    ensures exists i :: 0 <= i <= |s| - |r| && OccursAt(r, s, i)
    ensures r == [] || (!IsSpace(r[0]) && !IsSpace(r[|r| - 1]))
  {
    var t := TrimStart(s);
    var r := TrimEnd(t);
    assert r == s[|s| - |t|..][..|r|] == s[|s| - |t|..|s| - |t| + |r|];
    assert OccursAt(r, s, |s| - |t|);
    r
  }

  /** A string is blank (falsy after trim) exactly when it is all white space. */
  lemma BlankIffAllSpace(s: string)
    ensures Trim(s) == [] <==> forall i :: 0 <= i < |s| ==> IsSpace(s[i])
  {
    var t := TrimStart(s);
    if Trim(s) == [] {
      // a non-blank `t` would start with a character TrimEnd keeps
      assert t == [];
    } else {
      var k :| 0 <= k <= |s| - |Trim(s)| && OccursAt(Trim(s), s, k);
      assert Trim(s)[0] == s[k];
      assert !IsSpace(s[k]);
    }
  }

  /** A string with no white space at either end is its own trim. */
  lemma TrimNoSpaceEnds(s: string)
    requires s != [] ==> !IsSpace(s[0]) && !IsSpace(s[|s| - 1])
    ensures Trim(s) == s
  {
    assert TrimStart(s) == s;
    assert TrimEnd(s) == s;
  }

  /** Trimming twice is trimming once. */
  lemma TrimIdempotent(s: string)
    ensures Trim(Trim(s)) == Trim(s)
  {
    var r := Trim(s);
    assert TrimStart(r) == r;
    assert TrimEnd(r) == r;
  }

  // ---------------------------------------------------------------------
  // Case (ASCII subset of toLowerCase and of the regex `i` flag)

  function LowerChar(c: char): char {
    if 'A' <= c <= 'Z' then (c as int + 32) as char else c
  }

  function Lower(s: string): (r: string)
    ensures |r| == |s|
    ensures forall i :: 0 <= i < |s| ==> r[i] == LowerChar(s[i])
  {
    seq(|s|, i requires 0 <= i < |s| => LowerChar(s[i]))
  }

  lemma LowerIdempotent(s: string)
    ensures Lower(Lower(s)) == Lower(s)
  {
  }

  /** Lower-casing neither creates nor removes white space, so trimming and
      lower-casing commute, and the normalised form of an e-mail address is
      a fixed point of normalisation. */
  lemma LowerTrimFixed(s: string)
    ensures Trim(Lower(s)) == Lower(Trim(s))
    ensures Lower(Trim(Lower(Trim(s)))) == Lower(Trim(s))
  {
    LowerTrimStart(s);
    LowerTrimEnd(TrimStart(s));
    LowerIdempotent(Trim(s));
    TrimIdempotent(s);
  }

  lemma LowerCharSpace(c: char)
    ensures IsSpace(LowerChar(c)) == IsSpace(c)
  {
    if 'A' <= c <= 'Z' {
      assert !IsSpace(c) && !IsSpace(LowerChar(c));
    }
  }

  lemma {:induction false} LowerTrimStart(s: string)
    ensures TrimStart(Lower(s)) == Lower(TrimStart(s))
    decreases |s|
  {
    if |s| > 0 {
      LowerCharSpace(s[0]);
      assert Lower(s)[1..] == Lower(s[1..]);
      LowerTrimStart(s[1..]);
    }
  }

  lemma {:induction false} LowerTrimEnd(s: string)
    ensures TrimEnd(Lower(s)) == Lower(TrimEnd(s))
    decreases |s|
  {
    if |s| > 0 {
      LowerCharSpace(s[|s| - 1]);
      assert Lower(s)[..|s| - 1] == Lower(s[..|s| - 1]);
      LowerTrimEnd(s[..|s| - 1]);
    }
  }

  // ---------------------------------------------------------------------
  // Substring search

  predicate OccursAt(needle: string, hay: string, i: int) {
    0 <= i <= |hay| - |needle| && hay[i..i + |needle|] == needle
  }

  /** The meaning: `needle` occurs in `hay` at some offset. */
  ghost predicate OccursIn(needle: string, hay: string) {
    exists i :: OccursAt(needle, hay, i)
  }

  /** The search, by scanning every offset from the left. */
  predicate IsSubstring(needle: string, hay: string)
    decreases |hay|
  {
    (|needle| <= |hay| && hay[..|needle|] == needle)
    || (|hay| > 0 && IsSubstring(needle, hay[1..]))
  }

  lemma {:induction false} IsSubstringCorrect(needle: string, hay: string)
    ensures IsSubstring(needle, hay) <==> OccursIn(needle, hay)
    decreases |hay|
  {
    if |hay| > 0 {
      IsSubstringCorrect(needle, hay[1..]);
      if OccursIn(needle, hay[1..]) {
        var i :| OccursAt(needle, hay[1..], i);
        assert hay[i + 1..i + 1 + |needle|] == needle;
        assert OccursAt(needle, hay, i + 1);
      }
      if |needle| <= |hay| && hay[..|needle|] == needle {
        assert OccursAt(needle, hay, 0);
      }
      if OccursIn(needle, hay) && !(|needle| <= |hay| && hay[..|needle|] == needle) {
        var i :| OccursAt(needle, hay, i);
        assert i != 0;
        assert hay[1..][i - 1..i - 1 + |needle|] == needle;
        assert OccursAt(needle, hay[1..], i - 1);
      }
    } else {
      if OccursIn(needle, hay) {
        var i :| OccursAt(needle, hay, i);
        assert hay[..|needle|] == needle;
      }
      if |needle| <= |hay| && hay[..|needle|] == needle {
        assert OccursAt(needle, hay, 0);
      }
    }
  }

  /** Case-insensitive substring test, standing for `new RegExp(term, 'i')`
      and `$regex` with `$options: 'i'` on a term without metacharacters. */
  predicate ContainsIgnoreCase(hay: string, term: string) {
    IsSubstring(Lower(term), Lower(hay))
  }

  // ---------------------------------------------------------------------
  // Prefixes: String(x).slice(0, n)

  /** A subset is no larger than the set it is drawn from. */
  lemma SubsetCardinality<T>(a: set<T>, b: set<T>)
    requires a <= b
    ensures |a| <= |b|
  {
    assert b == a + (b - a);
  }

  function Min(a: nat, b: nat): nat { if a <= b then a else b }

  function Take(s: string, n: nat): (r: string)
    ensures |r| <= n && r <= s
    ensures |s| <= n ==> r == s
    ensures |s| > n ==> |r| == n
  {
    if |s| <= n then s else s[..n]
  }

  // ---------------------------------------------------------------------
  // Decimal numerals: String(n), padStart and their reading back

  predicate IsDigit(c: char) { '0' <= c <= '9' }

  predicate AllDigits(s: string) {
    forall i :: 0 <= i < |s| ==> IsDigit(s[i])
  }

  function DigitChar(d: nat): (c: char)
    requires d < 10
    ensures IsDigit(c) && c as int - '0' as int == d
  {
    ('0' as int + d) as char
  }

  /** String(n) for a non-negative integer: no leading zero. */
  function NatToString(n: nat): (s: string)
    decreases n
  {
    if n < 10 then [DigitChar(n)] else NatToString(n / 10) + [DigitChar(n % 10)]
  }

  /** The value of a string of decimal digits; leading zeros are allowed. */
  function DigitsValue(s: string): nat
    requires AllDigits(s)
  {
    if s == [] then 0
    else DigitsValue(s[..|s| - 1]) * 10 + (s[|s| - 1] as int - '0' as int)
  }

  lemma {:induction false} NatToStringDigits(n: nat)
    ensures |NatToString(n)| >= 1 && AllDigits(NatToString(n))
    ensures DigitsValue(NatToString(n)) == n
    ensures n > 0 ==> NatToString(n)[0] != '0'
    decreases n
  {
    if n >= 10 {
      NatToStringDigits(n / 10);
      var s := NatToString(n);
      assert s[..|s| - 1] == NatToString(n / 10);
    }
  }

  /** Reading the decimal text back gives the number: String(n) is injective. */
  lemma NatToStringInjective(a: nat, b: nat)
    ensures NatToString(a) == NatToString(b) ==> a == b
  {
    NatToStringDigits(a);
    NatToStringDigits(b);
  }

  /** The number of decimal digits of n, without leading zeros. */
  lemma {:induction false} NatToStringLength(n: nat, k: nat)
    requires 1 <= k
    ensures |NatToString(n)| <= k <==> n < Pow10(k)
    decreases n
  {
    if n >= 10 {
      if k == 1 {
        NatToStringLength(n / 10, 1);
      } else {
        NatToStringLength(n / 10, k - 1);
      }
    } else if k > 1 {
      Pow10Positive(k - 1);
    }
  }

  function Pow10(k: nat): (p: nat)
  {
    if k == 0 then 1 else 10 * Pow10(k - 1)
  }

  lemma {:induction false} Pow10Positive(k: nat)
    ensures Pow10(k) >= 1
  {
    if k > 0 { Pow10Positive(k - 1); }
  }

  function Repeat(c: char, n: nat): (r: string)
    ensures |r| == n && forall i :: 0 <= i < n ==> r[i] == c
  {
    seq(n, i => c)
  }

  /** String.prototype.padStart(width, c). */
  function PadStart(s: string, width: nat, c: char): (r: string)
    ensures |r| == if |s| >= width then |s| else width
    ensures r == Repeat(c, |r| - |s|) + s
  {
    if |s| >= width then s else Repeat(c, width - |s|) + s
  }

  /** Leading zeros do not change the value of a digit string. */
  lemma {:induction false} LeadingZerosValue(z: nat, s: string)
    requires AllDigits(s)
    ensures AllDigits(Repeat('0', z) + s)
    ensures DigitsValue(Repeat('0', z) + s) == DigitsValue(s)
    decreases |s|
  {
    var t := Repeat('0', z) + s;
    if s == [] {
      assert t == Repeat('0', z);
      ZerosValue(z);
    } else {
      LeadingZerosValue(z, s[..|s| - 1]);
      assert t[..|t| - 1] == Repeat('0', z) + s[..|s| - 1];
    }
  }

  lemma {:induction false} ZerosValue(z: nat)
    ensures AllDigits(Repeat('0', z)) && DigitsValue(Repeat('0', z)) == 0
  {
    if z > 0 {
      ZerosValue(z - 1);
      assert Repeat('0', z)[..z - 1] == Repeat('0', z - 1);
    }
  }
}
