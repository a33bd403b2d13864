/**
 * String helpers the label extractor relies on: lower-casing, substring
 * containment and the numeric-token search that stands for
 * `re.search(r"([0-9]+[\.,]?[0-9]*)", line)` followed by `.replace(",", ".")`.
 */
module Text {
  import opened Wrappers

  function LowerChar(c: char): char {
    if 'A' <= c <= 'Z' then (c as int + 32) as char else c
  }

  /** `s.lower()`, restricted to ASCII letters. */
  function Lower(s: string): (r: string)
    ensures |r| == |s|
  {
    seq(|s|, i requires 0 <= i < |s| => LowerChar(s[i]))
  }

  /** Lower-casing maps each character on its own and leaves no upper-case ASCII letter. */
  lemma LowerChars(s: string)
    ensures forall i :: 0 <= i < |s| ==> Lower(s)[i] == LowerChar(s[i]) && !('A' <= Lower(s)[i] <= 'Z')
  {
  }

  /** A line without upper-case ASCII letters is its own lower-casing. */
  lemma LowerKeepsLowerCase(s: string)
    requires forall i :: 0 <= i < |s| ==> !('A' <= s[i] <= 'Z')
    ensures Lower(s) == s
  {
  }

  /** A line whose only upper-case letter is the first lower-cases that letter and keeps the rest. */
  lemma LowerCapitalised(s: string)
    requires |s| > 0 && forall i :: 1 <= i < |s| ==> !('A' <= s[i] <= 'Z')
    ensures Lower(s) == [LowerChar(s[0])] + s[1..]
  {
    LowerKeepsLowerCase(s[1..]);
    assert Lower(s) == [LowerChar(s[0])] + Lower(s[1..]);
  }

  /** `sub in s`: `sub` occurs in `s` as a contiguous substring. */
  predicate Contains(s: string, sub: string)
    decreases |s|
  {
    sub <= s || (|s| > 0 && Contains(s[1..], sub))
  }

  /** `sub` occurs in `s` starting at position `i`. */
  ghost predicate OccursAt(s: string, sub: string, i: int) {
    0 <= i <= |s| - |sub| && s[i..i + |sub|] == sub
  }

  /** Contains means: some position of `s` starts a copy of `sub`. */
  lemma {:induction false} ContainsAt(s: string, sub: string)
    ensures Contains(s, sub) <==> exists i :: OccursAt(s, sub, i)
  {
    if sub <= s {
      assert OccursAt(s, sub, 0);
    } else if |s| > 0 {
      ContainsAt(s[1..], sub);
      if exists i :: OccursAt(s, sub, i) {
        var i :| OccursAt(s, sub, i);
        assert OccursAt(s[1..], sub, i - 1);
      }
      if exists i :: OccursAt(s[1..], sub, i) {
        var i :| OccursAt(s[1..], sub, i);
        assert OccursAt(s, sub, i + 1);
      }
    }
  }

  predicate IsDigit(c: char) {
    '0' <= c <= '9'
  }

  predicate IsSeparator(c: char) {
    c == '.' || c == ','
  }

  predicate AllDigits(s: string) {
    forall i :: 0 <= i < |s| ==> IsDigit(s[i])
  }

  /** `t` matches the whole pattern `[0-9]+[.,]?[0-9]*`. */
  ghost predicate IsNumeral(t: string) {
    exists p :: 1 <= p <= |t| && AllDigits(t[..p]) &&
      (p == |t| || (IsSeparator(t[p]) && AllDigits(t[p + 1..])))
  }

  /** Length of the run of digits that starts at position `i` of `s`. */
  function DigitRun(s: string, i: nat): (n: nat)
    requires i <= |s|
    ensures i + n <= |s|
    ensures AllDigits(s[i..i + n])
    ensures i + n == |s| || !IsDigit(s[i + n])
    decreases |s| - i
  {
    if i < |s| && IsDigit(s[i]) then
      var rest := DigitRun(s, i + 1);
      DigitsPrepend(s, i, rest);
      1 + rest
    else 0
  }

  lemma DigitsPrepend(s: string, i: nat, n: nat)
    requires i + 1 + n <= |s| && IsDigit(s[i]) && AllDigits(s[i + 1..i + 1 + n])
    ensures AllDigits(s[i..i + 1 + n])
  {
    var run := s[i..i + 1 + n];
    forall k | 0 <= k < |run|
      ensures IsDigit(run[k])
    {
      if k > 0 {
        assert run[k] == s[i + 1..i + 1 + n][k - 1];
      }
    }
  }

  /** The greedy match of `[0-9]+[.,]?[0-9]*` at the start of `s`, which begins with a digit. */
  function LeadingNumeral(s: string): (t: string)
    requires |s| > 0 && IsDigit(s[0])
    ensures t <= s
  {
    var d := DigitRun(s, 0);
    if d < |s| && IsSeparator(s[d]) then s[..d + 1 + DigitRun(s, d + 1)] else s[..d]
  }

  /** The leftmost match of `[0-9]+[.,]?[0-9]*` in `s`, with its start position. */
  function Scan(s: string, from: nat): Option<(nat, string)>
    requires from <= |s|
    decreases |s| - from
  {
    if from == |s| then None
    else if IsDigit(s[from]) then Some((from, LeadingNumeral(s[from..])))
    else Scan(s, from + 1)
  }

  /** `re.search(...)`'s matched text, `None` when the line holds no digit. */
  function FirstNumeral(s: string): Option<string> {
    match Scan(s, 0)
    case Some((_, t)) => Some(t)
    case None => None
  }

  /** `.replace(",", ".")` */
  function Normalise(t: string): (r: string)
    ensures |r| == |t|
    ensures forall i :: 0 <= i < |t| ==> r[i] == if t[i] == ',' then '.' else t[i]
  {
    seq(|t|, i requires 0 <= i < |t| => if t[i] == ',' then '.' else t[i])
  }

  /** The numeric token of a line as the extractor stores it. */
  function NumericToken(s: string): Option<string> {
    match FirstNumeral(s)
    case Some(t) => Some(Normalise(t))
    case None => None
  }

  // ---- the scanner meets the regular expression's semantics ----

  lemma LeadingNumeralMatches(s: string)
    requires |s| > 0 && IsDigit(s[0])
    ensures IsNumeral(LeadingNumeral(s))
  {
    var d := DigitRun(s, 0);
    var t := LeadingNumeral(s);
    assert d >= 1;
    assert t[..d] == s[..d];
    if d < |s| && IsSeparator(s[d]) {
      var e := DigitRun(s, d + 1);
      assert t[d + 1..] == s[d + 1..d + 1 + e];
    }
  }

  /** No match of the pattern at `s`'s start is longer than the greedy one. */
  lemma LeadingNumeralLongest(s: string, j: nat)
    requires |s| > 0 && IsDigit(s[0])
    requires |LeadingNumeral(s)| < j <= |s|
    ensures !IsNumeral(s[..j])
  {
    var d := DigitRun(s, 0);
    var u := s[..j];
    forall p | 1 <= p <= j
      ensures !(AllDigits(u[..p]) && (p == j || (IsSeparator(u[p]) && AllDigits(u[p + 1..]))))
    {
      if p > d {
        assert u[..p][d] == s[d];
      } else if p < d {
        assert u[p] == s[p];
      } else if IsSeparator(s[d]) {
        var e := DigitRun(s, d + 1);
        assert u[p + 1..][e] == s[d + 1 + e];
      }
    }
  }

  /** Scanning from `from` finds nothing iff no digit occurs from there on. */
  lemma {:induction false} ScanNone(s: string, from: nat)
    requires from <= |s|
    ensures Scan(s, from).None? <==> forall i :: from <= i < |s| ==> !IsDigit(s[i])
    decreases |s| - from
  {
    if from < |s| && !IsDigit(s[from]) {
      ScanNone(s, from + 1);
    }
  }

  /** A found match starts at the first digit at or after `from`. */
  lemma {:induction false} ScanSome(s: string, from: nat)
    requires from <= |s|
    requires Scan(s, from).Some?
    ensures var (k, t) := Scan(s, from).value;
      from <= k < |s| && IsDigit(s[k]) && t == LeadingNumeral(s[k..]) &&
      forall i :: from <= i < k ==> !IsDigit(s[i])
    decreases |s| - from
  {
    if !IsDigit(s[from]) {
      ScanSome(s, from + 1);
    }
  }

  /**
   * The token of a line is exactly what the regular expression search returns:
   * nothing when the line has no digit; otherwise the longest match of
   * `[0-9]+[.,]?[0-9]*` that starts at the leftmost digit.
   */
  lemma FirstNumeralIsLeftmostLongest(s: string)
    ensures FirstNumeral(s).None? <==> forall i :: 0 <= i < |s| ==> !IsDigit(s[i])
    ensures FirstNumeral(s).Some? ==>
      var t := FirstNumeral(s).value;
      IsNumeral(t) &&
      exists k :: OccursAt(s, t, k) &&
        (forall i :: 0 <= i < k ==> !IsDigit(s[i])) &&
        (forall j :: k + |t| < j <= |s| ==> !IsNumeral(s[k..j]))
  {
    ScanNone(s, 0);
    if Scan(s, 0).Some? {
      ScanSome(s, 0);
      var (k, t) := Scan(s, 0).value;
      LeadingNumeralMatches(s[k..]);
      assert s[k..][..|t|] == s[k..k + |t|];
      assert OccursAt(s, t, k);
      forall j | k + |t| < j <= |s|
        ensures !IsNumeral(s[k..j])
      {
        LeadingNumeralLongest(s[k..], j - k);
        assert s[k..][..j - k] == s[k..j];
      }
    }
  }

  /**
   * A stored token begins with a digit, holds no comma, and has at most one
   * non-digit character, which is then a dot.
   */
  lemma NumericTokenShape(s: string)
    requires NumericToken(s).Some?
    ensures var v := NumericToken(s).value;
      |v| > 0 && IsDigit(v[0]) && ',' !in v &&
      (forall i :: 0 <= i < |v| && !IsDigit(v[i]) ==> v[i] == '.') &&
      (forall i, j :: 0 <= i < j < |v| ==> IsDigit(v[i]) || IsDigit(v[j]))
  {
    ScanSome(s, 0);
    var (k, t) := Scan(s, 0).value;
    LeadingNumeralMatches(s[k..]);
    var v := Normalise(t);
    var p :| 1 <= p <= |t| && AllDigits(t[..p]) &&
      (p == |t| || (IsSeparator(t[p]) && AllDigits(t[p + 1..])));
    assert IsDigit(t[..p][0]);
    forall i | 0 <= i < |t| && i != p
      ensures IsDigit(t[i])
    {
      if i < p { assert t[..p][i] == t[i]; } else { assert t[p + 1..][i - p - 1] == t[i]; }
    }
  }
}
