/**
 * String helpers of Go's standard library that the formatters, the planner
 * registry and the timezone parser rely on, restricted to ASCII text.
 */
module Text {
  import opened Wrappers

  // ---------------------------------------------------------------- case

  predicate IsUpper(c: char) {
    'A' <= c <= 'Z'
  }

  function Lower(c: char): (r: char)
    ensures !IsUpper(r)
    ensures !IsUpper(c) ==> r == c
  {
    if IsUpper(c) then (c as int - 'A' as int + 'a' as int) as char else c
  }

  /** strings.ToLower, on ASCII letters. */
  function ToLower(s: string): (r: string)
    ensures |r| == |s|
    ensures forall i :: 0 <= i < |s| ==> r[i] == Lower(s[i])
  {
    if |s| == 0 then [] else [Lower(s[0])] + ToLower(s[1..])
  }

  /** Two strings that differ at most in the case of their letters. */
  predicate EqualFold(a: string, b: string) {
    |a| == |b| && forall i :: 0 <= i < |a| ==> Lower(a[i]) == Lower(b[i])
  }

  /** Lower-casing then comparing with a lower-case key is case-insensitive equality. */
  lemma ToLowerMatchesKey(s: string, key: string)
    requires forall i :: 0 <= i < |key| ==> !IsUpper(key[i])
    ensures ToLower(s) == key <==> EqualFold(s, key)
  {
    if EqualFold(s, key) {
      assert forall i :: 0 <= i < |s| ==> ToLower(s)[i] == key[i] by {
        forall i | 0 <= i < |s|
          ensures ToLower(s)[i] == key[i]
        {
          assert Lower(key[i]) == key[i];
        }
      }
    }
  }

  /** Text without capitals is its own lower case. */
  lemma ToLowerOfLower(s: string)
    requires forall i :: 0 <= i < |s| ==> !IsUpper(s[i])
    ensures ToLower(s) == s
  {
  }

  lemma ToLowerIdempotent(s: string)
    ensures ToLower(ToLower(s)) == ToLower(s)
  {
  }

  // ---------------------------------------------------------------- cut

  /** The position of the first occurrence of `c` in `s`. */
  function IndexOf(s: string, c: char): (r: Option<nat>)
    ensures r.None? <==> c !in s
    ensures r.Some? ==> r.value < |s| && s[r.value] == c && c !in s[..r.value]
  {
    if |s| == 0 then None
    else if s[0] == c then Some(0)
    else
      match IndexOf(s[1..], c)
      case None => None
      case Some(i) =>
        assert s[..i + 1] == [s[0]] + s[1..][..i];
        Some(i + 1)
  }

  datatype Cut = Cut(before: string, after: string, found: bool)

  /** strings.Cut: split around the first occurrence of `sep`. */
  function CutAt(s: string, sep: char): (r: Cut)
    ensures r.found ==> s == r.before + [sep] + r.after && sep !in r.before
    ensures !r.found ==> sep !in s && r.before == s && r.after == ""
  {
    match IndexOf(s, sep)
    case None => Cut(s, "", false)
    case Some(i) =>
      assert s == s[..i] + [sep] + s[i + 1..];
      Cut(s[..i], s[i + 1..], true)
  }

  /** Cutting `before + sep + after` gives back both halves when `before` has no separator. */
  lemma CutRoundTrip(before: string, after: string, sep: char)
    requires sep !in before
    ensures CutAt(before + [sep] + after, sep) == Cut(before, after, true)
  {
    var s := before + [sep] + after;
    var r := CutAt(s, sep);
    assert sep in s by { assert s[|before|] == sep; }
    assert r.found;
    var i := |r.before|;
    assert s[i] == sep;
    assert s[|before|] == sep;
    assert i == |before|;
    assert r.before == s[..|before|] == before;
    assert r.after == s[|before| + 1..] == after;
  }

  // ---------------------------------------------------------------- integers

  const MinInt64: int := -0x8000_0000_0000_0000
  const MaxInt64: int := 0x7fff_ffff_ffff_ffff

  predicate InInt64(n: int) {
    MinInt64 <= n <= MaxInt64
  }

  /** Go's 64-bit two's-complement wrap-around of an exact integer. */
  function Wrap64(n: int): (r: int)
    ensures InInt64(r)
    ensures (r - n) % 0x1_0000_0000_0000_0000 == 0
    ensures InInt64(n) ==> r == n
  {
    (n - MinInt64) % 0x1_0000_0000_0000_0000 + MinInt64
  }

  predicate IsDigit(c: char) {
    '0' <= c <= '9'
  }

  predicate AllDigits(s: string) {
    forall i :: 0 <= i < |s| ==> IsDigit(s[i])
  }

  function DigitValue(c: char): nat
    requires IsDigit(c)
  {
    c as int - '0' as int
  }

  function DigitChar(d: nat): (c: char)
    requires d < 10
    ensures IsDigit(c) && DigitValue(c) == d
  {
    ('0' as int + d) as char
  }

  /** The value of a string of decimal digits, most significant first. */
  function DecimalValue(s: string): nat
    requires AllDigits(s)
  {
    if |s| == 0 then 0 else DecimalValue(s[..|s| - 1]) * 10 + DigitValue(s[|s| - 1])
  }

  /**
   * strconv.Atoi on a 64-bit platform: an optional '+' or '-', then at least
   * one decimal digit and nothing else; values outside int64 are a range error.
   */
  function Atoi(s: string): (r: Option<int>)
    ensures r.Some? ==> InInt64(r.value)
    ensures |s| == 0 ==> r.None?
  {
    var negative := |s| > 0 && s[0] == '-';
    var digits := if |s| > 0 && (s[0] == '-' || s[0] == '+') then s[1..] else s;
    if |digits| == 0 || !AllDigits(digits) then None
    else
      var v: int := if negative then 0 - DecimalValue(digits) else DecimalValue(digits);
      if InInt64(v) then Some(v) else None
  }

  /** The shortest decimal digits of a natural number. */
  function NatToDecimal(n: nat): (s: string)
    ensures AllDigits(s) && |s| > 0
    decreases n
  {
    if n < 10 then [DigitChar(n)] else NatToDecimal(n / 10) + [DigitChar(n % 10)]
  }

  /** strconv.Itoa / fmt's %d. */
  function Itoa(n: int): string {
    if n < 0 then "-" + NatToDecimal(-n) else NatToDecimal(n)
  }

  lemma {:induction false} DecimalRoundTrip(n: nat)
    ensures DecimalValue(NatToDecimal(n)) == n
    decreases n
  {
    var s := NatToDecimal(n);
    if n >= 10 {
      DecimalRoundTrip(n / 10);
      assert s[..|s| - 1] == NatToDecimal(n / 10);
    }
  }

  /** Atoi reads back every int64 that Itoa writes. */
  lemma AtoiItoa(n: int)
    requires InInt64(n)
    ensures Atoi(Itoa(n)) == Some(n)
  {
    if n < 0 {
      DecimalRoundTrip(-n);
      assert Itoa(n)[1..] == NatToDecimal(-n);
    } else {
      DecimalRoundTrip(n);
      assert Itoa(n)[0] != '-' && Itoa(n)[0] != '+' by {
        assert IsDigit(NatToDecimal(n)[0]);
      }
    }
  }
}
