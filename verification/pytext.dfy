/**
 * The Python `str` primitives the helpers rely on: the substring test `pat in s`,
 * `s.split()`, `s.lower()`, `int(token)`, `str(n)` and the `<` order on strings.
 */
module PyText {
  import opened Wrappers

  // ---------------------------------------------------------------------------
  // Substring test: `pat in s`

  /** `pat` occurs in `s` starting at index `i`. */
  predicate OccursAt(s: string, pat: string, i: nat) {
    i + |pat| <= |s| && s[i..i + |pat|] == pat
  }

  /** Python's `pat in s` for strings (the empty pattern occurs everywhere). */
  predicate Contains(s: string, pat: string)
    decreases |s|
  {
    |pat| <= |s| && (s[..|pat|] == pat || (|s| > 0 && Contains(s[1..], pat)))
  }

  lemma {:induction false} ContainsFromOccurrence(s: string, pat: string, i: nat)
    requires OccursAt(s, pat, i)
    ensures Contains(s, pat)
    decreases i
  {
    if i > 0 {
      assert s[1..][i - 1..i - 1 + |pat|] == s[i..i + |pat|];
      ContainsFromOccurrence(s[1..], pat, i - 1);
    }
  }

  lemma {:induction false} OccurrenceFromContains(s: string, pat: string) returns (i: nat)
    requires Contains(s, pat)
    ensures OccursAt(s, pat, i)
    decreases |s|
  {
    if s[..|pat|] == pat {
      i := 0;
    } else {
      var j := OccurrenceFromContains(s[1..], pat);
      assert s[1..][j..j + |pat|] == s[j + 1..j + 1 + |pat|];
      i := j + 1;
    }
  }

  /** The scan by `Contains` finds exactly the occurrences `OccursAt` describes. */
  lemma ContainsSpec(s: string, pat: string)
    ensures Contains(s, pat) <==> exists i: nat :: OccursAt(s, pat, i)
  {
    if Contains(s, pat) {
      var i := OccurrenceFromContains(s, pat);
    }
    if exists i: nat :: OccursAt(s, pat, i) {
      var i: nat :| OccursAt(s, pat, i);
      ContainsFromOccurrence(s, pat, i);
    }
  }

  /** A string without the first character of a non-empty pattern cannot contain it. */
  lemma {:induction false} ContainsNeedsFirst(s: string, pat: string)
    requires |pat| > 0 && forall i :: 0 <= i < |s| ==> s[i] != pat[0]
    ensures !Contains(s, pat)
    decreases |s|
  {
    if |pat| <= |s| {
      assert s[..|pat|][0] != pat[0];
      ContainsNeedsFirst(s[1..], pat);
    }
  }

  // ---------------------------------------------------------------------------
  // Whitespace splitting: `s.split()`

  /** `c.isspace()`: the characters `str.split()` with no argument separates on. */
  predicate IsSpace(c: char) {
    var n := c as int;
    (9 <= n <= 13) || (28 <= n <= 32) || n == 0x85 || n == 0xA0 || n == 0x1680
    || (0x2000 <= n <= 0x200A) || n == 0x2028 || n == 0x2029 || n == 0x202F
    || n == 0x205F || n == 0x3000
  }

  /** A token `split()` can produce: non-empty, with no whitespace in it. */
  predicate IsWord(w: string) {
    |w| > 0 && forall i :: 0 <= i < |w| ==> !IsSpace(w[i])
  }

  /** Length of the run of non-whitespace characters that starts `s`. */
  function WordLen(s: string): (n: nat)
    ensures n <= |s|
    ensures forall i :: 0 <= i < n ==> !IsSpace(s[i])
    ensures n < |s| ==> IsSpace(s[n])
    decreases |s|
  {
    if |s| == 0 || IsSpace(s[0]) then 0 else 1 + WordLen(s[1..])
  }

  /** `s.split()`: the maximal runs of non-whitespace characters, in order. */
  function Split(s: string): (toks: seq<string>)
    ensures forall k :: 0 <= k < |toks| ==> IsWord(toks[k])
    decreases |s|
  {
    if |s| == 0 then []
    else if IsSpace(s[0]) then Split(s[1..])
    else
      var n := WordLen(s);
      [s[..n]] + Split(s[n..])
  }

  /** `' '.join(toks)`. */
  function Unwords(toks: seq<string>): string
    decreases |toks|
  {
    if |toks| == 0 then ""
    else if |toks| == 1 then toks[0]
    else toks[0] + " " + Unwords(toks[1..])
  }

  lemma {:induction false} WordLenOfWordThen(w: string, rest: string)
    requires IsWord(w)
    requires |rest| == 0 || IsSpace(rest[0])
    ensures WordLen(w + rest) == |w|
    decreases |w|
  {
    if |w| > 1 {
      assert (w + rest)[1..] == w[1..] + rest;
      WordLenOfWordThen(w[1..], rest);
    } else {
      assert (w + rest)[1..] == rest;
    }
  }

  /** Splitting words joined by single spaces gives the words back. */
  lemma {:induction false} SplitUnwords(toks: seq<string>)
    requires forall k :: 0 <= k < |toks| ==> IsWord(toks[k])
    ensures Split(Unwords(toks)) == toks
    decreases |toks|
  {
    if |toks| == 1 {
      var w := toks[0];
      WordLenOfWordThen(w, "");
      assert w + "" == w;
      assert w[|w|..] == "";
      assert w[..|w|] == w;
    } else if |toks| > 1 {
      var w := toks[0];
      var rest := Unwords(toks[1..]);
      var s := w + " " + rest;
      assert s == w + (" " + rest);
      WordLenOfWordThen(w, " " + rest);
      assert s[..|w|] == w;
      assert s[|w|..] == " " + rest;
      assert (" " + rest)[1..] == rest;
      SplitUnwords(toks[1..]);
      assert [w] + toks[1..] == toks;
    }
  }

  // ---------------------------------------------------------------------------
  // ASCII case folding: `s.lower()`

  function LowerChar(c: char): char {
    if 'A' <= c <= 'Z' then (c as int + 32) as char else c
  }

  /**
   * `s.lower()` restricted to ASCII letters. For deciding membership in a set of
   * lower-case ASCII names without the letter 'k' this agrees with Python's full
   * Unicode lowering: the only non-ASCII character that lowers to an ASCII letter
   * is the Kelvin sign, which lowers to 'k'.
   */
  function Lower(s: string): string {
    seq(|s|, i requires 0 <= i < |s| => LowerChar(s[i]))
  }

  // ---------------------------------------------------------------------------
  // Decimal integers: `str(n)` and `int(token)`

  predicate IsDigit(c: char) {
    '0' <= c <= '9'
  }

  function DigitChar(d: nat): (c: char)
    requires d < 10
    ensures IsDigit(c)
  {
    ('0' as int + d) as char
  }

  function DigitVal(c: char): (d: nat)
    requires IsDigit(c)
    ensures d < 10
  {
    c as int - '0' as int
  }

  /** `str(n)` for a non-negative `n`: decimal digits, no leading zeros. */
  function NatToString(n: nat): (s: string)
    ensures |s| > 0
    ensures forall i :: 0 <= i < |s| ==> IsDigit(s[i])
    ensures n >= 10 <==> |s| > 1
    ensures |s| > 1 ==> s[0] != '0'
    decreases n
  {
    if n < 10 then [DigitChar(n)] else NatToString(n / 10) + [DigitChar(n % 10)]
  }

  /** `str(n)` (and the `{n}` of an f-string) for any integer. */
  function IntToString(n: int): string {
    if n < 0 then "-" + NatToString(-n) else NatToString(n)
  }

  /**
   * A numeral `int()` accepts in base 10: digits, optionally separated by single
   * underscores, beginning and ending with a digit.
   */
  predicate IsNumeral(t: string) {
    && |t| > 0
    && IsDigit(t[0])
    && IsDigit(t[|t| - 1])
    && (forall i :: 0 <= i < |t| ==> IsDigit(t[i]) || t[i] == '_')
    && (forall i :: 0 <= i < |t| - 1 ==> !(t[i] == '_' && t[i + 1] == '_'))
  }

  /** The value of a run of digits and underscores, underscores ignored. */
  function NumeralValue(t: string): nat
    requires forall i :: 0 <= i < |t| ==> IsDigit(t[i]) || t[i] == '_'
    decreases |t|
  {
    if |t| == 0 then 0
    else
      var init := t[..|t| - 1];
      if t[|t| - 1] == '_' then NumeralValue(init)
      else NumeralValue(init) * 10 + DigitVal(t[|t| - 1])
  }

  /** `int(token)` for a token `split()` produced (so without surrounding whitespace). */
  function ParseInt(t: string): (r: Option<int>)
    ensures r.Some? <==> IsNumeral(t) || (|t| > 0 && (t[0] == '+' || t[0] == '-') && IsNumeral(t[1..]))
  {
    if |t| > 0 && (t[0] == '+' || t[0] == '-') then
      var body := t[1..];
      if IsNumeral(body) then Some(if t[0] == '-' then -(NumeralValue(body) as int) else NumeralValue(body))
      else None
    else if IsNumeral(t) then Some(NumeralValue(t))
    else None
  }

  lemma {:induction false} NumeralValueOfNatToString(n: nat)
    ensures NumeralValue(NatToString(n)) == n
    decreases n
  {
    if n >= 10 {
      var s := NatToString(n);
      assert s[..|s| - 1] == NatToString(n / 10);
      NumeralValueOfNatToString(n / 10);
    }
  }

  /** `str(n)` is a numeral with no sign in front. */
  lemma NatToStringIsNumeral(n: nat)
    ensures IsNumeral(NatToString(n))
    ensures NatToString(n)[0] != '+' && NatToString(n)[0] != '-'
  {
    var s := NatToString(n);
    assert forall i :: 0 <= i < |s| ==> IsDigit(s[i]);
  }

  lemma ParseIntOfNatString(n: nat)
    ensures ParseInt(NatToString(n)) == Some(n)
  {
    var s := NatToString(n);
    NatToStringIsNumeral(n);
    NumeralValueOfNatToString(n);
    assert ParseInt(s) == Some(NumeralValue(s) as int);
  }

  lemma ParseIntOfNegatedString(n: nat)
    ensures ParseInt("-" + NatToString(n)) == Some(-(n as int))
  {
    var body := NatToString(n);
    var s := "-" + body;
    assert s[0] == '-' && s[1..] == body;
    NatToStringIsNumeral(n);
    NumeralValueOfNatToString(n);
    assert ParseInt(s) == Some(-(NumeralValue(body) as int));
  }

  /** `int(str(n)) == n`: the decimal rendering of a step number reads back as it. */
  lemma ParseIntRoundTrip(n: int)
    ensures ParseInt(IntToString(n)) == Some(n)
  {
    if n < 0 {
      ParseIntOfNegatedString(-n);
    } else {
      ParseIntOfNatString(n);
    }
  }

  /** Distinct integers render differently, so a rendered step names one step. */
  lemma IntToStringInjective(m: int, n: int)
    ensures IntToString(m) == IntToString(n) ==> m == n
  {
    ParseIntRoundTrip(m);
    ParseIntRoundTrip(n);
  }

  // ---------------------------------------------------------------------------
  // String order: `a < b`

  /** Python's `a < b` on strings: lexicographic by code point, a proper prefix first. */
  predicate StrLt(a: string, b: string)
    decreases |a|
  {
    if |a| == 0 then |b| > 0
    else if |b| == 0 then false
    else if a[0] != b[0] then a[0] < b[0]
    else StrLt(a[1..], b[1..])
  }

  lemma {:induction false} StrLtIrreflexive(a: string)
    ensures !StrLt(a, a)
    decreases |a|
  {
    if |a| > 0 {
      StrLtIrreflexive(a[1..]);
    }
  }

  lemma {:induction false} StrLtTransitive(a: string, b: string, c: string)
    requires StrLt(a, b) && StrLt(b, c)
    ensures StrLt(a, c)
    decreases |a|
  {
    if |a| > 0 && a[0] == b[0] && b[0] == c[0] {
      StrLtTransitive(a[1..], b[1..], c[1..]);
    }
  }

  lemma {:induction false} StrLtTotal(a: string, b: string)
    requires a != b
    ensures StrLt(a, b) || StrLt(b, a)
    decreases |a|
  {
    if |a| > 0 && |b| > 0 && a[0] == b[0] {
      assert a == [a[0]] + a[1..];
      assert b == [b[0]] + b[1..];
      StrLtTotal(a[1..], b[1..]);
    }
  }
}
