/**
 * `sort_sim_steps`: a stable sort of step-file names by the integer their
 * name ends with, or by the name itself when it does not end in digits.
 */
module StepSort {
  import opened Wrappers
  import opened Errors
  import opened PyText

  /** The sort key `key_func` computes: an `int` or the name as a `str`. */
  datatype SortKey = Number(n: nat) | Text(s: string)

  /** The length of the run of ASCII digits that ends `s`. */
  function TrailingDigitCount(s: string): (n: nat)
    ensures n <= |s|
    ensures forall i :: |s| - n <= i < |s| ==> IsDigit(s[i])
    ensures n < |s| ==> !IsDigit(s[|s| - n - 1])
    decreases |s|
  {
    if |s| > 0 && IsDigit(s[|s| - 1]) then 1 + TrailingDigitCount(s[..|s| - 1]) else 0
  }

  /** The longest run of ASCII digits that ends `s`. */
  function TrailingDigits(s: string): (d: string)
    ensures |d| <= |s| && d == s[|s| - |d|..]
    ensures forall i :: 0 <= i < |d| ==> IsDigit(d[i])
    ensures |d| < |s| ==> !IsDigit(s[|s| - |d| - 1])
  {
    s[|s| - TrailingDigitCount(s)..]
  }

  /**
   * `key_func`: `re.findall(r'\d+$', name)`, whose `$` also matches just
   * before a final newline, then `int` of the match or the name itself.
   */
  function KeyOf(name: string): (k: SortKey)
    ensures k.Number? <==>
      || (|name| > 0 && IsDigit(name[|name| - 1]))
      || (|name| > 1 && name[|name| - 1] == '\n' && IsDigit(name[|name| - 2]))
    ensures k.Text? ==> k.s == name
  {
    var body := if |name| > 0 && name[|name| - 1] == '\n' then name[..|name| - 1] else name;
    var digits := TrailingDigits(body);
    if |digits| > 0 then Number(NumeralValue(digits)) else Text(name)
  }

  /**
   * Python's `<` on two keys of the same kind. Between an `int` and a `str` it
   * raises instead; such lists are refused before sorting, and numbers are put
   * first here only so that the order is total.
   */
  predicate KeyLt(a: SortKey, b: SortKey) {
    match (a, b)
    case (Number(m), Number(n)) => m < n
    case (Text(s), Text(t)) => StrLt(s, t)
    case (Number(_), Text(_)) => true
    case (Text(_), Number(_)) => false
  }

  lemma KeyLtIrreflexive(a: SortKey)
    ensures !KeyLt(a, a)
  {
    if a.Text? {
      StrLtIrreflexive(a.s);
    }
  }

  lemma KeyLtTransitive(a: SortKey, b: SortKey, c: SortKey)
    requires KeyLt(a, b) && KeyLt(b, c)
    ensures KeyLt(a, c)
  {
    if a.Text? && b.Text? && c.Text? {
      StrLtTransitive(a.s, b.s, c.s);
    }
  }

  lemma KeyLtTotal(a: SortKey, b: SortKey)
    requires a != b
    ensures KeyLt(a, b) || KeyLt(b, a)
  {
    if a.Text? && b.Text? {
      StrLtTotal(a.s, b.s);
    }
  }

  /** The names are in non-decreasing key order. */
  predicate Sorted(s: seq<string>, key: string -> SortKey) {
    forall i, j :: 0 <= i < j < |s| ==> !KeyLt(key(s[j]), key(s[i]))
  }

  /** The names of `s` whose key is `k`, in their order in `s`. */
  function WithKey(s: seq<string>, key: string -> SortKey, k: SortKey): seq<string>
    decreases |s|
  {
    if |s| == 0 then []
    else (if key(s[0]) == k then [s[0]] else []) + WithKey(s[1..], key, k)
  }

  /** Both kinds of key occur, so Python would compare an `int` with a `str`. */
  predicate MixedKeys(s: seq<string>) {
    exists i, j :: 0 <= i < |s| && 0 <= j < |s| && KeyOf(s[i]).Number? && KeyOf(s[j]).Text?
  }

  /** Puts `x` before the first element of `ys` whose key is not below its own. */
  function Insert(x: string, ys: seq<string>, key: string -> SortKey): seq<string>
    decreases |ys|
  {
    if |ys| == 0 then [x]
    else if KeyLt(key(ys[0]), key(x)) then [ys[0]] + Insert(x, ys[1..], key)
    else [x] + ys
  }

  /** Insertion sort from the right: a stable sort by key. */
  function SortByKey(xs: seq<string>, key: string -> SortKey): seq<string>
    decreases |xs|
  {
    if |xs| == 0 then [] else Insert(xs[0], SortByKey(xs[1..], key), key)
  }

  lemma {:induction false} InsertPermutes(x: string, ys: seq<string>, key: string -> SortKey)
    ensures multiset(Insert(x, ys, key)) == multiset(ys) + multiset{x}
    decreases |ys|
  {
    if |ys| > 0 && KeyLt(key(ys[0]), key(x)) {
      InsertPermutes(x, ys[1..], key);
      assert ys == [ys[0]] + ys[1..];
    }
  }

  lemma SortedTail(ys: seq<string>, key: string -> SortKey)
    requires Sorted(ys, key) && |ys| > 0
    ensures Sorted(ys[1..], key)
    ensures forall z :: z in ys[1..] ==> !KeyLt(key(z), key(ys[0]))
  {
    forall i, j | 0 <= i < j < |ys[1..]|
      ensures !KeyLt(key(ys[1..][j]), key(ys[1..][i]))
    {
      assert ys[1..][i] == ys[i + 1] && ys[1..][j] == ys[j + 1];
    }
    forall z | z in ys[1..]
      ensures !KeyLt(key(z), key(ys[0]))
    {
      var k :| 0 <= k < |ys[1..]| && ys[1..][k] == z;
      assert ys[k + 1] == z;
    }
  }

  lemma SortedCons(y: string, tail: seq<string>, key: string -> SortKey)
    requires Sorted(tail, key)
    requires forall z :: z in tail ==> !KeyLt(key(z), key(y))
    ensures Sorted([y] + tail, key)
  {
    var r := [y] + tail;
    forall i, j | 0 <= i < j < |r|
      ensures !KeyLt(key(r[j]), key(r[i]))
    {
      assert r[j] == tail[j - 1];
      if i > 0 {
        assert r[i] == tail[i - 1];
      } else {
        assert tail[j - 1] in tail;
      }
    }
  }

  lemma {:induction false} InsertSorted(x: string, ys: seq<string>, key: string -> SortKey)
    requires Sorted(ys, key)
    ensures Sorted(Insert(x, ys, key), key)
    decreases |ys|
  {
    if |ys| == 0 {
    } else if KeyLt(key(ys[0]), key(x)) {
      var tail := Insert(x, ys[1..], key);
      SortedTail(ys, key);
      InsertSorted(x, ys[1..], key);
      InsertPermutes(x, ys[1..], key);
      forall z | z in tail
        ensures !KeyLt(key(z), key(ys[0]))
      {
        assert z in multiset(tail);
        if z == x {
          if KeyLt(key(x), key(ys[0])) {
            KeyLtTransitive(key(x), key(ys[0]), key(x));
            KeyLtIrreflexive(key(x));
          }
        } else {
          assert z in multiset(ys[1..]);
        }
      }
      SortedCons(ys[0], tail, key);
    } else {
      SortedTail(ys, key);
      forall z | z in ys
        ensures !KeyLt(key(z), key(x))
      {
        if z != ys[0] && key(z) != key(ys[0]) {
          assert z in ys[1..] by {
            var k :| 0 <= k < |ys| && ys[k] == z;
            assert ys[1..][k - 1] == z;
          }
          KeyLtTotal(key(z), key(ys[0]));
          if KeyLt(key(z), key(x)) {
            KeyLtTransitive(key(ys[0]), key(z), key(x));
          }
        }
      }
      SortedCons(x, ys, key);
    }
  }

  lemma {:induction false} InsertWithKey(x: string, ys: seq<string>, key: string -> SortKey, k: SortKey)
    ensures WithKey(Insert(x, ys, key), key, k) == (if key(x) == k then [x] else []) + WithKey(ys, key, k)
    decreases |ys|
  {
    var xk := if key(x) == k then [x] else [];
    if |ys| == 0 {
      assert [x][1..] == [];
    } else if KeyLt(key(ys[0]), key(x)) {
      var yk := if key(ys[0]) == k then [ys[0]] else [];
      var rest := Insert(x, ys[1..], key);
      InsertWithKey(x, ys[1..], key, k);
      assert ([ys[0]] + rest)[1..] == rest;
      assert WithKey([ys[0]] + rest, key, k) == yk + WithKey(rest, key, k);
      KeyLtIrreflexive(key(x));
      assert yk == [] || xk == [];
      assert yk + xk == xk + yk;
      assert WithKey(ys, key, k) == yk + WithKey(ys[1..], key, k);
    } else {
      assert ([x] + ys)[1..] == ys;
    }
  }

  lemma {:induction false} SortByKeyPermutes(xs: seq<string>, key: string -> SortKey)
    ensures multiset(SortByKey(xs, key)) == multiset(xs)
    decreases |xs|
  {
    if |xs| > 0 {
      SortByKeyPermutes(xs[1..], key);
      InsertPermutes(xs[0], SortByKey(xs[1..], key), key);
      assert xs == [xs[0]] + xs[1..];
    }
  }

  lemma {:induction false} SortByKeySorted(xs: seq<string>, key: string -> SortKey)
    ensures Sorted(SortByKey(xs, key), key)
    decreases |xs|
  {
    if |xs| > 0 {
      SortByKeySorted(xs[1..], key);
      InsertSorted(xs[0], SortByKey(xs[1..], key), key);
    }
  }

  lemma {:induction false} SortByKeyStable(xs: seq<string>, key: string -> SortKey, k: SortKey)
    ensures WithKey(SortByKey(xs, key), key, k) == WithKey(xs, key, k)
    decreases |xs|
  {
    if |xs| > 0 {
      SortByKeyStable(xs[1..], key, k);
      InsertWithKey(xs[0], SortByKey(xs[1..], key), key, k);
    }
  }

  /**
   * Sorting by key keeps every name, puts the keys in order, and keeps names
   * with equal keys in their original relative order.
   */
  lemma SortByKeySpec(xs: seq<string>, key: string -> SortKey)
    ensures multiset(SortByKey(xs, key)) == multiset(xs)
    ensures Sorted(SortByKey(xs, key), key)
    ensures forall k :: WithKey(SortByKey(xs, key), key, k) == WithKey(xs, key, k)
  {
    SortByKeyPermutes(xs, key);
    SortByKeySorted(xs, key);
    forall k
      ensures WithKey(SortByKey(xs, key), key, k) == WithKey(xs, key, k)
    {
      SortByKeyStable(xs, key, k);
    }
  }

  /** A list already in key order is returned unchanged. */
  lemma {:induction false} SortByKeyOfSorted(xs: seq<string>, key: string -> SortKey)
    requires Sorted(xs, key)
    ensures SortByKey(xs, key) == xs
    decreases |xs|
  {
    if |xs| > 0 {
      SortedTail(xs, key);
      SortByKeyOfSorted(xs[1..], key);
      if |xs| > 1 {
        assert !KeyLt(key(xs[1]), key(xs[0]));
      }
    }
  }

  /**
   * `sort_sim_steps` once `re` is imported: the stable sort by key, or the
   * TypeError Python raises when both numeric and text keys occur.
   */
  function SortSimSteps(names: seq<string>): (r: Result<seq<string>, Error>)
    ensures r.Failure? <==> MixedKeys(names)
    ensures r.Failure? ==> r.error == Unorderable
    ensures r.Success? ==> multiset(r.value) == multiset(names)
    ensures r.Success? ==> Sorted(r.value, KeyOf)
    ensures r.Success? ==> forall k :: WithKey(r.value, KeyOf, k) == WithKey(names, KeyOf, k)
  {
    if MixedKeys(names) then Failure(Unorderable)
    else
      SortByKeySpec(names, KeyOf);
      Success(SortByKey(names, KeyOf))
  }

  /**
   * `sort_sim_steps` as the module is written: `re` is never imported, so
   * `key_func` raises NameError on the first name; an empty list is returned
   * without calling it.
   */
  function SortSimStepsAsWritten(names: seq<string>): (r: Result<seq<string>, Error>)
    ensures r.Success? <==> |names| == 0
    ensures r.Failure? ==> r.error == UndefinedName("re")
  {
    if |names| == 0 then Success([]) else Failure(UndefinedName("re"))
  }

  /** A name that ends in the digits of `n` after a non-digit sorts by `n`. */
  lemma KeyOfNumberedName(prefix: string, n: nat)
    requires |prefix| > 0 && !IsDigit(prefix[|prefix| - 1])
    ensures KeyOf(prefix + NatToString(n)) == Number(n)
  {
    var digits := NatToString(n);
    var name := prefix + digits;
    assert name[|name| - 1] == digits[|digits| - 1];
    TrailingDigitsOfNumber(prefix, digits);
    NumeralValueOfNatToString(n);
  }

  lemma {:induction false} TrailingDigitCountOfNumber(prefix: string, digits: string)
    requires |prefix| > 0 && !IsDigit(prefix[|prefix| - 1])
    requires forall i :: 0 <= i < |digits| ==> IsDigit(digits[i])
    ensures TrailingDigitCount(prefix + digits) == |digits|
    decreases |digits|
  {
    var s := prefix + digits;
    if |digits| == 0 {
      assert s == prefix;
    } else {
      var init := digits[..|digits| - 1];
      assert s[..|s| - 1] == prefix + init;
      TrailingDigitCountOfNumber(prefix, init);
    }
  }

  /** After a non-digit, the trailing digit run is exactly the digits appended. */
  lemma TrailingDigitsOfNumber(prefix: string, digits: string)
    requires |prefix| > 0 && !IsDigit(prefix[|prefix| - 1])
    requires forall i :: 0 <= i < |digits| ==> IsDigit(digits[i])
    ensures TrailingDigits(prefix + digits) == digits
  {
    TrailingDigitCountOfNumber(prefix, digits);
    assert (prefix + digits)[|prefix|..] == digits;
  }

  lemma StepTenKey()
    ensures KeyOf("step10") == Number(10)
  {
    assert NatToString(1) == "1";
    assert NatToString(10) == "10";
    assert "step10" == "step" + NatToString(10);
    KeyOfNumberedName("step", 10);
  }

  lemma StepTwoKey()
    ensures KeyOf("step2") == Number(2)
  {
    assert "step2" == "step" + NatToString(2);
    KeyOfNumberedName("step", 2);
  }

  lemma StepOneKey()
    ensures KeyOf("step1") == Number(1)
  {
    assert "step1" == "step" + NatToString(1);
    KeyOfNumberedName("step", 1);
  }

  /** Any key that reads step10, step2, step1 as 10, 2, 1 sorts them numerically. */
  lemma SortByNumericKeys(key: string -> SortKey)
    requires key("step10") == Number(10) && key("step2") == Number(2) && key("step1") == Number(1)
    ensures SortByKey(["step10", "step2", "step1"], key) == ["step1", "step2", "step10"]
  {
    var input := ["step10", "step2", "step1"];
    assert input[2..] == ["step1"];
    assert input[1..][1..] == input[2..];
    var one := SortByKey(input[2..], key);
    assert one == Insert("step1", [], key) == ["step1"];
    assert one[1..] == [];
    var two := SortByKey(input[1..], key);
    assert two == Insert("step2", one, key);
    assert KeyLt(key(one[0]), key("step2"));
    assert two == ["step1"] + Insert("step2", [], key) == ["step1", "step2"];
    assert two[1..][1..] == [];
    assert KeyLt(key(two[0]), key("step10"));
    assert KeyLt(key(two[1..][0]), key("step10"));
    assert two[1..] == ["step2"];
    assert Insert("step10", two[1..], key) == ["step2"] + Insert("step10", [], key);
    assert Insert("step10", two, key) == ["step1"] + Insert("step10", two[1..], key);
    assert SortByKey(input, key) == Insert("step10", two, key);
  }

  /** Without text keys nothing is refused and the stable sort is returned. */
  lemma SortSimStepsNumbered(names: seq<string>)
    requires forall i :: 0 <= i < |names| ==> KeyOf(names[i]).Number?
    ensures SortSimSteps(names) == Success(SortByKey(names, KeyOf))
  {
  }

  /**
   * The worked example of the step sort: step10, step2, step1 are put in
   * numeric order, while the module as written raises NameError on them.
   */
  lemma SortExample()
    ensures SortSimSteps(["step10", "step2", "step1"]) == Success(["step1", "step2", "step10"])
    ensures SortSimStepsAsWritten(["step10", "step2", "step1"]) == Failure(UndefinedName("re"))
  {
    var input := ["step10", "step2", "step1"];
    forall i | 0 <= i < |input|
      ensures KeyOf(input[i]).Number?
    {
      if i == 0 { StepTenKey(); } else if i == 1 { StepTwoKey(); } else { StepOneKey(); }
    }
    SortSimStepsNumbered(input);
    StepTenKey();
    StepTwoKey();
    StepOneKey();
    SortByNumericKeys(KeyOf);
  }
}
