/**
 * The printed-step computation over the lines of a `.sim` metadata file.
 *
 * The line after the last line mentioning "step" ends with the total step
 * count N; the line two after the last line mentioning "printed" lists the
 * steps that were skipped. The printed steps are start..N minus the skipped
 * ones, where start is 0 when step zero is wanted and 1 otherwise.
 */
module SimMetadata {
  import opened Wrappers
  import opened Errors
  import opened PyText

  const StepMarker := "step"
  const PrintedMarker := "printed"

  // ---------------------------------------------------------------------------
  // Integer ranges and filtering

  /** `list(range(lo, hi))`. */
  function Range(lo: int, hi: int): (r: seq<int>)
    ensures |r| == if hi <= lo then 0 else hi - lo
    ensures forall k :: 0 <= k < |r| ==> r[k] == lo + k
    decreases hi - lo
  {
    if hi <= lo then [] else [lo] + Range(lo + 1, hi)
  }

  predicate StrictlyIncreasing(s: seq<int>) {
    forall i, j :: 0 <= i < j < |s| ==> s[i] < s[j]
  }

  lemma RangeSpec(lo: int, hi: int)
    ensures StrictlyIncreasing(Range(lo, hi))
    ensures forall x :: x in Range(lo, hi) <==> lo <= x < hi
  {
    var r := Range(lo, hi);
    forall x | lo <= x < hi
      ensures x in r
    {
      assert r[x - lo] == x;
    }
  }

  /**
   * Dropping the head of a strictly increasing sequence leaves one, made of
   * the elements above the head, which is the least element.
   */
  lemma IncreasingTail(xs: seq<int>)
    requires |xs| > 0
    ensures StrictlyIncreasing(xs) ==> StrictlyIncreasing(xs[1..])
    ensures StrictlyIncreasing(xs) ==> forall y :: y in xs[1..] <==> y in xs && xs[0] < y
    ensures StrictlyIncreasing(xs) ==> forall y :: y in xs ==> xs[0] <= y
  {
    if StrictlyIncreasing(xs) {
      forall i, j | 0 <= i < j < |xs[1..]|
        ensures xs[1..][i] < xs[1..][j]
      {
        assert xs[1..][i] == xs[i + 1] && xs[1..][j] == xs[j + 1];
      }
      forall y | y in xs[1..]
        ensures xs[0] < y
      {
        var k :| 0 <= k < |xs[1..]| && xs[1..][k] == y;
        assert xs[k + 1] == y;
      }
      forall y | y in xs
        ensures xs[0] <= y
      {
        var k :| 0 <= k < |xs| && xs[k] == y;
      }
      forall y | y in xs && xs[0] < y
        ensures y in xs[1..]
      {
        var k :| 0 <= k < |xs| && xs[k] == y;
        assert xs[1..][k - 1] == y;
      }
    }
  }

  /** Putting a value below every element in front keeps a sequence strictly increasing. */
  lemma IncreasingCons(x: int, s: seq<int>)
    requires StrictlyIncreasing(s) && forall y :: y in s ==> x < y
    ensures StrictlyIncreasing([x] + s)
  {
    forall i, j | 0 <= i < j < |[x] + s|
      ensures ([x] + s)[i] < ([x] + s)[j]
    {
      assert s[j - 1] in s;
    }
  }

  /** `[x for x in xs if x not in drop]`. */
  function RemoveAll(xs: seq<int>, drop: seq<int>): (r: seq<int>)
    ensures forall x :: x in r <==> x in xs && x !in drop
    ensures StrictlyIncreasing(xs) ==> StrictlyIncreasing(r)
    decreases |xs|
  {
    if |xs| == 0 then []
    else
      var rest := RemoveAll(xs[1..], drop);
      IncreasingTail(xs);
      if xs[0] in drop then rest
      else
        assert StrictlyIncreasing(xs) ==> StrictlyIncreasing([xs[0]] + rest) by {
          if StrictlyIncreasing(xs) {
            IncreasingCons(xs[0], rest);
          }
        }
        [xs[0]] + rest
  }

  // ---------------------------------------------------------------------------
  // Where the markers are

  /** The index of the last line that contains `marker`, if any. */
  function LastMarker(data: seq<string>, marker: string): (r: Option<nat>)
    ensures r.Some? ==> r.value < |data| && Contains(data[r.value], marker)
    ensures r.Some? ==> forall j :: r.value < j < |data| ==> !Contains(data[j], marker)
    ensures r.None? ==> forall j :: 0 <= j < |data| ==> !Contains(data[j], marker)
    decreases |data|
  {
    if |data| == 0 then None
    else if Contains(data[|data| - 1], marker) then Some(|data| - 1)
    else LastMarker(data[..|data| - 1], marker)
  }

  /**
   * The loop `for i, line in enumerate(data): if marker in line: cur = extract(i)`
   * from line `i` on: every marker line is extracted (the first failure is
   * raised) and the last extraction wins.
   */
  function ScanLast<T>(data: seq<string>, marker: string, extract: nat -> Result<T, Error>, i: nat, cur: T)
    : Result<T, Error>
    requires i <= |data|
    decreases |data| - i
  {
    if i == |data| then Success(cur)
    else if Contains(data[i], marker) then
      match extract(i)
      case Failure(e) => Failure(e)
      case Success(v) => ScanLast(data, marker, extract, i + 1, v)
    else ScanLast(data, marker, extract, i + 1, cur)
  }

  /** The scan fails exactly when some marker line from `i` on cannot be extracted. */
  lemma {:induction false} ScanLastSucceeds<T>(data: seq<string>, marker: string, extract: nat -> Result<T, Error>, i: nat, cur: T)
    requires i <= |data|
    ensures ScanLast(data, marker, extract, i, cur).Success?
        <==> forall j :: i <= j < |data| && Contains(data[j], marker) ==> extract(j).Success?
    decreases |data| - i
  {
    if i < |data| {
      if Contains(data[i], marker) {
        if extract(i).Success? {
          ScanLastSucceeds(data, marker, extract, i + 1, extract(i).value);
        }
      } else {
        ScanLastSucceeds(data, marker, extract, i + 1, cur);
      }
    }
  }

  /**
   * A successful scan yields the extraction of the last marker line, or `cur`
   * if no marker line lies at `i` or after.
   */
  lemma {:induction false} ScanLastValue<T>(data: seq<string>, marker: string, extract: nat -> Result<T, Error>, i: nat, cur: T)
    requires i <= |data|
    requires ScanLast(data, marker, extract, i, cur).Success?
    ensures ScanLast(data, marker, extract, i, cur)
        == match LastMarker(data, marker)
           case Some(k) => if k >= i then extract(k) else Success(cur)
           case None => Success(cur)
    decreases |data| - i
  {
    if i < |data| {
      if Contains(data[i], marker) {
        ScanLastValue(data, marker, extract, i + 1, extract(i).value);
      } else {
        ScanLastValue(data, marker, extract, i + 1, cur);
      }
    }
  }

  /**
   * The loop `for i, line in enumerate(data): if marker in line: cur = extract(i)`
   * from line `i` on fails exactly when some marker line cannot be extracted
   * (the first failure is raised); when it succeeds the last extraction wins.
   */
  lemma ScanLastSpec<T>(data: seq<string>, marker: string, extract: nat -> Result<T, Error>, i: nat, cur: T)
    requires i <= |data|
    ensures ScanLast(data, marker, extract, i, cur).Success?
        <==> forall j :: i <= j < |data| && Contains(data[j], marker) ==> extract(j).Success?
    ensures ScanLast(data, marker, extract, i, cur).Success? ==>
      ScanLast(data, marker, extract, i, cur).value
        == match LastMarker(data, marker)
           case Some(k) => if k >= i then extract(k).value else cur
           case None => cur
  {
    ScanLastSucceeds(data, marker, extract, i, cur);
    if ScanLast(data, marker, extract, i, cur).Success? {
      ScanLastValue(data, marker, extract, i, cur);
    }
  }

  // ---------------------------------------------------------------------------
  // What a marker line yields

  /** `int(data[i + 1].split()[-1])`: the step count on the line after a "step" line. */
  function CountAt(data: seq<string>, i: nat): Result<int, Error> {
    if i + 1 >= |data| then Failure(IndexOutOfRange)
    else
      var toks := Split(data[i + 1]);
      if |toks| == 0 then Failure(IndexOutOfRange)
      else match ParseInt(toks[|toks| - 1])
        case Some(n) => Success(n)
        case None => Failure(NotAnInteger)
  }

  /** `list(range(start, count + 1))` for the count after the "step" line `i`. */
  function TotalAt(data: seq<string>, start: int, i: nat): (r: Result<seq<int>, Error>)
    ensures r.Success? <==> CountAt(data, i).Success?
    ensures r.Success? ==> r.value == Range(start, CountAt(data, i).value + 1)
  {
    match CountAt(data, i)
    case Failure(e) => Failure(e)
    case Success(n) => Success(Range(start, n + 1))
  }

  /** `data[i + 2].split()`: the skipped-step tokens two lines after a "printed" line. */
  function SkipTokensAt(data: seq<string>, i: nat): Result<seq<string>, Error> {
    if i + 2 >= |data| then Failure(IndexOutOfRange) else Success(Split(data[i + 2]))
  }

  /** `[int(t) for t in toks]`, failing on the first token that is not an integer. */
  function ParseAll(toks: seq<string>): (r: Result<seq<int>, Error>)
    ensures r.Success? <==> forall k :: 0 <= k < |toks| ==> ParseInt(toks[k]).Some?
    ensures r.Failure? ==> r.error == NotAnInteger
    ensures r.Success? ==>
      (|r.value| == |toks| && forall k :: 0 <= k < |toks| ==> ParseInt(toks[k]) == Some(r.value[k]))
    decreases |toks|
  {
    if |toks| == 0 then Success([])
    else match ParseInt(toks[0])
      case None => Failure(NotAnInteger)
      case Some(n) =>
        match ParseAll(toks[1..])
        case Failure(e) => Failure(e)
        case Success(rest) => Success([n] + rest)
  }

  // ---------------------------------------------------------------------------
  // The printed steps

  function Start(includeZero: bool): int {
    if includeZero then 0 else 1
  }

  /** The total-step scan over every "step" line. */
  function TotalSteps(data: seq<string>, start: int): Result<seq<int>, Error> {
    ScanLast(data, StepMarker, (i: nat) => TotalAt(data, start, i), 0, [])
  }

  /** The skipped-token scan over every "printed" line. */
  function SkippedTokens(data: seq<string>): Result<seq<string>, Error> {
    ScanLast(data, PrintedMarker, (i: nat) => SkipTokensAt(data, i), 0, [])
  }

  /**
   * The `.sim` part of `get_number_of_steps`: total steps from the "step"
   * scan; the skipped steps are looked for only when that range is non-empty;
   * the result keeps the range's order.
   */
  function PrintedSteps(data: seq<string>, includeZero: bool): (r: Result<seq<int>, Error>)
    ensures r.Success? ==> CountLinesReadable(data)
    ensures r.Success? && DeclaredTotal(data).None? ==> r.value == []
    ensures r.Success? ==> StrictlyIncreasing(r.value)
    ensures r.Success? ==> forall x :: x in r.value ==>
      Start(includeZero) <= x && DeclaredTotal(data).Some? && x <= DeclaredTotal(data).value
  {
    var total :- TotalSteps(data, Start(includeZero));
    assert CountLinesReadable(data) && StrictlyIncreasing(total) && forall x :: x in total ==>
      Start(includeZero) <= x && DeclaredTotal(data).Some? && x <= DeclaredTotal(data).value
    by {
      TotalStepsSpec(data, Start(includeZero));
      if DeclaredTotal(data).Some? {
        RangeSpec(Start(includeZero), DeclaredTotal(data).value + 1);
      }
    }
    var tokens :- if |total| > 0 then SkippedTokens(data) else Success([]);
    var skipped :- ParseAll(tokens);
    Success(RemoveAll(total, skipped))
  }

  /** `[int(t) for t in toks]` succeeds exactly when every token is an integer. */
  lemma ParseAllSucceeds(toks: seq<string>)
    ensures ParseAll(toks).Success? <==> forall t :: t in toks ==> ParseInt(t).Some?
  {
    if forall t :: t in toks ==> ParseInt(t).Some? {
      assert forall k :: 0 <= k < |toks| ==> toks[k] in toks;
    }
  }

  // ---------------------------------------------------------------------------
  // The same result, stated through the last markers

  /** Every "step" line is followed by a line whose last token is an integer. */
  predicate CountLinesReadable(data: seq<string>) {
    forall i :: 0 <= i < |data| && Contains(data[i], StepMarker) ==> CountAt(data, i).Success?
  }

  /** Every "printed" line has a line two after it. */
  predicate SkipLinesPresent(data: seq<string>) {
    forall i :: 0 <= i < |data| && Contains(data[i], PrintedMarker) ==> i + 2 < |data|
  }

  /** The step count after the last "step" line. */
  function DeclaredTotal(data: seq<string>): Option<int>
    requires CountLinesReadable(data)
  {
    match LastMarker(data, StepMarker)
    case Some(k) => Some(CountAt(data, k).value)
    case None => None
  }

  /** The tokens two lines after the last "printed" line, if there is one. */
  function DeclaredSkipTokens(data: seq<string>): seq<string>
    requires SkipLinesPresent(data)
  {
    match LastMarker(data, PrintedMarker)
    case Some(p) => Split(data[p + 2])
    case None => []
  }

  /** Some token of `tokens` reads as the integer `x`. */
  predicate Names(tokens: seq<string>, x: int) {
    exists t :: t in tokens && ParseInt(t) == Some(x)
  }

  /** `x` is listed, as an integer token, two lines after the last "printed" line. */
  predicate IsSkipped(data: seq<string>, x: int) {
    match LastMarker(data, PrintedMarker)
    case Some(p) => p + 2 < |data| && Names(Split(data[p + 2]), x)
    case None => false
  }

  /** The declared range start..N is empty (or there is no "step" line). */
  predicate NothingToPrint(data: seq<string>, includeZero: bool)
    requires CountLinesReadable(data)
  {
    DeclaredTotal(data).None? || DeclaredTotal(data).value < Start(includeZero)
  }

  lemma TotalStepsSucceeds(data: seq<string>, start: int)
    ensures TotalSteps(data, start).Success? <==> CountLinesReadable(data)
  {
    var extract := (i: nat) => TotalAt(data, start, i);
    assert TotalSteps(data, start) == ScanLast(data, StepMarker, extract, 0, []);
    ScanLastSucceeds(data, StepMarker, extract, 0, []);
    if CountLinesReadable(data) {
      forall j | 0 <= j < |data| && Contains(data[j], StepMarker)
        ensures extract(j).Success?
      {
        assert CountAt(data, j).Success?;
      }
    } else {
      var j :| 0 <= j < |data| && Contains(data[j], StepMarker) && CountAt(data, j).Failure?;
      assert extract(j).Failure?;
    }
  }

  lemma TotalStepsValue(data: seq<string>, start: int)
    requires TotalSteps(data, start).Success?
    ensures CountLinesReadable(data)
    ensures TotalSteps(data, start).value
        == match DeclaredTotal(data)
           case Some(n) => Range(start, n + 1)
           case None => []
  {
    TotalStepsSucceeds(data, start);
    var extract := (i: nat) => TotalAt(data, start, i);
    assert TotalSteps(data, start) == ScanLast(data, StepMarker, extract, 0, []);
    ScanLastValue(data, StepMarker, extract, 0, []);
    match LastMarker(data, StepMarker)
    case Some(k) =>
      assert CountAt(data, k).Success?;
      assert extract(k).value == Range(start, CountAt(data, k).value + 1);
    case None =>
  }

  lemma TotalStepsSpec(data: seq<string>, start: int)
    ensures TotalSteps(data, start).Success? <==> CountLinesReadable(data)
    ensures TotalSteps(data, start).Success? ==>
      TotalSteps(data, start).value
        == match DeclaredTotal(data)
           case Some(n) => Range(start, n + 1)
           case None => []
  {
    TotalStepsSucceeds(data, start);
    if TotalSteps(data, start).Success? {
      TotalStepsValue(data, start);
    }
  }

  lemma SkippedTokensSucceeds(data: seq<string>)
    ensures SkippedTokens(data).Success? <==> SkipLinesPresent(data)
  {
    var extract := (i: nat) => SkipTokensAt(data, i);
    assert SkippedTokens(data) == ScanLast(data, PrintedMarker, extract, 0, []);
    ScanLastSucceeds(data, PrintedMarker, extract, 0, []);
    if SkipLinesPresent(data) {
      forall j | 0 <= j < |data| && Contains(data[j], PrintedMarker)
        ensures extract(j).Success?
      {
        assert j + 2 < |data|;
      }
    } else {
      var j :| 0 <= j < |data| && Contains(data[j], PrintedMarker) && j + 2 >= |data|;
      assert extract(j).Failure?;
    }
  }

  lemma SkippedTokensValue(data: seq<string>)
    requires SkippedTokens(data).Success?
    ensures SkipLinesPresent(data)
    ensures SkippedTokens(data).value == DeclaredSkipTokens(data)
  {
    SkippedTokensSucceeds(data);
    var extract := (i: nat) => SkipTokensAt(data, i);
    assert SkippedTokens(data) == ScanLast(data, PrintedMarker, extract, 0, []);
    ScanLastValue(data, PrintedMarker, extract, 0, []);
  }

  lemma SkippedTokensSpec(data: seq<string>)
    ensures SkippedTokens(data).Success? <==> SkipLinesPresent(data)
    ensures SkippedTokens(data).Success? ==> SkippedTokens(data).value == DeclaredSkipTokens(data)
  {
    SkippedTokensSucceeds(data);
    if SkippedTokens(data).Success? {
      SkippedTokensValue(data);
    }
  }

  /**
   * When the `.sim` lines can be read, so that every "step" and "printed" line
   * has its follow-up line, the computation fails exactly on a skipped token
   * that is not an integer, and only when the declared range is non-empty.
   */
  lemma PrintedStepsSucceeds(data: seq<string>, includeZero: bool)
    ensures PrintedSteps(data, includeZero).Success? <==>
      (&& CountLinesReadable(data)
       && (|| NothingToPrint(data, includeZero)
           || (SkipLinesPresent(data) && forall t :: t in DeclaredSkipTokens(data) ==> ParseInt(t).Some?)))
  {
    var start := Start(includeZero);
    TotalStepsSpec(data, start);
    if CountLinesReadable(data) {
      var total := TotalSteps(data, start).value;
      assert |total| > 0 <==> !NothingToPrint(data, includeZero);
      if |total| > 0 {
        SkippedTokensSpec(data);
        if SkipLinesPresent(data) {
          ParseAllSucceeds(DeclaredSkipTokens(data));
        }
      } else {
        assert ParseAll([]).Success?;
      }
    }
  }

  /** The parsed values are exactly the values of the tokens. */
  lemma ParsedMembers(tokens: seq<string>, values: seq<int>)
    requires ParseAll(tokens) == Success(values)
    ensures forall x :: x in values <==> Names(tokens, x)
  {
    forall x | x in values
      ensures Names(tokens, x)
    {
      var k :| 0 <= k < |values| && values[k] == x;
      assert tokens[k] in tokens && ParseInt(tokens[k]) == Some(x);
    }
    forall x | Names(tokens, x)
      ensures x in values
    {
      var t :| t in tokens && ParseInt(t) == Some(x);
      var k :| 0 <= k < |tokens| && tokens[k] == t;
      assert values[k] == x;
    }
  }

  /** The parsed skip tokens are exactly the integers `IsSkipped` describes. */
  lemma SkippedMatches(data: seq<string>, skipped: seq<int>)
    requires SkipLinesPresent(data)
    requires ParseAll(DeclaredSkipTokens(data)) == Success(skipped)
    ensures forall x :: x in skipped <==> IsSkipped(data, x)
  {
    ParsedMembers(DeclaredSkipTokens(data), skipped);
    match LastMarker(data, PrintedMarker)
    case Some(p) =>
      assert DeclaredSkipTokens(data) == Split(data[p + 2]);
    case None =>
      assert skipped == [];
  }

  /**
   * A successful result is strictly ascending and holds exactly the steps from
   * the start bound up to the declared count that are not listed as skipped.
   */
  lemma PrintedStepsMembers(data: seq<string>, includeZero: bool, r: seq<int>)
    requires PrintedSteps(data, includeZero) == Success(r)
    ensures CountLinesReadable(data)
    ensures StrictlyIncreasing(r)
    ensures DeclaredTotal(data).None? ==> r == []
    ensures DeclaredTotal(data).Some? ==>
      forall x :: x in r <==> Start(includeZero) <= x <= DeclaredTotal(data).value && !IsSkipped(data, x)
  {
    var start := Start(includeZero);
    TotalStepsSpec(data, start);
    SkippedTokensSpec(data);
    var total := TotalSteps(data, start).value;
    var tokens := if |total| > 0 then SkippedTokens(data).value else [];
    var skipped := ParseAll(tokens).value;
    assert r == RemoveAll(total, skipped);
    match DeclaredTotal(data)
    case None =>
    case Some(n) =>
      RangeSpec(start, n + 1);
      if |total| > 0 {
        SkippedMatches(data, skipped);
      }
  }

  lemma SameMembersNonEmpty(a: seq<int>, b: seq<int>)
    requires forall x :: x in a <==> x in b
    ensures |b| > 0 ==> |a| > 0
  {
    if |b| > 0 {
      var x := b[0];
      assert x in b;
      assert x in a;
    }
  }

  /** A strictly increasing sequence is determined by its members. */
  lemma {:induction false} IncreasingUnique(a: seq<int>, b: seq<int>)
    requires StrictlyIncreasing(a) && StrictlyIncreasing(b)
    requires forall x :: x in a <==> x in b
    ensures a == b
    decreases |a|
  {
    SameMembersNonEmpty(a, b);
    SameMembersNonEmpty(b, a);
    if |a| > 0 {
      assert a[0] in a;
      assert b[0] in b;
      IncreasingTail(a);
      IncreasingTail(b);
      assert a[0] == b[0];
      IncreasingUnique(a[1..], b[1..]);
      assert a == [a[0]] + a[1..];
      assert b == [b[0]] + b[1..];
    }
  }
}
