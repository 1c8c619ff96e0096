/**
 * A worked `.sim` file: the last "step" block declares 5 increments and the
 * last "printed" block lists 2 and 4 as not printed.
 */
module SimExample {
  import opened Wrappers
  import opened PyText
  import opened SimMetadata

  const ExampleData := ["step", "  5", "printed", "", "  2 4"]

  lemma ExampleMarkers()
    ensures LastMarker(ExampleData, StepMarker) == Some(0)
    ensures LastMarker(ExampleData, PrintedMarker) == Some(2)
  {
    ContainsNeedsFirst("printed", StepMarker);
    ContainsNeedsFirst("  2 4", StepMarker);
    assert Contains("step", StepMarker);
    assert Contains("printed", PrintedMarker);
    assert ExampleData[..4] == ["step", "  5", "printed", ""];
    assert ExampleData[..4][..3] == ["step", "  5", "printed"];
    assert ExampleData[..4][..3][..2] == ["step", "  5"];
    assert ExampleData[..4][..3][..2][..1] == ["step"];
    assert !Contains("  2 4", StepMarker) && !Contains("", StepMarker) && !Contains("  5", StepMarker);
    assert LastMarker(["step"], StepMarker) == Some(0);
    assert LastMarker(["step", "  5"], StepMarker) == Some(0);
    assert LastMarker(["step", "  5", "printed"], StepMarker) == Some(0);
    assert LastMarker(["step", "  5", "printed", ""], StepMarker) == Some(0);
  }

  lemma ExampleCountTokens()
    ensures Split("  5") == ["5"]
  {
    assert "  5"[1..] == " 5" && " 5"[1..] == "5";
    assert WordLen("5") == 1;
    assert "5"[..1] == "5" && "5"[1..] == "";
  }

  lemma ExampleSkipLineTokens()
    ensures Split("  2 4") == ["2", "4"]
  {
    assert "  2 4"[1..] == " 2 4" && " 2 4"[1..] == "2 4";
    assert WordLen("2 4") == 1;
    assert "2 4"[..1] == "2" && "2 4"[1..] == " 4" && " 4"[1..] == "4";
    assert WordLen("4") == 1;
    assert "4"[..1] == "4" && "4"[1..] == "";
  }

  lemma ExampleNumbers()
    ensures ParseInt("2") == Some(2) && ParseInt("4") == Some(4) && ParseInt("5") == Some(5)
  {
    assert NatToString(2) == "2" && NatToString(4) == "4" && NatToString(5) == "5";
    ParseIntRoundTrip(2);
    ParseIntRoundTrip(4);
    ParseIntRoundTrip(5);
  }

  /** The count line after the only "step" line declares 5. */
  lemma ExampleTotal()
    ensures CountLinesReadable(ExampleData) && DeclaredTotal(ExampleData) == Some(5)
  {
    ExampleMarkers();
    ExampleCountTokens();
    ExampleNumbers();
    assert ExampleData[0 + 1] == "  5";
    assert CountAt(ExampleData, 0) == Success(5);
    assert forall i :: 0 <= i < |ExampleData| && Contains(ExampleData[i], StepMarker) ==> i == 0;
  }

  /** The line two after the only "printed" line holds the tokens "2" and "4". */
  lemma ExampleSkipTokens()
    ensures SkipLinesPresent(ExampleData)
    ensures DeclaredSkipTokens(ExampleData) == ["2", "4"]
    ensures Split(ExampleData[2 + 2]) == ["2", "4"]
  {
    ExampleMarkers();
    ExampleSkipLineTokens();
    assert ExampleData[2 + 2] == "  2 4";
  }

  lemma ExampleSucceeds(includeZero: bool)
    ensures PrintedSteps(ExampleData, includeZero).Success?
  {
    ExampleTotal();
    ExampleSkipTokens();
    ExampleNumbers();
    assert forall t :: t in DeclaredSkipTokens(ExampleData) ==> ParseInt(t).Some?;
    PrintedStepsSucceeds(ExampleData, includeZero);
  }

  lemma ExampleSkipped(x: int)
    ensures IsSkipped(ExampleData, x) <==> x == 2 || x == 4
  {
    ExampleMarkers();
    ExampleSkipTokens();
    ExampleNumbers();
    var tokens := Split(ExampleData[2 + 2]);
    assert IsSkipped(ExampleData, x) <==> Names(tokens, x);
    if x == 2 {
      assert tokens[0] == "2";
    } else if x == 4 {
      assert tokens[1] == "4";
    }
  }

  lemma ExampleSteps(includeZero: bool, r: seq<int>)
    requires StrictlyIncreasing(r)
    requires forall x :: x in r <==> Start(includeZero) <= x <= 5 && !(x == 2 || x == 4)
    ensures r == if includeZero then [0, 1, 3, 5] else [1, 3, 5]
  {
    var expected := if includeZero then [0, 1, 3, 5] else [1, 3, 5];
    IncreasingUnique(r, expected);
  }

  /** Steps 1 to 5 without 2 and 4, and step 0 in front when asked for. */
  lemma PrintedStepsExample(includeZero: bool)
    ensures PrintedSteps(ExampleData, includeZero) == Success(if includeZero then [0, 1, 3, 5] else [1, 3, 5])
  {
    ExampleTotal();
    ExampleSucceeds(includeZero);
    var r := PrintedSteps(ExampleData, includeZero).value;
    PrintedStepsMembers(ExampleData, includeZero, r);
    forall x
      ensures x in r <==> Start(includeZero) <= x <= 5 && !(x == 2 || x == 4)
    {
      ExampleSkipped(x);
    }
    ExampleSteps(includeZero, r);
  }
}
