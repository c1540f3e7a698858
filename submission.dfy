/** The submission check shared by the proposal and the defection pages:
    the six entered amounts must add up to the fixed total. */
module Submission {
  import opened Wrappers
  import opened GameConstants
  import opened AllocationCodec

  /** Python's sum(): a single amount is its own total, and amounts none
      of which is negative have a non-negative total. */
  function Sum(values: seq<int>): (r: int)
    ensures values == [] ==> r == 0
    ensures |values| == 1 ==> r == values[0]
    ensures (forall i :: 0 <= i < |values| ==> values[i] >= 0) ==> r >= 0
  {
    if values == [] then 0
    else
      var rest := Sum(values[1..]);
      assert (forall i :: 0 <= i < |values| ==> values[i] >= 0) ==>
        forall i :: 0 <= i < |values[1..]| ==> values[1..][i] >= 0;
      values[0] + rest
  }

  /** Sum is addition: the total of two stretches is the sum of their totals. */
  lemma {:induction false} SumAppend(a: seq<int>, b: seq<int>)
    ensures Sum(a + b) == Sum(a) + Sum(b)
  {
    if a == [] {
      assert a + b == b;
    } else {
      assert (a + b)[1..] == a[1..] + b;
      SumAppend(a[1..], b);
    }
  }

  /** What the error message reports: the required and the actual total. */
  datatype SumError = TotalMismatch(required: int, actual: int)

  /** error_message of ProposerDecision and of Defection: None lets the
      page advance, Some(e) sends the form back with the totals. */
  function ErrorMessage(values: seq<int>): (r: Option<SumError>)
    ensures r.None? <==> Sum(values) == TotalAmount
    ensures r.Some? ==> r.value == TotalMismatch(TotalAmount, Sum(values))
  {
    var total := Sum(values);
    if total != TotalAmount then Some(TotalMismatch(TotalAmount, total)) else None
  }

  /** No single non-negative amount exceeds the total of all of them. */
  lemma {:induction false} SlotAtMostSum(values: seq<nat>, i: int)
    requires 0 <= i < |values|
    ensures values[i] <= Sum(values)
  {
    assert Sum(values[1..]) >= 0;
    if i > 0 {
      SlotAtMostSum(values[1..], i - 1);
    }
  }

  /** An allocation the check accepts is stored so that reading it back
      gives the same amounts, which still total 50 and each lie in 0..50. */
  lemma AcceptedAllocationIsStoredIntact(values: seq<nat>)
    requires |values| == PlayersPerGroup
    requires ErrorMessage(values).None?
    ensures ParseAmounts(Encode(values)) == Some(values)
    ensures Sum(ParseAmounts(Encode(values)).value) == TotalAmount
    ensures forall i :: 0 <= i < |values| ==> 0 <= values[i] <= TotalAmount
  {
    EncodeRoundTrip(values);
    forall i | 0 <= i < |values| ensures values[i] <= TotalAmount {
      SlotAtMostSum(values, i);
    }
  }
}
