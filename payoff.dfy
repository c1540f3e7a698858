/** The end of a round: what each player receives (ResultsWaitPage),
    the per-proposer phase ledger it is added to, and the two vectors and
    the defection flag the Results page derives from the stored strings. */
module Payoff {
  import opened Wrappers
  import opened GameConstants
  import opened AllocationCodec
  import opened Submission

  // ---------------------------------------------------------------------
  // The round's payout

  /** `field_maybe_none('final_allocation') or proposer_allocation`: Python's
      `or` passes over None and over the empty string alike. */
  function ChosenAllocation(finalAllocation: Option<string>, proposerAllocation: Option<string>): (r: Option<string>)
    ensures finalAllocation.Some? && finalAllocation.value != "" ==> r == finalAllocation
    ensures finalAllocation.None? || finalAllocation == Some("") ==> r == proposerAllocation
    ensures r.None? ==> proposerAllocation.None?
  {
    if finalAllocation.Some? && finalAllocation.value != "" then finalAllocation else proposerAllocation
  }

  /** What the payout loop assigns: zero to everyone, or the amounts
      paired with the players in order. */
  datatype Payout = AllZero | Pay(amounts: seq<int>)

  /** The first half of ResultsWaitPage.after_all_players_arrive, up to
      the point where amount_received is written: a rejected round pays
      nothing whatever was proposed; an accepted one parses the defection,
      or the proposal when there is none, and raises on a bad token before
      any player is touched. */
  function ResolvePayout(majorityAccepts: bool, finalAllocation: Option<string>,
                         proposerAllocation: Option<string>): (r: Outcome<Payout>)
    ensures !majorityAccepts ==> r == Ok(AllZero)
    ensures majorityAccepts ==> (r.Ok? ==> r.value.Pay?)
    ensures majorityAccepts && r.Ok? ==>
      r.value.amounts == SafeAmounts(ChosenAllocation(finalAllocation, proposerAllocation))
    ensures majorityAccepts ==>
      var chosen := ChosenAllocation(finalAllocation, proposerAllocation);
      (r.Ok? <==> chosen.Some? && ParseAmounts(chosen.value).Some?)
    ensures r.Raises? ==>
      var chosen := ChosenAllocation(finalAllocation, proposerAllocation);
      r.error == (if chosen.None? then AttributeError else ValueError)
  {
    if !majorityAccepts then Ok(AllZero)
    else
      var chosen := ChosenAllocation(finalAllocation, proposerAllocation);
      if chosen.None? then Raises(AttributeError)
      else match ParseAmounts(chosen.value)
        case None => Raises(ValueError)
        case Some(amounts) => Ok(Pay(amounts))
  }

  /** amount_received of the player at position i after the payout loop:
      `zip` stops at the shorter list, so a player past the end of the
      amounts keeps the value it had. */
  function Received(payout: Payout, i: nat, previous: int): (r: int)
    ensures payout.AllZero? ==> r == 0
    ensures payout.Pay? && i < |payout.amounts| ==> r == payout.amounts[i]
    ensures payout.Pay? && i >= |payout.amounts| ==> r == previous
  {
    match payout
    case AllZero => 0
    case Pay(amounts) => if i < |amounts| then amounts[i] else previous
  }

  /** With the strings the two submit pages store, an accepted round pays
      each player the slot of the defection if the proposer submitted one,
      and otherwise the slot of the proposal; a rejected one pays 0. */
  lemma PayoutFollowsAllocation(majorityAccepts: bool, proposal: seq<nat>,
                                defection: Option<seq<nat>>, i: nat, previous: int)
    requires |proposal| == PlayersPerGroup && i < PlayersPerGroup
    requires defection.Some? ==> |defection.value| == PlayersPerGroup
    ensures var finalAllocation := if defection.Some? then Some(Encode(defection.value)) else None;
      var r := ResolvePayout(majorityAccepts, finalAllocation, Some(Encode(proposal)));
      r.Ok? &&
      Received(r.value, i, previous) ==
        if !majorityAccepts then 0
        else if defection.Some? then defection.value[i] as int
        else proposal[i] as int
  {
    var finalAllocation := if defection.Some? then Some(Encode(defection.value)) else None;
    var chosen := ChosenAllocation(finalAllocation, Some(Encode(proposal)));
    var expected := if defection.Some? then defection.value else proposal;
    EncodeRoundTrip(proposal);
    if defection.Some? {
      EncodeRoundTrip(defection.value);
      assert chosen == Some(Encode(defection.value));
    }
    assert ParseAmounts(chosen.value) == Some(expected);
  }

  /** Amounts read from stored strings are never negative, so neither is
      what a player receives. */
  lemma ReceivedNonNegative(majorityAccepts: bool, proposal: seq<nat>,
                            defection: Option<seq<nat>>, i: nat, previous: int)
    requires |proposal| == PlayersPerGroup && i < PlayersPerGroup
    requires defection.Some? ==> |defection.value| == PlayersPerGroup
    ensures var finalAllocation := if defection.Some? then Some(Encode(defection.value)) else None;
      var r := ResolvePayout(majorityAccepts, finalAllocation, Some(Encode(proposal)));
      r.Ok? && Received(r.value, i, previous) >= 0
  {
    PayoutFollowsAllocation(majorityAccepts, proposal, defection, i, previous);
  }

  // ---------------------------------------------------------------------
  // The phase ledger: participant.vars['phase_earnings']

  /** `phase_earnings.get(proposer_id, 0)`. */
  function PhaseTotal(ledger: map<int, int>, proposerId: int): (r: int)
    ensures proposerId in ledger ==> r == ledger[proposerId]
    ensures proposerId !in ledger ==> r == 0
    ensures (forall k :: k in ledger ==> ledger[k] >= 0) ==> r >= 0
  {
    if proposerId in ledger then ledger[proposerId] else 0
  }

  /** One round's update of a player's ledger: the proposer's entry is
      created at 0 if missing and then increased by the amount received;
      every other proposer's entry stays as it was. */
  function Credit(ledger: map<int, int>, proposerId: int, amount: int): (r: map<int, int>)
    ensures proposerId in r && r[proposerId] == PhaseTotal(ledger, proposerId) + amount
    ensures forall k :: k != proposerId ==> (k in r <==> k in ledger)
    ensures forall k :: k != proposerId && k in ledger ==> r[k] == ledger[k]
  {
    ledger[proposerId := PhaseTotal(ledger, proposerId) + amount]
  }

  /** A non-negative amount never lowers any entry. */
  lemma CreditNeverDecreases(ledger: map<int, int>, proposerId: int, amount: int, k: int)
    requires amount >= 0
    ensures PhaseTotal(Credit(ledger, proposerId, amount), k) >= PhaseTotal(ledger, k)
  {
  }

  /** One finished round as the ledger sees it. */
  datatype RoundCredit = RoundCredit(proposerId: int, amount: int)

  /** The ledger after a sequence of rounds, oldest first. */
  function CreditAll(ledger: map<int, int>, rounds: seq<RoundCredit>): map<int, int>
    decreases |rounds|
  {
    if rounds == [] then ledger
    else CreditAll(Credit(ledger, rounds[0].proposerId, rounds[0].amount), rounds[1..])
  }

  /** What a proposer's rounds paid in total. */
  function AmountFor(rounds: seq<RoundCredit>, proposerId: int): int {
    if rounds == [] then 0
    else (if rounds[0].proposerId == proposerId then rounds[0].amount else 0) + AmountFor(rounds[1..], proposerId)
  }

  /** Each entry of the ledger is what it started at plus everything
      received in that proposer's rounds, and nothing from anyone else's. */
  lemma {:induction false} LedgerIsSumOfRounds(ledger: map<int, int>, rounds: seq<RoundCredit>, k: int)
    ensures PhaseTotal(CreditAll(ledger, rounds), k) == PhaseTotal(ledger, k) + AmountFor(rounds, k)
    decreases |rounds|
  {
    if rounds != [] {
      LedgerIsSumOfRounds(Credit(ledger, rounds[0].proposerId, rounds[0].amount), rounds[1..], k);
    }
  }

  lemma {:induction false} AmountForAppend(a: seq<RoundCredit>, b: seq<RoundCredit>, k: int)
    ensures AmountFor(a + b, k) == AmountFor(a, k) + AmountFor(b, k)
  {
    if a != [] {
      assert (a + b)[1..] == a[1..] + b;
      AmountForAppend(a[1..], b, k);
    } else {
      assert a + b == b;
    }
  }

  lemma {:induction false} AmountForNonNegative(rounds: seq<RoundCredit>, k: int)
    requires forall j :: 0 <= j < |rounds| ==> rounds[j].amount >= 0
    ensures AmountFor(rounds, k) >= 0
  {
    if rounds != [] {
      AmountForNonNegative(rounds[1..], k);
    }
  }

  /** Later rounds only ever add: with non-negative amounts no entry of
      the ledger is lower after more rounds. */
  lemma LedgerMonotone(ledger: map<int, int>, rounds: seq<RoundCredit>, more: seq<RoundCredit>, k: int)
    requires forall j :: 0 <= j < |more| ==> more[j].amount >= 0
    ensures PhaseTotal(CreditAll(ledger, rounds + more), k) >= PhaseTotal(CreditAll(ledger, rounds), k)
  {
    LedgerIsSumOfRounds(ledger, rounds + more, k);
    LedgerIsSumOfRounds(ledger, rounds, k);
    AmountForAppend(rounds, more, k);
    AmountForNonNegative(more, k);
  }

  // ---------------------------------------------------------------------
  // The Results page

  /** The proposal, the final vector shown beside it, and has_defected. */
  datatype ResultsVectors = ResultsVectors(initial: seq<int>, final: seq<int>, hasDefected: bool)

  function Zeros(n: nat): (z: seq<int>)
    ensures |z| == n && forall i :: 0 <= i < n ==> z[i] == 0
  {
    if n == 0 then [] else Zeros(n - 1) + [0]
  }

  /** Results.vars_for_template's vectors: the proposal is parsed without
      a guard; the final vector is all zeros when no defection was stored,
      the proposal when the stored defection is empty, and the parsed
      defection otherwise; has_defected says the two vectors differ. */
  function ResultsView(proposerAllocation: Option<string>, finalAllocation: Option<string>): (r: Outcome<ResultsVectors>)
    ensures proposerAllocation.None? ==> r == Raises(AttributeError)
    ensures r.Ok? ==> r.value.initial == SafeAmounts(proposerAllocation)
    ensures r.Ok? && finalAllocation.None? ==> r.value.final == Zeros(|r.value.initial|)
    ensures r.Ok? && finalAllocation == Some("") ==> r.value.final == r.value.initial && !r.value.hasDefected
    ensures r.Ok? && finalAllocation.Some? && finalAllocation.value != "" ==>
      r.value.final == SafeAmounts(finalAllocation)
    ensures r.Ok? ==> (r.value.hasDefected <==> r.value.final != r.value.initial)
    ensures r.Ok? <==>
      (proposerAllocation.Some? && ParseAmounts(proposerAllocation.value).Some? &&
       (finalAllocation.Some? && finalAllocation.value != "" ==> ParseAmounts(finalAllocation.value).Some?))
    ensures r.Raises? && proposerAllocation.Some? ==> r.error == ValueError
  {
    if proposerAllocation.None? then Raises(AttributeError)
    else match ParseAmounts(proposerAllocation.value)
      case None => Raises(ValueError)
      case Some(initial) =>
        if finalAllocation.None? then
          var final := Zeros(|initial|);
          Ok(ResultsVectors(initial, final, final != initial))
        else if finalAllocation.value == "" then
          Ok(ResultsVectors(initial, initial, false))
        else match ParseAmounts(finalAllocation.value)
          case None => Raises(ValueError)
          case Some(final) => Ok(ResultsVectors(initial, final, final != initial))
  }

  lemma {:induction false} SumZeros(n: nat)
    ensures Sum(Zeros(n)) == 0
  {
    if n > 0 {
      var z := Zeros(n);
      assert z == [0] + Zeros(n - 1);
      SumZeros(n - 1);
    }
  }

  /** As written, every rejected round reports a defection: no defection
      is stored, so the final vector is all zeros, and a proposal that
      passed the sum check is never all zeros. */
  lemma RejectionReportsDefection(proposal: seq<nat>)
    requires |proposal| == PlayersPerGroup && ErrorMessage(proposal).None?
    ensures ResultsView(Some(Encode(proposal)), None) ==
      Ok(ResultsVectors(proposal, Zeros(PlayersPerGroup), true))
  {
    EncodeRoundTrip(proposal);
    SumZeros(PlayersPerGroup);
    assert proposal != Zeros(PlayersPerGroup);
  }

  /** The defection flag as the field's name means it: set only when a
      defection was stored and it differs from the proposal. The vectors
      are those of ResultsView. */
  function ResultsViewCorrected(proposerAllocation: Option<string>, finalAllocation: Option<string>): (r: Outcome<ResultsVectors>)
    ensures finalAllocation.None? && r.Ok? ==> !r.value.hasDefected
    ensures r.Ok? <==> ResultsView(proposerAllocation, finalAllocation).Ok?
    ensures r.Ok? ==>
      (r.value.initial == ResultsView(proposerAllocation, finalAllocation).value.initial &&
       r.value.final == ResultsView(proposerAllocation, finalAllocation).value.final)
    ensures r.Ok? && finalAllocation.Some? ==> (r.value.hasDefected <==> r.value.final != r.value.initial)
  {
    match ResultsView(proposerAllocation, finalAllocation)
    case Raises(e) => Raises(e)
    case Ok(v) => Ok(v.(hasDefected := finalAllocation.Some? && v.hasDefected))
  }

  /** With the corrected flag, a rejected round shows no defection, and an
      accepted one shows a defection exactly when the stored defection
      differs from the proposal. */
  lemma CorrectedFlagMeansDefection(proposal: seq<nat>, defection: Option<seq<nat>>)
    requires |proposal| == PlayersPerGroup
    requires defection.Some? ==> |defection.value| == PlayersPerGroup
    ensures var finalAllocation := if defection.Some? then Some(Encode(defection.value)) else None;
      var r := ResultsViewCorrected(Some(Encode(proposal)), finalAllocation);
      r.Ok? && r.value.initial == proposal &&
      (r.value.hasDefected <==> defection.Some? && defection.value != proposal)
  {
    EncodeRoundTrip(proposal);
    if defection.Some? {
      EncodeRoundTrip(defection.value);
      assert Encode(defection.value) != "" by { EmptyDoesNotRoundTrip(); }
    }
  }

  /** The phase_earnings the Results page shows: the current proposer's
      total during the session, and every proposer's total (0 for one who
      never proposed) on the last round. */
  function PhaseEarningsDisplay(ledger: map<int, int>, proposerId: int, roundNumber: int): (m: map<int, int>)
    ensures roundNumber == NumRounds ==>
      (forall k :: k in m <==> 1 <= k <= PlayersPerGroup) &&
      (forall k :: k in m ==> m[k] == PhaseTotal(ledger, k))
    ensures roundNumber != NumRounds ==> m.Keys == {proposerId} && m[proposerId] == PhaseTotal(ledger, proposerId)
  {
    if roundNumber == NumRounds then map k | 1 <= k <= PlayersPerGroup :: PhaseTotal(ledger, k)
    else map[proposerId := PhaseTotal(ledger, proposerId)]
  }
}
