/** The app's records as objects: the per-round player and group, the
    session hook that assigns roles, and the page callbacks that write
    the group's fields and the players' payouts. */
module Game {
  import opened Wrappers
  import opened GameConstants
  import AllocationCodec
  import Turns
  import Tally
  import Payoff

  class Player {
    const idInGroup: int
    var isProposer: bool
    /** None until the player submits the Voting page. */
    var vote: Option<bool>
    /** allocation_p1 .. allocation_p6 in slot order: what get_allocations returns. */
    var allocationFields: seq<nat>
    /** The free-text allocation field (the app never assigns it). */
    var allocation: Option<string>
    var amountReceived: int
    var payoff: int
    /** participant.vars['phase_earnings']: the participant's ledger, which
        outlives this round's player record. An absent dictionary is the
        empty map. */
    var phaseEarnings: map<int, int>

    /** A player record as the framework creates it for a round. */
    constructor (id: int, ledger: map<int, int>)
      ensures idInGroup == id && !isProposer && vote == None
      ensures allocationFields == [] && allocation == None
      ensures amountReceived == 0 && payoff == 0 && phaseEarnings == ledger
    {
      idInGroup := id;
      isProposer := false;
      vote := None;
      allocationFields := [];
      allocation := None;
      amountReceived := 0;
      payoff := 0;
      phaseEarnings := ledger;
    }

    /** creating_session's mark on the member chosen to propose. */
    method MarkAsProposer()
      modifies this`isProposer
      ensures isProposer
    {
      isProposer := true;
    }

    /** One step of the payout loop: a rejected round pays nothing; an
        accepted one pays this member's slot, and a member past the end of
        the amounts (zip stops at the shorter list) keeps what it had. */
    method Receive(payout: Payoff.Payout, slot: nat)
      modifies this`amountReceived
      ensures amountReceived == Payoff.Received(payout, slot, old(amountReceived))
    {
      match payout {
        case AllZero =>
          amountReceived := 0;
        case Pay(amounts) =>
          if slot < |amounts| {
            amountReceived := amounts[slot];
          }
      }
    }

    /** One step of the ledger loop: create the proposer's entry at 0 when it
        is missing, add this round's amount, and show the entry as the payoff. */
    method CreditPhase(proposerId: int)
      modifies this`phaseEarnings, this`payoff
      ensures phaseEarnings == Payoff.Credit(old(phaseEarnings), proposerId, amountReceived)
      ensures payoff == Payoff.PhaseTotal(phaseEarnings, proposerId)
    {
      if proposerId !in phaseEarnings {
        phaseEarnings := phaseEarnings[proposerId := 0];
      }
      phaseEarnings := phaseEarnings[proposerId := phaseEarnings[proposerId] + amountReceived];
      payoff := phaseEarnings[proposerId];
    }
  }

  class Group {
    /** get_players(): the members in id order. */
    const players: seq<Player>
    var proposerAllocation: Option<string>
    var finalAllocation: Option<string>
    var votesAccept: int
    var votesReject: int
    var majorityAccepts: bool
    var proposerId: int
    var subRound: int
    var currentProposerIndex: int

    /** The framework's grouping: six players, the i-th with id_in_group i + 1. */
    ghost predicate Valid() {
      |players| == PlayersPerGroup &&
      forall i :: 0 <= i < |players| ==> players[i].idInGroup == i + 1
    }

    /** A group record as the framework creates it for a round, with the
        fields' declared initial values. */
    constructor (members: seq<Player>)
      requires |members| == PlayersPerGroup
      requires forall i :: 0 <= i < |members| ==> members[i].idInGroup == i + 1
      ensures Valid()
      ensures players == members
      ensures proposerAllocation == None && finalAllocation == None
      ensures votesAccept == 0 && votesReject == 0 && !majorityAccepts
      ensures subRound == 1 && currentProposerIndex == 1
    {
      players := members;
      proposerAllocation := None;
      finalAllocation := None;
      votesAccept := 0;
      votesReject := 0;
      majorityAccepts := false;
      proposerId := 0;
      subRound := 1;
      currentProposerIndex := 1;
    }

    /** What the tally reads of each member. */
    function Ballots(): (bs: seq<Tally.Ballot>)
      reads players
      ensures |bs| == |players|
      ensures forall i :: 0 <= i < |players| ==>
        bs[i] == Tally.Ballot(players[i].isProposer, players[i].vote)
    {
      seq(|players|, i reads players requires 0 <= i < |players| =>
        Tally.Ballot(players[i].isProposer, players[i].vote))
    }

    /** Group.majority_vote: the three tally fields, recomputed from the
        votes, which it leaves as they are; a repeated call therefore
        writes the same values again. */
    method MajorityVote()
      modifies this`votesAccept, this`votesReject, this`majorityAccepts
      ensures Tally.TallyResult(votesAccept, votesReject, majorityAccepts) == Tally.Tally(Ballots())
      ensures votesAccept + votesReject == Voters
      ensures majorityAccepts <==> votesAccept >= 3
      ensures Ballots() == old(Ballots())
    {
      var t := Tally.Tally(Ballots());
      votesAccept := t.votesAccept;
      votesReject := t.votesReject;
      majorityAccepts := t.majorityAccepts;
    }

    /** Group.advance_sub_round: below the last sub-round, move to the next
        one under the same proposer; at the last, restart at sub-round 1
        under the next proposer. */
    method AdvanceSubRound()
      modifies this`subRound, this`currentProposerIndex
      ensures Turns.TurnCounter(subRound, currentProposerIndex) ==
        Turns.Advance(Turns.TurnCounter(old(subRound), old(currentProposerIndex)))
      ensures old(subRound) < SubRounds ==>
        subRound == old(subRound) + 1 && currentProposerIndex == old(currentProposerIndex)
      ensures old(subRound) >= SubRounds ==>
        subRound == 1 && currentProposerIndex == old(currentProposerIndex) + 1
      ensures 1 <= old(subRound) <= SubRounds ==> 1 <= subRound <= SubRounds
    {
      if subRound < SubRounds {
        subRound := subRound + 1;
      } else {
        subRound := 1;
        currentProposerIndex := currentProposerIndex + 1;
      }
    }

    /** ProposerDecision.before_next_page: store the proposer's six amounts,
        comma-joined; reading the field back gives the same amounts. */
    method SubmitProposal(proposer: Player)
      modifies this`proposerAllocation
      ensures proposerAllocation == Some(AllocationCodec.Encode(proposer.allocationFields))
      ensures |proposer.allocationFields| >= 1 ==>
        AllocationCodec.SafeAmounts(proposerAllocation) == proposer.allocationFields
    {
      proposerAllocation := Some(AllocationCodec.Encode(proposer.allocationFields));
      if |proposer.allocationFields| >= 1 {
        AllocationCodec.SafeAmountsOfEncoded(proposer.allocationFields);
      }
    }

    /** Defection.before_next_page: store the replacement amounts the same way. */
    method SubmitDefection(proposer: Player)
      modifies this`finalAllocation
      ensures finalAllocation == Some(AllocationCodec.Encode(proposer.allocationFields))
      ensures |proposer.allocationFields| >= 1 ==>
        AllocationCodec.SafeAmounts(finalAllocation) == proposer.allocationFields
    {
      finalAllocation := Some(AllocationCodec.Encode(proposer.allocationFields));
      if |proposer.allocationFields| >= 1 {
        AllocationCodec.SafeAmountsOfEncoded(proposer.allocationFields);
      }
    }

    /** ResultsWaitPage.after_all_players_arrive: pay each member for the
        sub-round, then add the payment to the member's ledger entry for
        the current proposer and show that entry as the payoff. When the
        stored allocation does not parse, the exception is raised before any
        member is written. Only the three payout fields of the members change. */
    method AfterAllPlayersArrive() returns (error: Option<PyError>)
      requires Valid()
      modifies players`amountReceived, players`phaseEarnings, players`payoff
      ensures var payout := Payoff.ResolvePayout(majorityAccepts, finalAllocation, proposerAllocation);
        payout.Raises? ==>
          error == Some(payout.error) &&
          forall i :: 0 <= i < |players| ==> unchanged(players[i])
      ensures var payout := Payoff.ResolvePayout(majorityAccepts, finalAllocation, proposerAllocation);
        payout.Ok? ==>
          error == None &&
          forall i :: 0 <= i < |players| ==>
            && players[i].amountReceived == Payoff.Received(payout.value, i, old(players[i].amountReceived))
            && players[i].phaseEarnings ==
                 Payoff.Credit(old(players[i].phaseEarnings), proposerId, players[i].amountReceived)
            && players[i].payoff == Payoff.PhaseTotal(players[i].phaseEarnings, proposerId)
    {
      var payout := Payoff.ResolvePayout(majorityAccepts, finalAllocation, proposerAllocation);
      if payout.Raises? {
        return Some(payout.error);
      }
      PayMembers(payout.value);
      CreditMembers();
      error := None;
    }

    /** The payout loop of after_all_players_arrive: the member at position
        i gets the amount the payout gives slot i. */
    method PayMembers(payout: Payoff.Payout)
      requires Valid()
      modifies players`amountReceived
      ensures forall i :: 0 <= i < |players| ==>
        players[i].amountReceived == Payoff.Received(payout, i, old(players[i].amountReceived))
    {
      MembersDistinct();
      var i := 0;
      while i < |players|
        invariant 0 <= i <= |players|
        invariant forall j :: 0 <= j < i ==>
          players[j].amountReceived == Payoff.Received(payout, j, old(players[j].amountReceived))
        invariant forall j :: i <= j < |players| ==>
          players[j].amountReceived == old(players[j].amountReceived)
      {
        players[i].Receive(payout, i);
        i := i + 1;
      }
    }

    /** The ledger loop of after_all_players_arrive: every member's entry
        for the current proposer grows by what the member received, and the
        payoff shows the entry. */
    method CreditMembers()
      requires Valid()
      modifies players`phaseEarnings, players`payoff
      ensures forall i :: 0 <= i < |players| ==>
        && players[i].phaseEarnings ==
             Payoff.Credit(old(players[i].phaseEarnings), proposerId, players[i].amountReceived)
        && players[i].payoff == Payoff.PhaseTotal(players[i].phaseEarnings, proposerId)
    {
      MembersDistinct();
      var i := 0;
      while i < |players|
        invariant 0 <= i <= |players|
        invariant forall j :: 0 <= j < i ==>
          && players[j].phaseEarnings ==
               Payoff.Credit(old(players[j].phaseEarnings), proposerId, players[j].amountReceived)
          && players[j].payoff == Payoff.PhaseTotal(players[j].phaseEarnings, proposerId)
        invariant forall j :: i <= j < |players| ==>
          players[j].phaseEarnings == old(players[j].phaseEarnings)
      {
        players[i].CreditPhase(proposerId);
        i := i + 1;
      }
    }

    /** Different positions hold different players, since their ids differ. */
    lemma MembersDistinct()
      requires Valid()
      ensures forall i, j :: 0 <= i < j < |players| ==> players[i] != players[j]
    {
      forall i, j | 0 <= i < j < |players|
        ensures players[i] != players[j]
      {
        assert players[i].idInGroup == i + 1 && players[j].idInGroup == j + 1;
      }
    }

    /** A group whose only flagged member sits at position idx has one proposer. */
    lemma OneProposer(idx: int)
      requires 0 <= idx < |players|
      requires forall i :: 0 <= i < |players| ==> (players[i].isProposer <==> i == idx)
      ensures Tally.ProposerCount(Ballots()) == 1
    {
      Tally.SingleProposer(Ballots(), idx);
    }

    /** creating_session's bookkeeping on one group: the proposer's id and
        the sub-round the round number gives. */
    method RecordTurn(proposer: Player, roundNumber: int)
      modifies this`proposerId, this`subRound
      ensures proposerId == proposer.idInGroup
      ensures subRound == Turns.SubRound(roundNumber)
    {
      proposerId := proposer.idInGroup;
      subRound := Turns.SubRound(roundNumber);
    }
  }

  /** Every player of the given groups. */
  function AllPlayers(groups: seq<Group>): set<Player>
  {
    set j, i | 0 <= j < |groups| && 0 <= i < |groups[j].players| :: groups[j].players[i]
  }

  /** creating_session: in every group, mark the player at the round's
      proposer position as proposer and record its id and the sub-round.
      No other player's flag is touched, so in a fresh round (all flags
      False) each group ends with exactly one proposer. */
  method CreatingSession(roundNumber: int, groups: seq<Group>)
    requires forall j :: 0 <= j < |groups| ==> groups[j].Valid()
    modifies groups`proposerId, groups`subRound, AllPlayers(groups)`isProposer
    ensures forall j :: 0 <= j < |groups| ==>
      groups[j].proposerId == Turns.ProposerIndex(roundNumber) + 1 &&
      groups[j].subRound == Turns.SubRound(roundNumber)
    ensures forall j, i :: 0 <= j < |groups| && 0 <= i < |groups[j].players| ==>
      groups[j].players[i].isProposer ==
        (old(groups[j].players[i].isProposer) || i == Turns.ProposerIndex(roundNumber))
    ensures forall j :: 0 <= j < |groups| ==>
      (forall i :: 0 <= i < |groups[j].players| ==> !old(groups[j].players[i].isProposer)) ==>
      Tally.ProposerCount(groups[j].Ballots()) == 1
  {
    var idx := Turns.ProposerIndex(roundNumber);
    MarkProposers(roundNumber, groups);
    forall j | 0 <= j < |groups| && (forall i :: 0 <= i < |groups[j].players| ==> !old(groups[j].players[i].isProposer))
      ensures Tally.ProposerCount(groups[j].Ballots()) == 1
    {
      groups[j].OneProposer(idx);
    }
  }

  /** The loop of creating_session: one proposer marked and one turn
      recorded per group. */
  method MarkProposers(roundNumber: int, groups: seq<Group>)
    requires forall j :: 0 <= j < |groups| ==> groups[j].Valid()
    modifies groups`proposerId, groups`subRound, AllPlayers(groups)`isProposer
    ensures forall j :: 0 <= j < |groups| ==>
      groups[j].proposerId == Turns.ProposerIndex(roundNumber) + 1 &&
      groups[j].subRound == Turns.SubRound(roundNumber)
    ensures forall j, i :: 0 <= j < |groups| && 0 <= i < |groups[j].players| ==>
      groups[j].players[i].isProposer ==
        (old(groups[j].players[i].isProposer) || i == Turns.ProposerIndex(roundNumber))
  {
    var idx := Turns.ProposerIndex(roundNumber);
    ghost var marked: set<Player> := {};
    var k := 0;
    while k < |groups|
      invariant 0 <= k <= |groups|
      invariant forall j :: 0 <= j < k ==>
        groups[j].proposerId == idx + 1 && groups[j].subRound == Turns.SubRound(roundNumber)
      invariant forall j :: 0 <= j < k ==> groups[j].players[idx] in marked
      invariant forall p :: p in marked ==> p.idInGroup == idx + 1
      invariant forall j, i :: 0 <= j < |groups| && 0 <= i < |groups[j].players| ==>
        groups[j].players[i].isProposer ==
          (old(groups[j].players[i].isProposer) || groups[j].players[i] in marked)
    {
      var proposer := groups[k].players[idx];
      assert proposer in AllPlayers(groups);
      proposer.MarkAsProposer();
      groups[k].RecordTurn(proposer, roundNumber);
      marked := marked + {proposer};
      k := k + 1;
    }
  }
}
