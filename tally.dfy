/** The voting tally of Group.majority_vote: only non-proposers count, a
    vote left unset counts as no acceptance, the reject count is found by
    subtraction from the five voters, and a strict majority of them must
    accept. */
module Tally {
  import opened Wrappers
  import opened GameConstants

  /** What majority_vote reads of one player: the role, and the vote
      (None while the field is unset). */
  datatype Ballot = Ballot(isProposer: bool, vote: Option<bool>)

  /** A non-proposer's `field_maybe_none('vote') or 0`: True adds 1,
      False and None add 0. A proposer adds nothing. */
  function AcceptWeight(b: Ballot): (w: nat)
    ensures w <= 1
    ensures w == 1 <==> !b.isProposer && b.vote == Some(true)
  {
    if !b.isProposer && b.vote == Some(true) then 1 else 0
  }

  function VoterCount(bs: seq<Ballot>): nat {
    if bs == [] then 0 else (if bs[0].isProposer then 0 else 1) + VoterCount(bs[1..])
  }

  function ProposerCount(bs: seq<Ballot>): nat {
    if bs == [] then 0 else (if bs[0].isProposer then 1 else 0) + ProposerCount(bs[1..])
  }

  /** Non-proposers whose vote is False or unset. */
  function NotAccepting(bs: seq<Ballot>): nat {
    if bs == [] then 0
    else (if !bs[0].isProposer && bs[0].vote != Some(true) then 1 else 0) + NotAccepting(bs[1..])
  }

  /** The sum over the group: the number of accepting non-proposers. */
  function AcceptVotes(bs: seq<Ballot>): (n: nat)
    ensures n <= VoterCount(bs)
  {
    if bs == [] then 0 else AcceptWeight(bs[0]) + AcceptVotes(bs[1..])
  }

  /** Group.votes_accept, votes_reject and majority_accepts. */
  datatype TallyResult = TallyResult(votesAccept: int, votesReject: int, majorityAccepts: bool)

  /** majority_vote's three fields. `votes_accept > 5 / 2` compares with
      2.5, written here without fractions as 2 * accept > 5. */
  function Tally(bs: seq<Ballot>): (t: TallyResult)
    ensures t.votesAccept == AcceptVotes(bs)
    ensures t.votesAccept + t.votesReject == Voters
    ensures t.majorityAccepts <==> t.votesAccept >= 3
  {
    var accept := AcceptVotes(bs);
    TallyResult(accept, Voters - accept, 2 * accept > Voters)
  }

  lemma {:induction false} RolesPartitionGroup(bs: seq<Ballot>)
    ensures VoterCount(bs) + ProposerCount(bs) == |bs|
    ensures AcceptVotes(bs) + NotAccepting(bs) == VoterCount(bs)
  {
    if bs != [] {
      RolesPartitionGroup(bs[1..]);
    }
  }

  /** A group in which exactly the player at position idx is marked
      proposer has one proposer. */
  lemma {:induction false} SingleProposer(bs: seq<Ballot>, idx: int)
    requires 0 <= idx < |bs|
    requires forall i :: 0 <= i < |bs| ==> (bs[i].isProposer <==> i == idx)
    ensures ProposerCount(bs) == 1
  {
    if idx == 0 {
      NoProposer(bs[1..]);
    } else {
      SingleProposer(bs[1..], idx - 1);
    }
  }

  lemma {:induction false} NoProposer(bs: seq<Ballot>)
    requires forall i :: 0 <= i < |bs| ==> !bs[i].isProposer
    ensures ProposerCount(bs) == 0
  {
    if bs != [] {
      NoProposer(bs[1..]);
    }
  }

  /** In a full group with exactly one proposer there are five voters, the
      reject count is the number of them who did not vote True (an unset
      vote counts as a reject), and both counts lie in 0..5. */
  lemma FullGroupTally(bs: seq<Ballot>)
    requires |bs| == PlayersPerGroup && ProposerCount(bs) == 1
    ensures VoterCount(bs) == Voters
    ensures Tally(bs).votesReject == NotAccepting(bs)
    ensures 0 <= Tally(bs).votesAccept <= Voters && 0 <= Tally(bs).votesReject <= Voters
  {
    RolesPartitionGroup(bs);
  }

  /** Changing one ballot changes the accept count by the difference of
      the two ballots' weights and by nothing else. */
  lemma {:induction false} AcceptVotesUpdate(bs: seq<Ballot>, i: int, b: Ballot)
    requires 0 <= i < |bs|
    ensures AcceptVotes(bs[i := b]) == AcceptVotes(bs) - AcceptWeight(bs[i]) + AcceptWeight(b)
  {
    if i > 0 {
      assert bs[i := b][1..] == bs[1..][i - 1 := b];
      AcceptVotesUpdate(bs[1..], i - 1, b);
    } else {
      assert bs[i := b][1..] == bs[1..];
    }
  }

  /** A vote left unset tallies exactly as an explicit Reject. */
  lemma MissingVoteCountsAsReject(bs: seq<Ballot>, i: int)
    requires 0 <= i < |bs| && bs[i].vote == None
    ensures Tally(bs[i := bs[i].(vote := Some(false))]) == Tally(bs)
  {
    AcceptVotesUpdate(bs, i, bs[i].(vote := Some(false)));
  }

  /** Whatever the proposer's own vote field holds, the tally is the same. */
  lemma ProposerVoteIgnored(bs: seq<Ballot>, i: int, v: Option<bool>)
    requires 0 <= i < |bs| && bs[i].isProposer
    ensures Tally(bs[i := bs[i].(vote := v)]) == Tally(bs)
  {
    AcceptVotesUpdate(bs, i, bs[i].(vote := v));
  }

  /** One voter switching to Accept adds exactly one accept vote, and
      takes one from the reject count. */
  lemma AcceptAddsOne(bs: seq<Ballot>, i: int)
    requires 0 <= i < |bs| && !bs[i].isProposer && bs[i].vote != Some(true)
    ensures Tally(bs[i := bs[i].(vote := Some(true))]).votesAccept == Tally(bs).votesAccept + 1
    ensures Tally(bs[i := bs[i].(vote := Some(true))]).votesReject == Tally(bs).votesReject - 1
  {
    AcceptVotesUpdate(bs, i, bs[i].(vote := Some(true)));
  }
}
