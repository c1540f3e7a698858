/** Whose turn it is: the proposer and the sub-round of a round, computed
    from the round number by creating_session, and the incremental
    counter of Group.advance_sub_round, which the app never calls. */
module Turns {
  import opened GameConstants

  /** 0-based position of the round's proposer in the group's player
      order. Python's // and % agree with Dafny's / and % here because the
      divisors are positive. */
  function ProposerIndex(roundNumber: int): (i: int)
    ensures 0 <= i < PlayersPerGroup
  {
    ((roundNumber - 1) / SubRounds) % PlayersPerGroup
  }

  /** The sub-round 1..3 of the round within its proposer's phase. */
  function SubRound(roundNumber: int): (s: int)
    ensures 1 <= s <= SubRounds
  {
    ((roundNumber - 1) % SubRounds) + 1
  }

  /** Round 3b + k + 1 is sub-round k + 1 of block b, whose proposer is
      b mod 6. */
  lemma RoundInBlock(b: int, k: int)
    requires 0 <= k < SubRounds
    ensures ProposerIndex(SubRounds * b + k + 1) == b % PlayersPerGroup
    ensures SubRound(SubRounds * b + k + 1) == k + 1
  {
    var r := SubRounds * b + k + 1;
    assert (r - 1) / SubRounds == b;
    assert (r - 1) % SubRounds == k;
  }

  /** From one round to the next, the proposer stays for sub-rounds 1..3
      and then passes to the next position, wrapping after the sixth. */
  lemma NextRound(r: int)
    ensures SubRound(r) < SubRounds ==>
      SubRound(r + 1) == SubRound(r) + 1 && ProposerIndex(r + 1) == ProposerIndex(r)
    ensures SubRound(r) == SubRounds ==>
      SubRound(r + 1) == 1 && ProposerIndex(r + 1) == (ProposerIndex(r) + 1) % PlayersPerGroup
  {
    var q, k := (r - 1) / SubRounds, (r - 1) % SubRounds;
    assert r == SubRounds * q + k + 1;
    RoundInBlock(q, k);
    if k + 1 < SubRounds {
      RoundInBlock(q, k + 1);
    } else {
      RoundInBlock(q + 1, 0);
      assert (q + 1) % PlayersPerGroup == (q % PlayersPerGroup + 1) % PlayersPerGroup;
    }
  }

  /** While the rotation has not wrapped, the proposer of round r is at
      position (r - 1) div 3. */
  lemma ProposerBeforeWrap(r: int)
    requires 1 <= r <= PlayersPerGroup * SubRounds
    ensures ProposerIndex(r) == (r - 1) / SubRounds
  {
    var q, k := (r - 1) / SubRounds, (r - 1) % SubRounds;
    assert r == SubRounds * q + k + 1;
    RoundInBlock(q, k);
  }

  /** The round in which position i plays sub-round s, while the rotation
      has not wrapped. */
  function PhaseRound(i: int, s: int): int {
    SubRounds * i + s
  }

  /** Up to round 18, the round number and the pair (proposer position,
      sub-round) determine each other. */
  lemma PhaseRoundInverse(r: int, i: int, s: int)
    requires 0 <= i < PlayersPerGroup && 1 <= s <= SubRounds
    requires 1 <= r <= PlayersPerGroup * SubRounds
    ensures ProposerIndex(PhaseRound(i, s)) == i && SubRound(PhaseRound(i, s)) == s
    ensures PhaseRound(ProposerIndex(r), SubRound(r)) == r
  {
    RoundInBlock(i, s - 1);
    var q, k := (r - 1) / SubRounds, (r - 1) % SubRounds;
    assert r == SubRounds * q + k + 1;
    RoundInBlock(q, k);
  }

  /** With the configured 12 rounds only the first four positions ever
      propose, in their three consecutive rounds; positions 5 and 6 never do. */
  lemma ConfiguredSessionSkipsLastTwo()
    ensures forall r :: 1 <= r <= NumRounds ==> ProposerIndex(r) < PlayersPerGroup - 2
    ensures forall i, s :: 0 <= i < PlayersPerGroup - 2 && 1 <= s <= SubRounds ==>
      1 <= PhaseRound(i, s) <= NumRounds && ProposerIndex(PhaseRound(i, s)) == i
  {
    forall r | 1 <= r <= NumRounds ensures ProposerIndex(r) < PlayersPerGroup - 2 {
      ProposerBeforeWrap(r);
    }
    forall i, s | 0 <= i < PlayersPerGroup - 2 && 1 <= s <= SubRounds
      ensures ProposerIndex(PhaseRound(i, s)) == i
    {
      RoundInBlock(i, s - 1);
    }
  }

  /** 6 x 3 = 18 rounds, the number the configuration's comment names,
      would give every position its three sub-rounds. */
  lemma EighteenRoundsRotateEveryone()
    ensures forall i, s :: 0 <= i < PlayersPerGroup && 1 <= s <= SubRounds ==>
      1 <= PhaseRound(i, s) <= PlayersPerGroup * SubRounds &&
      ProposerIndex(PhaseRound(i, s)) == i && SubRound(PhaseRound(i, s)) == s
  {
    forall i, s | 0 <= i < PlayersPerGroup && 1 <= s <= SubRounds
      ensures ProposerIndex(PhaseRound(i, s)) == i && SubRound(PhaseRound(i, s)) == s
    {
      RoundInBlock(i, s - 1);
    }
  }

  // ---------------------------------------------------------------------
  // The incremental counter

  /** Group.sub_round and Group.current_proposer_index. */
  datatype TurnCounter = TurnCounter(subRound: int, proposerIndex: int)

  /** Their initial values (both fields default to 1). */
  const InitialCounter := TurnCounter(1, 1)

  /** One call of advance_sub_round. */
  function Advance(c: TurnCounter): (r: TurnCounter)
    ensures 1 <= c.subRound <= SubRounds ==> 1 <= r.subRound <= SubRounds
  {
    if c.subRound < SubRounds then TurnCounter(c.subRound + 1, c.proposerIndex)
    else TurnCounter(1, c.proposerIndex + 1)
  }

  /** n calls of advance_sub_round. */
  function AdvanceTimes(c: TurnCounter, n: nat): TurnCounter {
    if n == 0 then c else Advance(AdvanceTimes(c, n - 1))
  }

  /** After n calls from the initial state, the counter holds the
      sub-round of round n + 1 and the 1-based number of the block it is
      in; the index is never reduced modulo the group size. */
  lemma {:induction false} CounterFollowsFormula(n: nat)
    ensures AdvanceTimes(InitialCounter, n) == TurnCounter(SubRound(n + 1), n / SubRounds + 1)
  {
    if n > 0 {
      CounterFollowsFormula(n - 1);
      NextRound(n);
      var q, k := (n - 1) / SubRounds, (n - 1) % SubRounds;
      assert n - 1 == SubRounds * q + k;
      if k + 1 < SubRounds {
        assert n / SubRounds == q;
      } else {
        assert n / SubRounds == q + 1;
      }
    }
  }

  /** Up to round 18 the counter and the formula name the same proposer
      (the counter 1-based, as proposer_id is) and the same sub-round.
      This compares a counter advanced once per round on one persisting
      record; oTree gives every round a fresh group record at (1, 1), so
      the fields as stored never build up. */
  lemma CounterAgreesBeforeWrap(n: nat)
    requires n < PlayersPerGroup * SubRounds
    ensures AdvanceTimes(InitialCounter, n).proposerIndex == ProposerIndex(n + 1) + 1
    ensures AdvanceTimes(InitialCounter, n).subRound == SubRound(n + 1)
  {
    CounterFollowsFormula(n);
    ProposerBeforeWrap(n + 1);
  }

  /** At round 19 the two would part: the formula wraps back to the first
      player, the counter goes on to a seventh. */
  lemma CounterPartsFromFormulaAtWrap()
    ensures AdvanceTimes(InitialCounter, PlayersPerGroup * SubRounds).proposerIndex == PlayersPerGroup + 1
    ensures ProposerIndex(PlayersPerGroup * SubRounds + 1) + 1 == 1
  {
    CounterFollowsFormula(PlayersPerGroup * SubRounds);
  }
}
