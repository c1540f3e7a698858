/** The session constants of the game (class C of the app). */
module GameConstants {
  const PlayersPerGroup: nat := 6
  const SubRounds: nat := 3
  /** As configured: 12 rounds, although 6 proposers x 3 sub-rounds would be 18. */
  const NumRounds: nat := 12
  /** The amount every proposal and defection must distribute. */
  const TotalAmount: int := 50
  /** Non-proposers who vote in a round. */
  const Voters: nat := PlayersPerGroup - 1
}
