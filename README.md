# Proposer–defection game: a Dafny model of its turn and payoff logic

The oTree app `proposer_defection_game` runs a six-player bargaining game.
In every round one group member is the proposer. The proposer splits 50
among the six members. The other five vote to accept or reject the split.
After an accepted vote the proposer may "defect" and submit a different
split. The members are then paid, and each member's pay is added to a
ledger kept per proposer ("phase earnings").

This project models the logic that decides all of that, in
`proposer_defection_game/__init__.py`:

- `constants.dfy` (`GameConstants`): the app's constants: 6 players, 3
  sub-rounds per proposer, 12 rounds, a total of 50, and 5 voters.
- `wrappers.dfy` (`Wrappers`): `Option`, plus `Outcome`, which is either
  a value or a raised Python exception (`ValueError`, `IndexError`,
  `AttributeError`).
- `codec.dfy` (`AllocationCodec`): how allocations are stored and read.
  - A proposal or defection is stored as `','.join(str(a) ...)`.
  - It is read back with `split(',')` and `int(...)`, using Python's
    `str`, `int`, `str.strip`, `str.split` and `str.join`, written out
    character by character.
  - This gives the 1-based slot map (`get_allocation_dict`), the guarded
    readers of the Voting and Defection pages, `allocation_display` and
    `proposed_amount`, each with its exception or fallback path.
  - `int(x)` already ignores surrounding whitespace, so `int(x)` and
    `int(x.strip())` are the same function, `ParseInt`.
- `submission.dfy` (`Submission`): the `error_message` rule shared by the
  proposal and defection pages. An error is reported exactly when the six
  amounts do not total 50.
- `turns.dfy` (`Turns`): the round-number formulas `creating_session`
  uses for the proposer position and the sub-round. Also the
  `advance_sub_round` counter as a state machine, and how the two relate.
- `tally.dfy` (`Tally`): `majority_vote` over the members' roles and
  votes.
- `payoff.dfy` (`Payoff`): the payout of `after_all_players_arrive`, the
  per-proposer ledger update, and the vectors and `has_defected` flag of
  the Results page.
- `game.dfy` (`Game`): the records as objects.
  - `Player` and `Group` are classes whose fields the page callbacks
    update in place.
  - `get_allocations` is the `allocationFields` field, the six
    `allocation_pN` values in slot order.
  - Each of `majority_vote`, `advance_sub_round`, `creating_session`, the
    two `before_next_page` callbacks and `after_all_players_arrive` is a
    method.
  - Every such method is proved against the value-level functions above.

Two properties of the configuration are modelled as written:

- `NUM_ROUNDS` is 12, although its comment says 6 × 3 = 18. As a result
  only the members at positions 1–4 ever propose (`Turns.ConfiguredSessionSkipsLastTwo`).
  With 18 rounds every member would propose (`Turns.EighteenRoundsRotateEveryone`).
- `advance_sub_round` is defined but nothing calls it. The rotation is
  driven by the round-number formula in `creating_session`.
  - The two comparisons below assume one `advance_sub_round` call per
    round on a single record that persists across rounds. oTree creates a
    fresh group record every round, with `sub_round` and
    `current_proposer_index` back at 1, so the stored fields could never
    build up this way even if the method were called.
  - The counter agrees with the formula for the first 18 rounds (`Turns.CounterAgreesBeforeWrap`).
  - At round 19 they would part: the counter goes on to position 7 while
    the formula wraps to position 1 (`Turns.CounterPartsFromFormulaAtWrap`).

Money is an integer throughout. The majority test `votes_accept > 5 / 2`
is evaluated as `2 * votes_accept > 5`, which for integers is
`votes_accept >= 3`.

## Model

| member | source | states |
|---|---|---|
| AllocationCodec.NatToString | proposer_defection_game/__init__.py:193 | `str(n)` of a non-negative amount is a non-empty run of digits with no leading zero unless n is 0 |
| AllocationCodec.NumeralValueOfNatToString | proposer_defection_game/__init__.py:193 | the digits `str(n)` writes have the value n |
| AllocationCodec.NatToStringOfNumeral | proposer_defection_game/__init__.py:35 | a digit run without leading zeros is exactly `str` of its value, so decoding is injective on what `str` writes |
| AllocationCodec.Strip | proposer_defection_game/__init__.py:88 | `str.strip()` leaves text that neither starts nor ends with whitespace, and returns text that already does neither unchanged; `LStrip` removes only leading and `RStrip` only trailing whitespace |
| AllocationCodec.StripKeepsMiddle | proposer_defection_game/__init__.py:88 | `x.strip()` is the slice of x between its leading and its trailing run of whitespace: only outer whitespace is removed |
| AllocationCodec.ParseInt | proposer_defection_game/__init__.py:35 | `int` succeeds exactly when the stripped token is a digit run, optionally after one `+` or `-`; the value is the digit run's decimal value, negated after `-`; a blank token fails |
| AllocationCodec.ParseIntIgnoresStrip | proposer_defection_game/__init__.py:88 | `int(x.strip())` is `int(x)` for every x, so the stripped and unstripped readers decode alike |
| AllocationCodec.ParseIntOfNatToString | proposer_defection_game/__init__.py:35 | `int(str(n)) == n` for every non-negative n |
| AllocationCodec.ParseIntEmpty | proposer_defection_game/__init__.py:35 | `int('')` raises, so an empty token never decodes |
| AllocationCodec.Split | proposer_defection_game/__init__.py:35 | `split(',')` returns one piece more than the text has commas, so at least one |
| AllocationCodec.Join | proposer_defection_game/__init__.py:193 | `','.join` starts with the first piece, and pieces free of commas come out separated by exactly one comma each |
| AllocationCodec.SplitJoin | proposer_defection_game/__init__.py:35 | splitting on commas what was joined with commas gives back the pieces, provided none contains a comma |
| AllocationCodec.JoinSplit | proposer_defection_game/__init__.py:193 | joining with commas what was split on commas gives back the text |
| AllocationCodec.ParseAll | proposer_defection_game/__init__.py:35 | the list comprehension fails exactly when some token does not parse; otherwise it has one amount per token, and amount i is `int` of token i |
| AllocationCodec.ParseAmounts | proposer_defection_game/__init__.py:35 | decoding fails exactly when some comma-separated piece does not parse; otherwise amount i is `int` of piece i, one per piece |
| AllocationCodec.Numerals | proposer_defection_game/__init__.py:193 | `str` of each amount, one per amount, in order |
| AllocationCodec.NumeralsCommaFree | proposer_defection_game/__init__.py:193 | no decimal numeral `str` writes contains a comma |
| AllocationCodec.Encode | proposer_defection_game/__init__.py:191-193 | the stored string is empty exactly for an empty list; otherwise it splits back into the numerals of the amounts and has one comma fewer than amounts |
| AllocationCodec.ParseAllNumerals | proposer_defection_game/__init__.py:35 | `int` applied to the `str` of each amount gives back every amount |
| AllocationCodec.EncodeRoundTrip | proposer_defection_game/__init__.py:191-193 | decoding the stored string of a non-empty list of non-negative amounts gives back exactly that list |
| AllocationCodec.EmptyDoesNotRoundTrip | proposer_defection_game/__init__.py:193 | the empty list encodes to `''` and `''` does not decode: the round trip needs at least one amount |
| AllocationCodec.SlotMap | proposer_defection_game/__init__.py:36 | the enumerate dictionary has exactly the keys 1..n, and key k holds the k-th amount |
| AllocationCodec.AllocationDict | proposer_defection_game/__init__.py:33-36 | `get_allocation_dict` fails on an unset proposal and raises ValueError exactly when a token does not parse; otherwise its keys are 1..n and key k holds the k-th amount |
| AllocationCodec.AllocationDictOfEncoded | proposer_defection_game/__init__.py:33-36 | for a stored six-amount proposal the dictionary has keys 1..6 and maps i + 1 to the i-th amount |
| AllocationCodec.SafeAmounts | proposer_defection_game/__init__.py:207-213 | the guarded reader gives `[]` for an unset or empty field and for a string that does not parse, and otherwise the parsed amounts |
| AllocationCodec.SafeAmountsOfEncoded | proposer_defection_game/__init__.py:281-287 | the guarded reader returns a stored allocation intact |
| AllocationCodec.VotingAllocationDict | proposer_defection_game/__init__.py:207-214 | the Voting page's slot map is empty without a proposal, and otherwise maps k to the k-th amount read by the guarded reader |
| AllocationCodec.AllocationDisplay | proposer_defection_game/__init__.py:82-92 | `allocation_display` is `[]` for an unset, empty or unparsable string; it raises, and then only IndexError, exactly when the string parses to fewer than six amounts; when it parses to six or more it succeeds with the six pairs `(id, amount)` for ids 1..6 |
| AllocationCodec.IdPairs | proposer_defection_game/__init__.py:91-92 | the comprehension over the six members in id order pairs id i + 1 with amount i |
| AllocationCodec.AllocationDisplayOfEncoded | proposer_defection_game/__init__.py:82-92 | for a stored six-amount allocation the display pairs id i + 1 with the i-th amount |
| AllocationCodec.ProposedAmount | proposer_defection_game/__init__.py:94-99 | `proposed_amount` is 0 while there is no proposal; it succeeds exactly when there is none or the proposal parses and has the member's slot, and then it is that slot; it raises ValueError on an unparsable proposal and IndexError on a short one |
| AllocationCodec.ProposedAmountOfEncoded | proposer_defection_game/__init__.py:94-99 | for a stored six-amount proposal, member k's proposed amount is the k-th amount |
| Submission.Sum | proposer_defection_game/__init__.py:185 | `sum()` of no amounts is 0, of one amount is that amount, and of non-negative amounts is non-negative |
| Submission.SumAppend | proposer_defection_game/__init__.py:185 | the total of two stretches of amounts is the sum of their totals, so with the one-amount case `Sum` is the ordinary total |
| Submission.ErrorMessage | proposer_defection_game/__init__.py:184-187 | an error is reported exactly when the amounts do not total 50, and it names 50 and the actual total |
| Submission.SlotAtMostSum | proposer_defection_game/__init__.py:301-304 | no single non-negative amount exceeds the total |
| Submission.AcceptedAllocationIsStoredIntact | proposer_defection_game/__init__.py:184-193 | six amounts the check accepts decode back from the stored string unchanged, still total 50, and each lies in 0..50 |
| Turns.ProposerIndex | proposer_defection_game/__init__.py:108 | the proposer position is always a valid index 0..5 |
| Turns.SubRound | proposer_defection_game/__init__.py:114 | the sub-round is always in 1..3 |
| Turns.RoundInBlock | proposer_defection_game/__init__.py:108-114 | the three rounds of block b share the proposer position b mod 6 and are its sub-rounds 1, 2 and 3 |
| Turns.NextRound | proposer_defection_game/__init__.py:108-114 | from one round to the next, the proposer stays while the sub-round is below 3; after sub-round 3 the next position proposes at sub-round 1, wrapping after position 5 |
| Turns.ProposerBeforeWrap | proposer_defection_game/__init__.py:108 | in rounds 1..18 the proposer position is `(r - 1) div 3` |
| Turns.PhaseRoundInverse | proposer_defection_game/__init__.py:108-114 | in rounds 1..18 the round number and the pair (proposer position, sub-round) determine each other |
| Turns.ConfiguredSessionSkipsLastTwo | proposer_defection_game/__init__.py:12-14 | with 12 rounds only positions 0..3 propose, each for its three sub-rounds |
| Turns.EighteenRoundsRotateEveryone | proposer_defection_game/__init__.py:12-14 | with 18 rounds, as the comment says, every position would propose all three sub-rounds |
| Turns.Advance | proposer_defection_game/__init__.py:44-51 | one step of the counter keeps the sub-round in 1..3 |
| Turns.CounterFollowsFormula | proposer_defection_game/__init__.py:44-51 | after n steps from (1, 1) the counter is (sub-round of round n + 1, n div 3 + 1) |
| Turns.CounterAgreesBeforeWrap | proposer_defection_game/__init__.py:44-51 | for the first 18 rounds the counter names the same proposer and sub-round as the formula |
| Turns.CounterPartsFromFormulaAtWrap | proposer_defection_game/__init__.py:108 | at round 19 the counter reaches proposer 7 while the formula wraps back to proposer 1 |
| Tally.AcceptWeight | proposer_defection_game/__init__.py:40 | a member adds 1 to the accept count exactly when it is not the proposer and voted True, and 0 otherwise |
| Tally.AcceptVotes | proposer_defection_game/__init__.py:40 | the accept count never exceeds the number of non-proposers |
| Tally.Tally | proposer_defection_game/__init__.py:38-42 | `votes_accept` counts accepting non-proposers, accept + reject = 5, and the majority holds exactly when at least 3 accept |
| Tally.RolesPartitionGroup | proposer_defection_game/__init__.py:40 | every member is either a voter or a proposer, and every voter either accepts or not |
| Tally.SingleProposer | proposer_defection_game/__init__.py:109-110 | a group in which exactly one position is flagged has one proposer |
| Tally.NoProposer | proposer_defection_game/__init__.py:71 | a group with no flag set (the field's initial value) has no proposer |
| Tally.FullGroupTally | proposer_defection_game/__init__.py:38-42 | with six members and one proposer there are five voters, the reject count is the number of non-accepting voters, and both counts lie in 0..5 |
| Tally.AcceptVotesUpdate | proposer_defection_game/__init__.py:40 | changing one ballot changes the accept count by exactly that ballot's difference in weight |
| Tally.MissingVoteCountsAsReject | proposer_defection_game/__init__.py:40-42 | an unset vote tallies exactly like Reject |
| Tally.ProposerVoteIgnored | proposer_defection_game/__init__.py:40-42 | the proposer's own vote field never changes the tally |
| Tally.AcceptAddsOne | proposer_defection_game/__init__.py:40-41 | a voter switching to Accept adds one accept and removes one reject |
| Payoff.ChosenAllocation | proposer_defection_game/__init__.py:321 | `final_allocation or proposer_allocation` picks the defection when it is set and non-empty, and the proposal otherwise |
| Payoff.ResolvePayout | proposer_defection_game/__init__.py:318-323 | a rejected round pays 0 to everyone whatever was proposed; an accepted one succeeds exactly when the chosen string is set and parses, and then pays the parsed defection if one is set and non-empty, otherwise the parsed proposal; it raises AttributeError on an unset string and ValueError on an unparsable one |
| Payoff.Received | proposer_defection_game/__init__.py:317-324 | a rejected round writes 0; in an accepted one `zip` gives position i amount i, and a position past the end of the amounts keeps its previous value |
| Payoff.PayoutFollowsAllocation | proposer_defection_game/__init__.py:318-325 | with the strings the submit pages store, member i receives 0 on rejection, and otherwise slot i of the defection if there is one, else slot i of the proposal |
| Payoff.ReceivedNonNegative | proposer_defection_game/__init__.py:318-325 | with stored allocations no member ever receives a negative amount |
| Payoff.PhaseTotal | proposer_defection_game/__init__.py:363 | `phase_earnings.get(pid, 0)` is the entry when present and 0 otherwise, never negative on a ledger of non-negative entries |
| Payoff.Credit | proposer_defection_game/__init__.py:328-336 | the current proposer's entry becomes its old value (0 if missing) plus the amount; every other entry stays as it was and no entry is dropped |
| Payoff.CreditNeverDecreases | proposer_defection_game/__init__.py:333-336 | with a non-negative amount no ledger entry goes down |
| Payoff.LedgerIsSumOfRounds | proposer_defection_game/__init__.py:328-338 | after any sequence of rounds, each proposer's entry is its starting value plus the amounts of that proposer's rounds |
| Payoff.AmountForAppend | proposer_defection_game/__init__.py:336 | a proposer's earnings over two stretches of rounds are the sum of the two |
| Payoff.LedgerMonotone | proposer_defection_game/__init__.py:336 | further rounds with non-negative pay never lower any entry |
| Payoff.Zeros | proposer_defection_game/__init__.py:351 | `[0] * n` has n entries, all 0 |
| Payoff.ResultsView | proposer_defection_game/__init__.py:348-357 | the Results vectors: an unset proposal fails; the initial vector is the parsed proposal; the final vector is all zeros without a defection, the proposal for an empty one, and the parsed defection otherwise; `has_defected` holds exactly when the two differ; it succeeds exactly when the proposal is set and parses and a set, non-empty defection parses, and raises ValueError otherwise when the proposal is set |
| Payoff.RejectionReportsDefection | proposer_defection_game/__init__.py:350-357 | as written, a rejected round with a valid proposal shows a zero final vector and `has_defected` true |
| Payoff.ResultsViewCorrected | proposer_defection_game/__init__.py:357 | the corrected view fails exactly when the original fails and shows the same two vectors; the flag is never set without a stored defection, and with one it holds exactly when the vectors differ |
| Payoff.CorrectedFlagMeansDefection | proposer_defection_game/__init__.py:357 | with the corrected flag, a defection is shown exactly when one was stored and differs from the proposal |
| Payoff.PhaseEarningsDisplay | proposer_defection_game/__init__.py:358-368 | during the session the display holds only the current proposer's total; on the last round it holds every proposer 1..6, with 0 for one who never proposed |
| Game.Player.constructor | proposer_defection_game/__init__.py:71-80 | a new player record is not a proposer, has no vote and no allocation, has received 0, and carries the participant's ledger |
| Game.Player.MarkAsProposer | proposer_defection_game/__init__.py:110 | the chosen member's flag is set and nothing else of it changes |
| Game.Player.Receive | proposer_defection_game/__init__.py:318-325 | one step of the payout loop writes the amount `Payoff.Received` gives for the member's position, and only that field |
| Game.Player.CreditPhase | proposer_defection_game/__init__.py:328-338 | one step of the ledger loop applies `Payoff.Credit` for the current proposer, and the payoff equals the updated entry |
| Game.Group.constructor | proposer_defection_game/__init__.py:22-31 | a new group record holds the six members in id order, so it is well formed, and has the fields' declared initial values |
| Game.Group.Ballots | proposer_defection_game/__init__.py:40 | the tally reads each member's role and vote, in member order |
| Game.Group.MajorityVote | proposer_defection_game/__init__.py:38-42 | writes the three tally fields as `Tally.Tally` of the members' votes, with accept + reject = 5 and the ≥ 3 rule; the votes are left as they were, so a second call writes the same values |
| Game.Group.AdvanceSubRound | proposer_defection_game/__init__.py:44-51 | one `Turns.Advance` step: below 3 the sub-round grows and the proposer stays; at 3 the sub-round resets to 1 and the proposer index grows by exactly 1 |
| Game.Group.SubmitProposal | proposer_defection_game/__init__.py:189-193 | stores the comma-joined amounts, and reading the field back gives the proposer's amounts |
| Game.Group.SubmitDefection | proposer_defection_game/__init__.py:306-309 | stores the comma-joined replacement amounts, and reading the field back gives them |
| Game.Group.AfterAllPlayersArrive | proposer_defection_game/__init__.py:312-338 | when the chosen allocation cannot be read, the exception is raised and no member changes; otherwise every member receives `Payoff.Received`, the ledger entry grows by `Payoff.Credit`, and the payoff shows the entry. Only the three payout fields are written |
| Game.Group.PayMembers | proposer_defection_game/__init__.py:318-325 | the payout loop gives member i the amount for slot i, and a member past the end of the amounts keeps its value |
| Game.Group.CreditMembers | proposer_defection_game/__init__.py:328-338 | the ledger loop credits every member for the current proposer and shows the entry as the payoff |
| Game.Group.MembersDistinct | proposer_defection_game/__init__.py:105 | the six members of a group are six different records |
| Game.Group.OneProposer | proposer_defection_game/__init__.py:109-110 | a group whose only flagged member sits at the proposer position has exactly one proposer |
| Game.Group.RecordTurn | proposer_defection_game/__init__.py:111-114 | the group records the proposer's id and the round's sub-round |
| Game.CreatingSession | proposer_defection_game/__init__.py:103-114 | in every group: `proposer_id` is the proposer position + 1; the sub-round is the formula's; exactly the member at the proposer position gains the flag; in a fresh round there is exactly one proposer; nothing but these three fields is written |
| Game.MarkProposers | proposer_defection_game/__init__.py:105-114 | the loop over the groups: each group records proposer position + 1 and the formula's sub-round, and exactly the member at the proposer position gains the flag |

## Left out

- oTree page plumbing is not modelled: `is_displayed` gating, `page_sequence`, wait-page synchronisation, `app_after_this_page`, form rendering and `get_form_initial`. These are framework behaviour, and the wait pages are a concurrency barrier owned by oTree.
- Form-field clearing in `VotingWaitPage.before_next_page` (`:255-260`) is not modelled. It resets form state for the framework.
- Template dictionaries are modelled only for their computed values, and the display strings are left out.
- The `in_previous_rounds()` counts in `ProposerDecision.vars_for_template` and `Voting.vars_for_template` (`:172-175`, `:218-219`) are left out. They read round history kept by the framework and only feed template text.
- The current-proposer scan in `Voting.vars_for_template` (`:230-233`) is not modelled separately. Its role facts are `Tally.SingleProposer` and `Game.CreatingSession`.
- `set_payoffs` (`:119-137`) is not modelled, because it sits inside a string literal and never runs.
- `total_earnings` and `last_proposer_index` are never read or written by the logic and are left out.
- `import random` is unused and left out.
- Storage of records and of `participant.vars` is left out. `phase_earnings` is a `map` field on the player record; an absent dictionary is the empty map.
- Currency (`cu`) is not modelled: money is an integer, and `int(p.amount_received)` is the identity.
- The float division in `> (C.PLAYERS_PER_GROUP - 1) / 2` is not modelled as a float. It is evaluated exactly as an integer comparison.
- The model raises `AttributeError` wherever the source uses a string field that is unset, as Python does for `None.split`. oTree's own check on directly reading an unset field is framework behaviour and is not modelled. Likewise `not field` is taken as true for an unset field in `proposed_amount` (`:96`) and `allocation_display` (`:85`).
- AllocationCodec.ParseInt: accepts an optional sign followed by ASCII digits, surrounded by the ASCII characters `str.strip()` skips (space, `\t`, `\n`, `\v`, `\f`, `\r` and `\x1c`–`\x1f`). Python's `int` also accepts `_` digit separators and non-ASCII digits and whitespace; these are not modelled.
- AllocationCodec.AllocationDisplay: the success path takes `self.get_players()` (`:91`) to return the group's six members in id order. That method is documented on groups and subsessions, not on players, so as written `:91` most likely raises AttributeError for every parsable string; this raise is not modelled. The path is never reached in the app, because `Player.allocation` is never assigned, and an unset field returns `[]` at `:85-86` before `:91`.
- Game.Group.SubmitProposal, Game.Group.SubmitDefection: an unset form field is modelled by an empty `allocationFields`, so the stored string is `''`. In Python, `get_allocations()` (`:62-70`) on unset fields gives six `None`s, and `','.join(str(a) ...)` would store `'None,None,None,None,None,None'`. The forms require all six fields and set no timeout, so this case does not arise, and it is not modelled.
- `Game.Group.AfterAllPlayersArrive` models `group.proposer_id` as a plain integer. It is always set by `creating_session` before this callback runs.

## Findings

| source | as written | input that shows it | evidently intended | confidence | as-written member | corrected member |
|---|---|---|---|---|---|---|
| proposer_defection_game/__init__.py:350-357 | after a rejection no defection is stored, so the final vector is all zeros; `has_defected` compares it with the proposal, and a proposal totalling 50 is never all zeros, so the flag is true | a rejected round with proposal `10,10,10,10,5,5` and `final_allocation` unset: `has_defected` is true although the proposer never reached the Defection page | `has_defected` holds only when a defection was stored and differs from the proposal | medium, not executed | Payoff.RejectionReportsDefection | Payoff.CorrectedFlagMeansDefection |
