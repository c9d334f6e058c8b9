# Verified models of ten Mindmint contracts

A Dafny project that models ten of the Soroban contracts as state
machines over their storage and proves what they promise over whole runs.

Each contract comes in two layers and a set of laws. A *state machine* (`Governance`,
`DelegationGraph`, `AchievementBooks`, `LeaderboardRuns`, `InsuranceRuns`,
`CharityRuns`, `RouterRuns`, `MetadataRuns`, `RewardRuns`, `CertificateRuns`) says
for every call which states accept it and what the next state is; `Runs` supplies
runs, reachability and the one induction they all need, and the theorems quantify
over every reachable state. The `...Examples` modules hold reachable states in which
a promise fails. A *class* (`GovernanceToken`, `DelegationContract`,
`AchievementSets`, `Leaderboard`, `CharityContract`, `Insurance`, `CrossContract`,
`DynamicMetadata`, `ConditionalReward`, `Certificates`) holds the storage maps as
fields and updates them in place with the contract's own loops; every method is
proved to take the storage exactly where the state machine says, or to leave it
untouched. Where the contract keeps a fast form of something (checkpoints, a
reverse index, a truncated list, trimmed claims, one rate counter, a cached URI),
the state machine keeps the plain form and the class is proved to agree with it.
The `...Laws` modules say of each call when it is accepted and what it does to each
account, key or token, in the contract's terms and without the functions the state
machine and the class are written with; the theorems about runs build on both.

Conventions. A panic is a result of `false` or `None` with the state unchanged; the
release profile checks overflows (`Cargo.toml:123`), so an overflow is a panic too.
Ledger time and sequence are inputs that never go back. Calls to other contracts
(tokens, NFT and identity contracts, message targets) are arbitrary answers passed
in with the call and cannot re-enter. Addresses, symbols and byte strings are
opaque values. A signature check is the caller being the address in question.

## Where the code and its documentation disagree

The model follows the code. Each case has the exact condition under which the promise
holds or a theorem that it never does, and where it fails a reachable state as a rule.

- A vote is documented to weigh the snapshot power, but falls back to the current
  power when that is zero (`GovernanceTheorems.WeightIsSnapshotPower`; run:
  `GovernanceExamples.LateTokensVote`). With a voting delay the votes from nonzero
  snapshot power are bounded by the snapshot supply (`DelayedVotesAreBounded`). Without
  one votes can be cast in the snapshot ledger itself; they weigh the power of that
  moment (`SameLedgerWeightIff`), and tokens can vote, move and vote again (run:
  `GovernanceExamples.TokensVoteTwice`).
- Queueing and executing set Defeated and Expired and then panic, so neither is ever
  stored (`GovernanceTheorems.ProposalsSettle`).
- "Circular delegation" is only detected up to ten accounts: a delegation closes a
  cycle exactly if the delegator comes first on the chain after more than ten
  (`DelegationGraph.StepKeepsAcyclicIff`; run: `ElevenCycleIsReachable`).
- A set that requires a puzzle twice can be created but never completed
  (`AchievementBooks.CompleteIff`, `AchievementExamples.RepeatedSetsStayUnclaimed`; run:
  `RepeatedPuzzleIsRefused`).
- The leaderboard's lists are the top of their tables until an administrator replaces
  a score or changes the cap in a way that does not fit; `LeaderboardRuns.ListsStrayIff`
  says exactly which calls do that. A raised cap leaves out players of earlier
  submissions (`LeaderboardExamples.RaisedCapMissesPlayers`), a lowered one makes a
  list overflow and skip players (`LoweredCapSkipsPlayers`), and a lowered score hides a
  better player (`LoweredScoreHidesPlayers`).
- The leaderboard's days and weeks go by number. They are stretches of time until an
  administrator changes the length of a period so that an earlier score would have
  another number (`LeaderboardPeriods.MisfiledIff`, `UnchangedLengthsTellTheTime`); then
  scores of different days share a board (run: `LeaderboardExamples.NewLengthMixesDays`).
- A record is the highest score ever reached by submitting; replaced scores do not touch
  it (`LeaderboardRuns.HighScoreIsHighestReached`, `RecordStraysIff`).
- The leaderboard's number of players counts a player again whose total is still zero
  (`LeaderboardRuns.PlayerCountIff`; run: `LeaderboardExamples.ZeroScoreCountsTwice`).
- A charity's match is bounded per payment only: nothing stops the administrator from
  distributing again for the same donations (`CharityRuns.MatchingIsBoundedPerRound`,
  `DistributionsRepeat`; run: `CharityExamples.MatchedTwice`).
- The charity leaderboard is documented as the top ten donors. A donor who was dropped
  and gives again starts at zero: `CharityTopTen.TopTenStraysIff` says exactly which
  donations spoil the board (run: `CharityExamples.DroppedDonorReturns`).
- The claim cooldown is skipped exactly after a claim at time 0
  (`InsuranceProofs.CooldownIsSkippedIff`; run: `InsuranceExamples.TwoClaimsAtTimeZero`).
- The premium pool can go negative (`InsuranceProofs.NegativePoolIff`; run:
  `InsuranceExamples.PoolGoesNegative`). A policy's status is never set to Expired
  (`InsuranceProofs.PoliciesNeverExpire`).
- The host may discard what a failed processing call wrote. Then the Failed and
  CallbackFailed statuses never appear and a failing message blocks the queue; both
  outcomes are modelled (`RouterRuns.HeadAdvancesIff`, `DiscardedFailuresLeaveNoTrace`).
- A changed base URI is documented to invalidate all URIs
  (`contracts/dynamic_metadata/README.md:168-169`) but leaves cached ones alone: a
  current URI becomes stale exactly when the base changes while it is cached
  (`MetadataTheorems.UriStaysCurrentIff`; run: `MetadataExamples.StaleUriIsReachable`).
- Ownership rules are documented to count distinct owners
  (`contracts/dynamic_metadata/README.md:91-92`) but count mints and transfers: the two
  numbers agree exactly if nobody received the token twice
  (`MetadataTokens.OwnerEventsIff`, `OwnershipRuleIff`; run:
  `MetadataExamples.ReturningOwnerFiresRule`).
- Freezing is documented to lock the image too
  (`contracts/dynamic_metadata/src/lib.rs:22-24`), but the URI shown for a frozen token
  can still change with the base (`MetadataTheorems.FrozenUriChangesIff`; run:
  `MetadataExamples.FrozenUriMoves`), and a migration does not look at the flag
  (`MigrationIgnoresFreezing`; run: `MetadataExamples.FrozenTokenMigrates`).
- The score is documented to mirror the metrics; it does as long as none is lowered
  (`MetadataTheorems.ScoreMirrorsIff`, `ScoreMirrorsOverRunIff`; run:
  `MetadataExamples.LoweredMetricBreaksMirror`).
- The record of a mint is documented to name the owner as the owner before
  (`contracts/dynamic_metadata/src/lib.rs:151`) but names the minter
  (`MetadataTheorems.MintRecordNamesOwnerIff`; run: `MetadataExamples.MintedForAnother`).
- A burnt token is documented as stopped but can be transferred
  (`MetadataTheorems.BurnIsNotFinal`; run: `MetadataExamples.BurntTokenReturns`). Trait
  evolution is documented to bump the level but cannot
  (`MetadataTokens.EvolutionNeverLevelsUp`). The version added by an update is documented
  as the state before and is the new one (`MetadataTheorems.VersionsAreNumbered`).

## Main results

- Calls, account by account: `TransferFromPays`, `MatchIsQuadratic`, `SetClaimNeedsPuzzles`,
  `GrantsAreEarned`, `TriggersCountReached`, `LastRuleGivesTrait`, `EligibilityIsFulfilment`,
  `ClaimIsTaken`, `SendingStores`.
- Voting: `VotesAreConserved`, `PastVotesNeverChange`, `GetPastVotes`,
  `SnapshotVotesAreBounded`, `DelayedTallyIsBounded`, `SameLedgerWeightIff`,
  `ExecutionsAreLawful`, `Replay`.
- Delegation: `NoShortCycles`, `StepKeepsAcyclicIff`, `PowerNeverExceedsBalances`.
- Leaderboards: `RefreshKeepsTopN`, `ListsAreTopNOfSubmissions`, `ListsStrayIff`,
  `MisfiledIff`, `UnchangedLengthsTellTheTime`, `RecordStraysIff`, `GlobalBoardIsTopN`,
  `TopTenStraysIff`.
- Money: `FundingIsExact`, `MatchingIsBoundedPerRound`, `NegativePoolIff`, `Sqrt` with
  `RootsSquared`.
- Claims and rates: `ClaimsPerWindowAreLimited`, `CheckFraud`, `SendersAreLimited`.
- Queues and records: `QueueIsFifo`, `TrailsTellTheStatus`, `OwnershipIsIndexed`,
  `GetShowcase`.
- Metadata: `UriInjective`, `UriStaysCurrentIff`, `OwnershipIsAChain`,
  `OwnerEventsIff`, `TriggersAreIndependent`, `ScoreMirrorsOverRunIff`, `RoundTrip`.

## Model

| member | source | states |
|---|---|---|
| GovernanceTheorems.VotesAreConserved | contracts/governance_token/src/lib.rs:64-214 | At the present and at the close of every past ledger the delegates' votes add up to the total supply, over every run of mint, burn, transfer, transfer_from and delegate |
| GovernanceTheorems.HistoryIsPermanent | contracts/governance_token/src/lib.rs:445-496 | No later step changes the state of voting power at a closed ledger, and the host's time does not go back |
| GovernanceTheorems.PastVotesNeverChange | contracts/governance_token/src/lib.rs:217-230 | The answer about a closed ledger stays the same for the rest of every run |
| GovernanceToken.GovernanceToken.GetPastVotes | contracts/governance_token/src/lib.rs:223-230 | The checkpoints answer exactly the account's voting power at the close of the asked ledger; the current and future ledgers are refused |
| Checkpoints.FindPastVotes | contracts/governance_token/src/lib.rs:501-532 | The binary search with its two fast paths agrees with a linear scan for the last checkpoint not newer than the ledger |
| Checkpoints.WrittenLookup | contracts/governance_token/src/lib.rs:467-496 | Recording a vote count disturbs no earlier ledger, is what the current and all later ones see, and keeps the ledgers strictly increasing |
| GovernanceToken.GovernanceToken.WriteCheckpoint | contracts/governance_token/src/lib.rs:467-496 | One checkpoint per ledger: a second write in the same ledger replaces the first |
| GovernanceToken.GovernanceToken.MoveVotingPower | contracts/governance_token/src/lib.rs:445-463 | Power leaves the source and reaches the destination, each checkpointed; a move to oneself changes nothing |
| VotingBooks.PowerIsConserved | contracts/governance_token/src/lib.rs:198-214 | Voting power grouped by delegate is a partition of the balances: nothing counted twice, nothing lost |
| GovernanceToken.GovernanceToken.Initialize | contracts/governance_token/src/lib.rs:20-55 | Who may initialize, once, and the whole resulting state |
| GovernanceToken.GovernanceToken.Mint | contracts/governance_token/src/lib.rs:64-81 | Accepts exactly positive amounts of the administrator that do not overflow the supply; balance, supply and the delegate's power grow together |
| GovernanceToken.GovernanceToken.Burn | contracts/governance_token/src/lib.rs:84-100 | Accepts exactly amounts the holder has; balance, supply and the delegate's power shrink together |
| GovernanceToken.GovernanceToken.Transfer | contracts/governance_token/src/lib.rs:103-121 | Moves balance and the two delegates' power, including a transfer to oneself and between holders of one delegate |
| GovernanceToken.GovernanceToken.Approve | contracts/governance_token/src/lib.rs:124-130 | Sets the allowance and nothing else |
| GovernanceToken.GovernanceToken.TransferFrom | contracts/governance_token/src/lib.rs:133-156 | A transfer within the spender's allowance: the recipient gains the amount, the holder loses it and everybody else keeps what they held; exactly this allowance falls by the amount |
| GovernanceToken.GovernanceToken.Delegate | contracts/governance_token/src/lib.rs:198-214 | The delegator's balance counts for the new delegate from now on; delegating to the current delegate changes nothing |
| GovernanceToken.GovernanceToken.Propose | contracts/governance_token/src/lib.rs:247-298 | The proposal that is stored, with its snapshot ledger, window and quorum, under a fresh id |
| GovernanceToken.GovernanceToken.Vote | contracts/governance_token/src/lib.rs:302-340 | Once per voter within the window, by snapshot power or else current power, with the tally it adds to |
| GovernanceToken.GovernanceToken.Queue | contracts/governance_token/src/lib.rs:343-374 | Queues exactly proposals whose vote ended with more votes for than against and a quorum |
| GovernanceToken.GovernanceToken.Execute | contracts/governance_token/src/lib.rs:377-406 | Runs the action of a queued proposal within its window, once |
| GovernanceToken.GovernanceToken.Cancel | contracts/governance_token/src/lib.rs:409-423 | Only the proposer, and only before the vote starts; the status is set and nothing else |
| GovernanceToken.Replay | contracts/governance_token/src/lib.rs:64-423 | Any sequence of calls takes the contract where the state machine says |
| GovernanceTheorems.TalliesAreReceipts | contracts/governance_token/src/lib.rs:302-340 | Each of the three tallies is the sum of the receipts of its type, one receipt per voter |
| GovernanceTheorems.SnapshotVotesAreBounded | contracts/governance_token/src/lib.rs:302-340 | Votes taken from nonzero snapshot power by later ledgers never outweigh the supply at the close of the snapshot ledger |
| GovernanceTheorems.WeightIsSnapshotPower | contracts/governance_token/src/lib.rs:321-336 | A vote cast after the snapshot ledger, which with a voting delay is every vote, weighs the snapshot power if and only if that power is not zero |
| GovernanceTheorems.DelayedVotesComeLater | contracts/governance_token/src/lib.rs:247-340 | Votes are cast in the snapshot ledger or later, and with a voting delay always later |
| GovernanceTheorems.SameLedgerWeightIff | contracts/governance_token/src/lib.rs:302-340 | A vote in the snapshot ledger needs a voting delay of zero and weighs the power at that moment, which is the snapshot power if and only if the ledger closes with the same power |
| GovernanceTheorems.DelayedVotesAreBounded | contracts/governance_token/src/lib.rs:302-340 | With a voting delay all votes by accounts with snapshot power never outweigh the supply at the snapshot |
| GovernanceTheorems.DelayedTallyIsBounded | contracts/governance_token/src/lib.rs:302-340 | With a voting delay and voters who all had snapshot power, the three tallies together are at most the supply at the snapshot |
| GovernanceExamples.TokensVoteTwice | contracts/governance_token/src/lib.rs:247-340 | A run without a voting delay in which five tokens give nine votes in the snapshot ledger |
| GovernanceExamples.LateTokensVote | contracts/governance_token/src/lib.rs:321-336 | A run in which tokens minted after the snapshot are counted |
| GovernanceTheorems.ProposalsSettle | contracts/governance_token/src/lib.rs:343-423 | Executed proposals never change, cancelled ones stay cancelled, queued ones keep their tallies; Defeated, Expired and Succeeded are never stored |
| GovernanceTheorems.ExecutionsAreLawful | contracts/governance_token/src/lib.rs:343-406 | Every execution followed a majority and a quorum, a queueing after the vote ended, and fell between eta and eta plus grace; nothing runs twice |
| GovernanceProofs.StepKeepsInvariant | contracts/governance_token/src/lib.rs:64-423 | Every call keeps balances, supply, delegates, tallies, receipts and executions consistent |
| GovernanceLaws.TransferFromPays | contracts/governance_token/src/lib.rs:133-156 | Accepted if and only if holder and allowance suffice; the recipient gets the amount, the holder loses it, exactly the spender's allowance falls by it, and no other account's balance, allowance or choice changes |
| GovernanceLaws.TransferPays | contracts/governance_token/src/lib.rs:103-121 | Every account holds what it held before, less the amount if it pays and plus the amount if it is paid; nothing else changes |
| GovernanceLaws.MintPays | contracts/governance_token/src/lib.rs:64-81 | Exactly the recipient of a mint gains, by the amount |
| GovernanceLaws.BurnPays | contracts/governance_token/src/lib.rs:84-100 | Exactly the holder loses, by the amount |
| GovernanceLaws.ApproveSets | contracts/governance_token/src/lib.rs:124-130 | Exactly the allowance of this owner and spender becomes the amount |
| GovernanceLaws.DelegateChooses | contracts/governance_token/src/lib.rs:198-214 | Exactly the delegator's choice changes; what the delegator holds stops counting for the old choice and counts for the new one |
| GovernanceLaws.InitializeOnce | contracts/governance_token/src/lib.rs:20-55 | The administrator and the settings are set once, with a quorum of at most 100 percent |
| GovernanceLaws.ProposeStores | contracts/governance_token/src/lib.rs:247-298 | Accepted if and only if the proposer has the threshold and nothing overflows; the window follows the delay and the quorum is the percentage of the supply, rounded down |
| GovernanceLaws.VoteCounts | contracts/governance_token/src/lib.rs:302-340 | Accepted if and only if the vote is open, the voter is new and has weight; the weight goes to exactly the chosen tally |
| GovernanceLaws.QueueSchedules | contracts/governance_token/src/lib.rs:343-374 | A vote is queued if and only if it ended with a quorum and more for than against, for the end of the timelock |
| GovernanceLaws.ExecuteInvokes | contracts/governance_token/src/lib.rs:377-406 | A queued proposal's own action is invoked between the end of the timelock and the end of the grace period, and not otherwise |
| GovernanceLaws.CancelStops | contracts/governance_token/src/lib.rs:409-423 | A proposal is cancelled if and only if its proposer asks before the vote starts |
| GovernanceLaws.UnknownIsRefused | contracts/governance_token/src/lib.rs:302-423 | Calls about proposals that do not exist, or before initialization, are refused |
| DelegationGraph.NoShortCycles | contracts/delegation/src/lib.rs:21-66 | In every reachable state no cycle of active delegations has length ten or less |
| DelegationGraph.ElevenCycleIsReachable | contracts/delegation/src/lib.rs:28-43 | The bound is tight: a cycle of eleven accounts is reachable |
| DelegationGraph.StepKeepsAcyclicIff | contracts/delegation/src/lib.rs:21-82 | From a graph without cycles every call leads to one again, except exactly the delegation whose delegator stands on the delegatee's chain behind the ten accounts the check looks at |
| DelegationGraph.AcyclicIffNotOnChain | contracts/delegation/src/lib.rs:28-43 | What the check would have to test: a new edge closes a cycle in a graph without one exactly if its start is somewhere on the chain of its end |
| DelegationGraph.ChainsAreSimple | contracts/delegation/src/lib.rs:84-100 | A chain has at most eleven accounts, all distinct, each the active delegate of the one before |
| DelegationGraph.PowerNeverExceedsBalances | contracts/delegation/src/lib.rs:102-146 | All voting power together never exceeds all balances, and equals them if and only if every holder's chain ends within three hops |
| DelegationGraph.PowerIsRootGroup | contracts/delegation/src/lib.rs:102-146 | An account's power is the sum of the balances whose chains end at it within three hops |
| Delegation.DelegationContract.Delegate | contracts/delegation/src/lib.rs:21-66 | Accepts exactly when the delegator is not among the first ten accounts of the delegatee's chain, and moves the edge in both indexes |
| Delegation.DelegationContract.WalkMeets | contracts/delegation/src/lib.rs:28-43 | The bounded walk finds the delegator exactly if it is among the first ten accounts |
| Delegation.DelegationContract.RevokeDelegation | contracts/delegation/src/lib.rs:68-82 | Deactivates an active delegation and removes it from the reverse index; otherwise nothing |
| Delegation.DelegationContract.GetDelegatorChain | contracts/delegation/src/lib.rs:84-100 | Returns the first eleven accounts of the chain, or all of it |
| Delegation.DelegationContract.GetVotingPower | contracts/delegation/src/lib.rs:102-114 | Nothing for a delegator; otherwise its balance and those of exactly the accounts one to three hops behind, each once |
| Delegation.DelegationContract.ComputeDelegatedPower | contracts/delegation/src/lib.rs:116-146 | The depth-limited recursion over the reverse index sums each account behind once |
| Delegation.DelegationContract.AddDelegator | contracts/delegation/src/storage.rs:42-50 | The reverse index stays the duplicate-free inverse of the active edges |
| Delegation.DelegationContract.RemoveDelegator | contracts/delegation/src/storage.rs:52-60 | The same when an edge goes |
| DelegationLaws.DelegationReplacesOwn | contracts/delegation/src/lib.rs:21-66 | A delegation is refused exactly to oneself and if the delegator is among ten accounts of the chain; otherwise the delegator's edge is replaced and no other |
| DelegationLaws.RevocationRemovesOwn | contracts/delegation/src/lib.rs:68-82 | Exactly the delegator's edge goes |
| DelegationLaws.PowerIsThreeHops | contracts/delegation/src/lib.rs:102-146 | Nothing for a delegator; otherwise the balances of the account and of everybody exactly one, two or three hops behind it |
| TopN.RefreshKeepsTopN | contracts/achievement_sets/src/lib.rs:676-764 | Rebuilding the list with one new score keeps it the top N of the table if and only if the player was unlisted or still has at least every unlisted score |
| TopN.RisingScoreKeepsTopN | contracts/achievement_sets/src/lib.rs:718-764 | A score that does not go down keeps the list the true top N |
| TopN.ResizeKeepsTopN | contracts/leaderboard/src/lib.rs:179-191 | A top list stays one under another cap if and only if it is not longer and is full or lists everybody |
| TopN.RefreshKeepsRanks | contracts/leaderboard/src/lib.rs:505-568 | Whatever the cap was, the list stays sorted, duplicate-free and true to the table, with at most one entry over the cap |
| TopN.Insert | contracts/achievement_sets/src/lib.rs:693-716 | The insertion loop with its flag puts the entry before the first one it beats, as far as the cap allows |
| TopN.Refresh | contracts/leaderboard/src/lib.rs:505-568 | The old entry is filtered out and the new one inserted |
| AchievementBooks.GlobalBoardIsTopN | contracts/achievement_sets/src/lib.rs:662-764 | In every reachable state the global board is the top N of the players' totals, and each total is the sum of the granted bonuses |
| AchievementBooks.SetBoardsAreTopN | contracts/achievement_sets/src/lib.rs:676-716 | Each set's board is the top N of exactly its claimants; a limited set has at most its cap of claimants |
| AchievementBooks.CompleteIff | contracts/achievement_sets/src/lib.rs:625-636 | A set counts as complete if and only if every puzzle is owned and none is required twice |
| AchievementExamples.RepeatedPuzzleIsRefused | contracts/achievement_sets/src/lib.rs:171-218 | A run in which a set that repeats a puzzle is accepted and then refused to a player who owns all its puzzles |
| AchievementExamples.RepeatedSetsStayUnclaimed | contracts/achievement_sets/src/lib.rs:398-498 | Over every further run nobody claims a set that repeats a puzzle |
| AchievementSets.Initialize | contracts/achievement_sets/src/lib.rs:135-166 | Refuses a zero cap; otherwise the empty contract |
| AchievementSets.CompletedPuzzles | contracts/achievement_sets/src/lib.rs:376-396 | The owned required puzzles, each once, in required order |
| AchievementSets.AchievementSets.CreateSet | contracts/achievement_sets/src/lib.rs:171-218 | Which definitions are accepted and what is stored |
| AchievementSets.AchievementSets.CreateSynergy | contracts/achievement_sets/src/lib.rs:220-263 | At least two existing sets and a positive bonus |
| AchievementSets.AchievementSets.ClaimSetBonus | contracts/achievement_sets/src/lib.rs:398-498 | One claim per player and set, within the cap, and only with every required puzzle in the owned list; total, both boards and the counter follow |
| AchievementSets.AchievementSets.ClaimSynergyBonus | contracts/achievement_sets/src/lib.rs:500-542 | One claim per player and synergy, only with every puzzle of all its sets in the owned list; the global board is refreshed twice |
| AchievementSets.AchievementSets.AddPlayerBonus | contracts/achievement_sets/src/lib.rs:662-674 | The total grows and the global board follows |
| AchievementSets.AchievementSets.UpdateSetLeaderboard | contracts/achievement_sets/src/lib.rs:676-716 | The set's board is rebuilt with the claim's score |
| AchievementSets.AchievementSets.UpdateGlobalLeaderboard | contracts/achievement_sets/src/lib.rs:718-764 | The global board is rebuilt with the player's total |
| AchievementLaws.SetClaimNeedsPuzzles | contracts/achievement_sets/src/lib.rs:398-498 | A set bonus is paid if and only if every required puzzle is owned and none is required twice, the player has not claimed, an edition is left, the token mints and nothing overflows |
| AchievementLaws.SetClaimPays | contracts/achievement_sets/src/lib.rs:398-498 | The player's total grows by the base bonus and what the tier adds (0, 50, 125, 300 or 750); nobody else's changes, and exactly this claim is noted |
| AchievementLaws.SynergyClaimNeedsPuzzles | contracts/achievement_sets/src/lib.rs:500-542 | A synergy bonus is paid if and only if every puzzle of every one of its sets is owned, the player has not claimed, the token mints and nothing overflows |
| AchievementLaws.SynergyClaimPays | contracts/achievement_sets/src/lib.rs:500-542 | Exactly the player's total grows, by the bonus, and exactly this claim is noted |
| AchievementLaws.GrantsAreEarned | contracts/achievement_sets/src/lib.rs:398-542 | Over every run each bonus granted came from a call of its player whose owned puzzles held those of the set, or of all sets of the synergy |
| AchievementLaws.SetIsDefined | contracts/achievement_sets/src/lib.rs:171-218 | Which sets are accepted, if and only if, and that exactly the next id is defined |
| AchievementLaws.SynergyIsDefined | contracts/achievement_sets/src/lib.rs:220-263 | The same for synergies |
| LeaderboardRuns.ListsAreTopNOfSubmissions | contracts/leaderboard/src/lib.rs:448-568 | Every list is the top N of what was submitted and replaced under its day or week number or for all time, as long as every replacement and every new cap fitted |
| LeaderboardPeriods.UnchangedLengthsTellTheTime | contracts/leaderboard/src/lib.rs:436-446 | In every run that never changes the length of a kind of period, the table under a number is the table of what was submitted and replaced in the stretch of time from the number times the length on |
| LeaderboardPeriods.MisfiledIff | contracts/leaderboard/src/lib.rs:162-176 | While every change is filed under the number of its time, exactly an accepted new length under which an earlier change has another number ends that |
| LeaderboardPeriods.FiledChangeIff | contracts/leaderboard/src/lib.rs:436-446 | A change counts for exactly the windows that span its time if and only if it is filed under the number of its time |
| LeaderboardPeriods.FiledTable | contracts/leaderboard/src/lib.rs:448-568 | While every change is so filed, the table under a number is the table of its stretch of time |
| LeaderboardExamples.NewLengthMixesDays | contracts/leaderboard/src/lib.rs:162-176 | A run in which a new day length puts the score of an earlier time on the board of a day without submissions |
| LeaderboardRuns.ListsStrayIff | contracts/leaderboard/src/lib.rs:179-317 | Of all calls exactly the accepted replacements and caps that do not fit take the lists away from the top of their tables |
| LeaderboardBooks.ResizeKeepsTopNIff | contracts/leaderboard/src/lib.rs:179-191 | A new cap keeps all lists the top of their tables if and only if no list is longer and each is full or lists everybody |
| LeaderboardExamples.RaisedCapMissesPlayers | contracts/leaderboard/src/lib.rs:179-191 | A run after which a list of cap two shows one of two players |
| LeaderboardRuns.ListsAreAlwaysRanked | contracts/leaderboard/src/lib.rs:505-568 | After any calls the lists are sorted, name nobody twice and show the stored scores |
| LeaderboardRuns.AllTimeTotalsAgreeIff | contracts/leaderboard/src/lib.rs:245-317 | The cumulative totals are the sums of all submissions; the all-time table differs from them by what the last replacement moved a player's score, and agrees if and only if that is nothing |
| LeaderboardRuns.HighScoreIsHighestReached | contracts/leaderboard/src/lib.rs:486-502 | Over every run each record is the highest score a submission ever led to in a period of its kind, whatever was replaced |
| LeaderboardRuns.RecordStraysIff | contracts/leaderboard/src/lib.rs:281-317 | While the record is the best score there is, exactly a replacement that passes it, or takes away the only score that reached it, ends that |
| LeaderboardRuns.HighScoresAreBest | contracts/leaderboard/src/lib.rs:486-502 | Unless a score of its kind was replaced, each record is the best score in any period of its kind |
| LeaderboardRuns.PlayerCountIff | contracts/leaderboard/src/lib.rs:245-268 | The player count never misses a player and is exact if and only if nobody with a zero total submitted again |
| LeaderboardExamples.LoweredCapSkipsPlayers | contracts/leaderboard/src/lib.rs:179-191 | A run after which a list of cap one has two entries and leaves out a player who has more than the second |
| LeaderboardExamples.LoweredScoreHidesPlayers | contracts/leaderboard/src/lib.rs:281-317 | A run in which a replacement leaves a score of 1 on a list of one although another player has 7 |
| LeaderboardExamples.ZeroScoreCountsTwice | contracts/leaderboard/src/lib.rs:245-268 | A run of two submissions of nothing by one player, who is counted as two |
| LeaderboardBooks.CorrectionKeepsTopNIff | contracts/leaderboard/src/lib.rs:281-317 | A replaced score keeps the lists the top of their tables if and only if the player was unlisted or still has at least every unlisted score |
| Leaderboard.Leaderboard.SubmitScore | contracts/leaderboard/src/lib.rs:202-277 | Who may submit, when it overflows, and what all three periods, the totals and the count become |
| Leaderboard.Leaderboard.UpdatePeriodScore | contracts/leaderboard/src/lib.rs:448-503 | Score, list and record of one period |
| Leaderboard.Leaderboard.UpdateTopScoresList | contracts/leaderboard/src/lib.rs:505-568 | The list of one period rebuilt in place |
| Leaderboard.Leaderboard.UpdateScore | contracts/leaderboard/src/lib.rs:281-317 | The administrator's replacement of one score |
| Leaderboard.Leaderboard.GetTopPlayers | contracts/leaderboard/src/lib.rs:326-350 | As long as every replacement and every new cap fitted, returns the true top of what is filed under the number of the current period, which while all changes are filed by their time is what was submitted and replaced in the current period |
| Leaderboard.Leaderboard.GetPlayerRank | contracts/leaderboard/src/lib.rs:358-377 | The one place of a listed player, 0 for the others; whoever has more stands before |
| Leaderboard.Leaderboard.SetVerifier | contracts/leaderboard/src/lib.rs:131-148 | Only the administrator adds and removes verifiers |
| Leaderboard.Leaderboard.SetPaused | contracts/leaderboard/src/lib.rs:151-159 | Only the administrator pauses |
| Leaderboard.Leaderboard.UpdatePeriodLengths | contracts/leaderboard/src/lib.rs:162-176 | Only the administrator sets the lengths, which may be zero |
| Leaderboard.Leaderboard.UpdateMaxEntries | contracts/leaderboard/src/lib.rs:179-191 | Only the administrator sets a positive cap; existing lists are left alone |
| LeaderboardLaws.SubmittersAreAuthorized | contracts/leaderboard/src/lib.rs:202-277 | Only the administrator and verifiers submit, no negative score, not while paused and not with a period of length zero |
| LeaderboardLaws.SubmissionsSucceed | contracts/leaderboard/src/lib.rs:202-277 | With numbers that do not overflow nothing else is asked |
| LeaderboardLaws.SubmissionIsAdded | contracts/leaderboard/src/lib.rs:202-277 | A submission is added to its player's score in the current day, week and all-time window, and to no other score |
| LeaderboardLaws.SubmissionIsTotalled | contracts/leaderboard/src/lib.rs:245-277 | The player's cumulative total grows by it; a player whose total was zero counts as new |
| LeaderboardLaws.ReplacementIsStored | contracts/leaderboard/src/lib.rs:281-317 | Exactly one score is replaced, in the current window of the kind, by the administrator only |
| LeaderboardLaws.SettingsAreSet | contracts/leaderboard/src/lib.rs:131-191 | Each settings call of the administrator changes its own setting only |
| LeaderboardLaws.DefaultsAreSet | contracts/leaderboard/src/lib.rs:101-126 | A day of 86400 seconds, a week of seven days, and 100 entries in place of a cap of 0 |
| QuadraticFunding.Sqrt | contracts/charity_donation/src/lib.rs:287-298 | Newton's loop terminates and returns the floor square root of every positive amount |
| QuadraticFunding.FloorSqrtIsUnique | contracts/charity_donation/src/lib.rs:287-298 | The floor square root is the only number whose square fits and whose successor's does not |
| QuadraticFunding.RootsSquared | contracts/charity_donation/src/lib.rs:180-226 | The square of the sum of the roots is at most the number of donors times the sum raised (Cauchy-Schwarz) |
| CharityBooks.MatchIsBounded | contracts/charity_donation/src/lib.rs:180-226 | The match is at most (donors - 1) times what was raised |
| Charity.CharityContract.DistributeMatching | contracts/charity_donation/src/lib.rs:180-226 | The smaller of the pool and the squared sum of the donors' rounded-down roots less the sum of their gifts, for all such roots; the pool falls by exactly that if it is positive |
| Charity.CharityContract.Donate | contracts/charity_donation/src/lib.rs:119-162 | Accepted exactly for verified charities without overflow; totals, duplicate-free donor list, raised sum and leaderboard follow |
| CharityBooks.DonationKeepsBooks | contracts/charity_donation/src/lib.rs:119-162 | What a charity raised stays the sum over its duplicate-free donor list, for all charities at once |
| CharityRuns.BooksAreSound | contracts/charity_donation/src/lib.rs:119-162 | The same over every run, together with a leaderboard that is descending, names nobody twice and shows nobody above its lifetime donations |
| CharityRuns.PoolIsAccounted | contracts/charity_donation/src/lib.rs:164-226 | Over every run the pool is what was put in less what all charities were paid, and never negative |
| CharityRuns.MatchingIsBoundedPerRound | contracts/charity_donation/src/lib.rs:180-226 | Over every run a charity was paid at most (donors - 1) times what it raised for each distribution that paid; with a single donor nothing |
| CharityRuns.DistributionsRepeat | contracts/charity_donation/src/lib.rs:180-226 | Any number of distributions in a row pay the full match each, until the pool is empty |
| CharityExamples.MatchedTwice | contracts/charity_donation/src/lib.rs:180-226 | A run in which two donors of one raise two and four is paid |
| Charity.CharityContract.AddCharity | contracts/charity_donation/src/lib.rs:68-99 | A fresh id with an empty, unverified record |
| Charity.CharityContract.VerifyCharity | contracts/charity_donation/src/lib.rs:101-117 | Only the administrator, and only the flag |
| Charity.CharityContract.FundMatchingPool | contracts/charity_donation/src/lib.rs:164-178 | The pool grows by what the token accepted |
| Charity.SortBoard | contracts/charity_donation/src/lib.rs:315-327 | The exchange sort yields a descending permutation |
| Charity.UpdateLeaderboard | contracts/charity_donation/src/lib.rs:300-333 | The new board is the old one with the donation added, in falling order, but for a dropped last entry |
| CharityBooks.OnlyAMinimumIsDropped | contracts/charity_donation/src/lib.rs:328-332 | Only an entry that no listed entry is below leaves, and only from a full board |
| CharityBooks.RankedIsSound | contracts/charity_donation/src/lib.rs:300-333 | The new board is descending, has at most ten distinct donors, and none above its lifetime donations |
| CharityTopTen.BoardIsTopTen | contracts/charity_donation/src/lib.rs:300-333 | In every run whose donations all fit, the leaderboard is the top ten donors with their lifetime donations |
| CharityTopTen.TopTenStraysIff | contracts/charity_donation/src/lib.rs:300-333 | Of all calls exactly an accepted donation that does not fit ends that: by somebody who gave before, is not listed, and with the donation would have given more than somebody listed |
| CharityExamples.DroppedDonorReturns | contracts/charity_donation/src/lib.rs:300-333 | A run in which a donor of three is missing from a board of donors of two |
| CharityLaws.MatchIsQuadratic | contracts/charity_donation/src/lib.rs:180-226 | For all gifts of the listed donors and their rounded-down roots: what is paid is the smaller of the pool and the squared sum of the roots less the sum of the gifts; the pool falls by exactly that if it is positive and stays otherwise |
| CharityLaws.PaymentIsQuadratic | contracts/charity_donation/src/lib.rs:198-214 | The same for a payment worked out from the amounts on record |
| CharityLaws.GiftsAddUp | contracts/charity_donation/src/lib.rs:119-162 | In every reachable state everybody listed gave something, together what the charity raised |
| CharityLaws.DonationIsTaken | contracts/charity_donation/src/lib.rs:119-162 | A donation is taken if and only if it is positive, the charity is verified, the token moves it and no number overflows |
| CharityLaws.DonationIsCredited | contracts/charity_donation/src/lib.rs:119-162 | Exactly this donor and charity are credited; only a first donation lists the donor |
| CharityLaws.CharityIsAdded | contracts/charity_donation/src/lib.rs:68-99 | By the administrator, under the next id, empty and unverified |
| CharityLaws.CharityIsVerified | contracts/charity_donation/src/lib.rs:101-117 | By the administrator; exactly the flag of this charity is set |
| CharityLaws.PoolIsFunded | contracts/charity_donation/src/lib.rs:164-178 | The pool grows by what the token moves |
| CharityLaws.ScoreIsAdded | contracts/charity_donation/src/lib.rs:300-333 | The donor's entry grows by the donation or is new; every other entry stays |
| InsuranceProofs.ClaimsPerWindowAreLimited | contracts/insurance/src/lib.rs:997-1086 | In every run a user's claims in any closed 30-day interval are at most the limit in force at the last of them |
| InsuranceProofs.ClaimsAreSpaced | contracts/insurance/src/lib.rs:1013-1019 | A claim comes after each earlier one of the user by at least the cooldown in force when it is made, unless the earlier one was made at time 0 |
| InsuranceProofs.RulesAreRecorded | contracts/insurance/src/lib.rs:460-554 | The limit and cooldown on record for a claim are those configured when it was made, and stay |
| InsuranceProofs.CooldownIsSkippedIff | contracts/insurance/src/lib.rs:1013-1019 | A claim within the cooldown, and otherwise in order, is accepted if and only if the user's last claim was made at time 0 |
| InsuranceExamples.TwoClaimsAtTimeZero | contracts/insurance/src/lib.rs:1013-1019 | A run with two claims of one user at time 0 under a cooldown of a week |
| ClaimHistory.WindowIsLimited | contracts/insurance/src/lib.rs:1021-1045 | The limit checked at the last claim of an interval of the window's length is a limit on the interval |
| ClaimHistory.SinceTwice | contracts/insurance/src/lib.rs:1062-1079 | Filtering the trimmed list for a later time gives what filtering the whole history gives |
| Insurance.TrimmedIsEnough | contracts/insurance/src/lib.rs:1048-1086 | The stored recent claims answer every later fraud check as the full history would |
| Insurance.Insurance.CheckFraud | contracts/insurance/src/lib.rs:997-1046 | The check on the trimmed list decides exactly as the rule on the full history |
| Insurance.Insurance.UpdateFraudMetrics | contracts/insurance/src/lib.rs:1048-1086 | Claims no longer recent leave the list and the new one enters it |
| Insurance.Insurance.SubmitClaim | contracts/insurance/src/lib.rs:460-554 | Accepted exactly for covered claims of unflagged users within limit and cooldown; everything that is recorded |
| Insurance.Insurance.ReviewClaim | contracts/insurance/src/lib.rs:564-601 | Only open claims, with a payout of at most the claimed amount |
| Insurance.Insurance.ProcessPayout | contracts/insurance/src/lib.rs:608-653 | Only approved claims, from a pool that covers them; a claim is paid once |
| InsuranceProofs.SettledClaimsStay | contracts/insurance/src/lib.rs:564-653 | Paid and rejected claims never change again |
| InsuranceProofs.PoolIsAccounted | contracts/insurance/src/lib.rs:222-716 | The pool is all premiums and additions less refunds, withdrawals and the payouts of exactly the paid claims |
| InsuranceProofs.RefundsAndPayoutsAreCovered | contracts/insurance/src/lib.rs:389-445 | Refunds never exceed what was paid for ended policies; no payout exceeds its claim |
| InsuranceProofs.RefundIsPart | contracts/insurance/src/lib.rs:404-421 | A prorated refund lies between nothing and what was paid |
| InsuranceProofs.NegativePoolIff | contracts/insurance/src/lib.rs:389-445 | Of all calls exactly a cancellation in time, of an active policy, whose refund exceeds the pool and is covered by tokens sent directly, takes a pool that is not negative below zero |
| InsuranceProofs.PoliciesNeverExpire | contracts/insurance/src/lib.rs:222-445 | No policy is ever Expired: its status is Active until its owner cancels and Cancelled until its owner buys again, whatever the time |
| InsuranceExamples.PoolGoesNegative | contracts/insurance/src/lib.rs:428-444 | A run after which the pool is -1 |
| InsuranceRuns.PremiumIsMonotone | contracts/insurance/src/lib.rs:959-995 | Covering more, or for longer, never costs less |
| InsuranceRuns.PremiumIsExact | contracts/insurance/src/lib.rs:976-994 | The premium is the rated amount rounded down once, at least 1 |
| InsuranceProofs.RefundIsProrated | contracts/insurance/src/lib.rs:404-421 | The refund is the paid amount times the unused part of the period, rounded down |
| InsuranceRuns.Premium | contracts/insurance/src/lib.rs:959-995 | A premium is at least 1 |
| InsuranceRuns.PremiumOverflowsIff | contracts/insurance/src/lib.rs:959-995 | There is none exactly if the product of amount, rate, multiplier and days leaves i128, where a zero factor stops the growth |
| Insurance.Insurance.PurchasePolicy | contracts/insurance/src/lib.rs:222-311 | One active policy per owner, within the limits, at the computed premium |
| Insurance.Insurance.RenewPolicy | contracts/insurance/src/lib.rs:318-383 | Extends from the end or from now, within the maximal period, for the additional premium |
| Insurance.Insurance.CancelPolicy | contracts/insurance/src/lib.rs:389-445 | Refunds the unused part and cancels |
| Insurance.Insurance.AddToPool | contracts/insurance/src/lib.rs:662-683 | Pool and balance grow together |
| Insurance.Insurance.WithdrawFromPool | contracts/insurance/src/lib.rs:690-716 | Only the administrator and only what the pool holds |
| Insurance.Insurance.EmergencyWithdraw | contracts/insurance/src/lib.rs:924-946 | Empties a positive pool and returns what it held |
| Insurance.Insurance.FlagUser | contracts/insurance/src/lib.rs:726-745 | A flagged user's claims are refused from then on |
| Insurance.Insurance.UnflagUser | contracts/insurance/src/lib.rs:752-763 | The flag goes, the history stays |
| Insurance.Insurance.UpdateFraudParams | contracts/insurance/src/lib.rs:901-911 | New limit and cooldown for later claims |
| Insurance.Insurance.UpdatePremiumRates | contracts/insurance/src/lib.rs:859-878 | New rates for later premiums |
| Insurance.Insurance.UpdateCoverageLimits | contracts/insurance/src/lib.rs:881-898 | New limits for later policies |
| Insurance.Insurance.SetPaused | contracts/insurance/src/lib.rs:914-921 | Only the administrator pauses |
| InsuranceLaws.PremiumIsRated | contracts/insurance/src/lib.rs:959-995 | Amount times rate times the multiplier of the kind of coverage times whole days, over 365 * 10000 * 100, rounded down, at least 1 |
| InsuranceLaws.PurchaseCharges | contracts/insurance/src/lib.rs:222-311 | Bought within the limits by somebody without an active policy, from now on for the period; exactly the premium enters pool and balance |
| InsuranceLaws.PurchaseSucceeds | contracts/insurance/src/lib.rs:222-311 | Nothing else stands in the way of a purchase but an overflow |
| InsuranceLaws.RenewalExtends | contracts/insurance/src/lib.rs:318-383 | The period is added behind the end, or from now on if that has passed, for exactly the premium of the additional period |
| InsuranceLaws.RenewalSucceeds | contracts/insurance/src/lib.rs:318-383 | Nothing else stands in the way of a renewal but an overflow |
| InsuranceLaws.CancellationRefunds | contracts/insurance/src/lib.rs:389-445 | The refund is what was paid times the unused share of the period, rounded down, and nothing after the end |
| InsuranceLaws.CancellationSucceeds | contracts/insurance/src/lib.rs:389-445 | An active policy can be cancelled while the balance covers what was paid |
| InsuranceLaws.ClaimIsTaken | contracts/insurance/src/lib.rs:460-554 | A claim is taken if and only if the policy covers asset, time and amount, the user is not flagged, a cooldown has passed since the last claim, and the claims of the last 30 days are below the limit |
| InsuranceLaws.ClaimIsStored | contracts/insurance/src/lib.rs:460-554 | The claim is stored as submitted under the next id and ends its user's history and no other |
| InsuranceLaws.ReviewDecides | contracts/insurance/src/lib.rs:564-601 | Open claims only, by the administrator, with a payout of at most the claim |
| InsuranceLaws.PayoutPays | contracts/insurance/src/lib.rs:608-653 | Exactly the approved payout leaves pool and balance, once |
| InsuranceLaws.PoolIsManaged | contracts/insurance/src/lib.rs:662-946 | What adding, withdrawing and emptying do to pool and balance |
| InsuranceLaws.FlagsAreSet | contracts/insurance/src/lib.rs:726-763 | Exactly the flag of this user changes |
| InsuranceLaws.DefaultsAreSet | contracts/insurance/src/lib.rs:176-210 | The settings of a new contract |
| RouterRuns.QueueIsFifo | contracts/cross_contract/src/lib.rs:591-647 | Messages leave in send order, each at most once; the slots hold consecutive ids and a message is queued exactly while its id is behind the head |
| RouterRuns.TrailsTellTheStatus | contracts/cross_contract/src/lib.rs:306-488 | The audit trail is exactly the one the status and the callback call for |
| RouterRuns.CallbacksAreComplete | contracts/cross_contract/src/lib.rs:548-577 | Every stored message has a complete callback or none |
| RouterRuns.ProcessedMessagesStay | contracts/cross_contract/src/lib.rs:257-488 | A message that left the queue, and its trail, never change again |
| RouterRuns.ProcessingErrors | contracts/cross_contract/src/lib.rs:605-647 | The internal error cases of processing cannot happen: only an empty queue, a failed target or a failed callback |
| RouterRuns.HeadAdvancesIff | contracts/cross_contract/src/lib.rs:257-488 | The head moves on if and only if the message succeeds, or a non-atomic failure's writes are kept |
| RouterRuns.DiscardedFailuresLeaveNoTrace | contracts/cross_contract/src/lib.rs:386-488 | If the host discards the writes of failed calls, every message is queued or delivered |
| MessageQueue.ProcessKeepsStore | contracts/cross_contract/src/lib.rs:257-488 | One processing step keeps queue, messages and trails consistent for both host outcomes |
| RouterRuns.SendersAreLimited | contracts/cross_contract/src/lib.rs:663-693 | Since the limit was set a sender gets at most the limit through in each aligned window and at most twice that in any interval of a window's length |
| RouterExamples.TwiceTheLimitPasses | contracts/cross_contract/src/lib.rs:663-693 | For every limit and every window of two seconds or more, a run in which twice the limit passes within one window's length |
| RateLimits.AdmitKeepsLimit | contracts/cross_contract/src/lib.rs:663-693 | The one stored counter stands in for the times of all accepted messages |
| CrossContract.Initialize | contracts/cross_contract/src/lib.rs:131-149 | Refuses a zero window or limit |
| CrossContract.CrossContract.SetRateLimit | contracts/cross_contract/src/lib.rs:151-161 | Only the administrator, only valid limits |
| CrossContract.CrossContract.RegisterRoute | contracts/cross_contract/src/lib.rs:163-185 | A callback contract and method come together or not at all |
| CrossContract.CrossContract.SetRouteEnabled | contracts/cross_contract/src/lib.rs:187-198 | Only existing routes |
| CrossContract.CrossContract.QueueMessage | contracts/cross_contract/src/lib.rs:200-255 | Which error is returned in which case, and the whole state after acceptance |
| CrossContract.CrossContract.EnforceRateLimit | contracts/cross_contract/src/lib.rs:663-693 | Counts the message in the current window or refuses it |
| CrossContract.CrossContract.PushQueue | contracts/cross_contract/src/lib.rs:591-603 | The id goes into the tail slot |
| CrossContract.CrossContract.PeekQueue | contracts/cross_contract/src/lib.rs:605-624 | The head's id, or why there is none |
| CrossContract.CrossContract.PopQueue | contracts/cross_contract/src/lib.rs:626-647 | Removes the head slot if it holds the expected id |
| CrossContract.CrossContract.AppendAudit | contracts/cross_contract/src/lib.rs:715-737 | One entry at the end of the trail |
| CrossContract.CrossContract.ProcessAtomically | contracts/cross_contract/src/lib.rs:306-384 | Delivers, or fails without a write |
| CrossContract.CrossContract.ProcessNonAtomically | contracts/cross_contract/src/lib.rs:386-488 | Delivers, or stores the failure and removes the message |
| CrossContract.CrossContract.ProcessNext | contracts/cross_contract/src/lib.rs:257-271 | The entry point with the host's snapshot around it |
| CrossContract.CrossContract.GetQueueSize | contracts/cross_contract/src/lib.rs:290-293 | The size is the number of occupied slots |
| RouterLaws.SendingErrors | contracts/cross_contract/src/lib.rs:200-255 | Which error a message is refused with, in the order of the checks, and that nothing else refuses one |
| RouterLaws.SendingStores | contracts/cross_contract/src/lib.rs:200-255 | An accepted message goes to its route's target under the next id at the end of the queue, with its own callback or else the route's, and counts once for its sender |
| RouterLaws.AnswerIsDelivered | contracts/cross_contract/src/lib.rs:306-489 | The head is delivered with the target's answer if the callback, if there is one, accepts |
| RouterLaws.TargetFailureIsStored | contracts/cross_contract/src/lib.rs:306-489 | A failing target leaves no trace of an atomic message and stores any other as failed |
| RouterLaws.CallbackFailureIsStored | contracts/cross_contract/src/lib.rs:306-489 | The same for a refusing callback, the target's answer being kept |
| RouterLaws.RouteIsRegistered | contracts/cross_contract/src/lib.rs:163-185 | Which error when, and the enabled route that is stored |
| RouterLaws.RouteIsSwitched | contracts/cross_contract/src/lib.rs:187-198 | Which error when, and that exactly this route is switched |
| RouterLaws.LimitIsSet | contracts/cross_contract/src/lib.rs:151-161 | Which error when, and the new limit |
| Decimals.AppendU32 | contracts/dynamic_metadata/src/lib.rs:1485-1506 | Writes exactly the decimal text at the index and nothing else, and returns the index behind it |
| Decimals.ParseU32 | contracts/dynamic_metadata/src/lib.rs:1544-1562 | One to ten digits give their value, at most 2^32 - 1; anything else gives 0 |
| Decimals.RoundTrip | contracts/dynamic_metadata/src/lib.rs:1485-1562 | Parsing the printed number gives it back |
| Decimals.TenDigitsSuffice | contracts/dynamic_metadata/src/lib.rs:1485-1506 | Every u32 prints in one to ten digits |
| ImageUri.BuildUri | contracts/dynamic_metadata/src/lib.rs:1374-1410 | For every base that passes the check and all numbers the URI fits the 256 bytes and is the documented text |
| ImageUri.UriInjective | contracts/dynamic_metadata/src/lib.rs:1374-1410 | The URI determines base, token, level and rarity |
| ImageUri.MigrationReason | contracts/dynamic_metadata/src/lib.rs:1565-1576 | The reason always fits its 32 bytes |
| ImageUri.ReasonInjective | contracts/dynamic_metadata/src/lib.rs:1565-1576 | The reason determines both schema versions |
| MetadataTheorems.VersionsAreNumbered | contracts/dynamic_metadata/src/lib.rs:1206-1232 | Versions are numbered 1 to n and the last is the current metadata up to the performance score |
| MetadataTheorems.OwnershipIsAChain | contracts/dynamic_metadata/src/lib.rs:419-622 | The ownership history runs from the mint, each record continuing the one before, to the current owner |
| MetadataTheorems.MintRecordNamesOwnerIff | contracts/dynamic_metadata/src/lib.rs:419-514 | The mint record names the owner as the owner before if and only if the minter, the author of the first version, minted for itself |
| MetadataExamples.MintedForAnother | contracts/dynamic_metadata/src/lib.rs:419-514 | A run in which the mint record names somebody else |
| MetadataTheorems.HistoriesOnlyGrow | contracts/dynamic_metadata/src/lib.rs:419-1133 | No call removes or changes a recorded version or ownership event |
| MetadataTheorems.UriStaysCurrentIff | contracts/dynamic_metadata/src/lib.rs:363-372 | Of all calls exactly the change of the base to another one, while the URI is cached, makes a current URI stale |
| MetadataTheorems.UriStaysCurrent | contracts/dynamic_metadata/src/lib.rs:1167-1204 | A current URI stays current over every run in which the base is not changed |
| MetadataTheorems.CachedUriIsCurrentIff | contracts/dynamic_metadata/src/lib.rs:1167-1204 | A cached URI is always the one of the current id, level and rarity over the base it was built with, and current if and only if that is the configured base |
| MetadataExamples.StaleUriIsReachable | contracts/dynamic_metadata/src/lib.rs:363-372 | A run after which the cached URI is not the one a fresh build gives |
| MetadataTheorems.CachedUrisAreDistinct | contracts/dynamic_metadata/src/lib.rs:1167-1177 | No two tokens ever show the same cached URI, whatever bases there were |
| MetadataTheorems.UrisNeverOverflow | contracts/dynamic_metadata/src/lib.rs:1374-1383 | Every configured base leaves room, so reading the URI of an existing token never fails |
| MetadataTheorems.FrozenIsLocked | contracts/dynamic_metadata/src/lib.rs:1027-1053 | A frozen token keeps its appearance through every call but a migration and stays frozen until unfrozen |
| MetadataTheorems.FrozenUriChangesIff | contracts/dynamic_metadata/src/lib.rs:1167-1204 | Exactly which calls change the URI shown for a frozen token: a new base while nothing is cached, whatever drops a stale URI, and a migration that sets level or rarity |
| MetadataExamples.FrozenUriMoves | contracts/dynamic_metadata/src/lib.rs:1167-1204 | A frozen token in a reachable state and a call that changes the URI it shows |
| MetadataTheorems.MigrationIgnoresFreezing | contracts/dynamic_metadata/src/lib.rs:1064-1133 | A frozen token can be migrated exactly if the thawed one can, for the configured schema always but for the caller and the number of traits; its whole appearance becomes that of the migrated thawed one, and it stays frozen |
| MetadataExamples.FrozenTokenMigrates | contracts/dynamic_metadata/src/lib.rs:1064-1133 | A run in which a frozen token gets a new name |
| MetadataTheorems.BurnIsNotFinal | contracts/dynamic_metadata/src/lib.rs:517-640 | Of all calls exactly an accepted transfer makes a burnt token count as not burnt, and its owner can always transfer it unless the contract is paused |
| MetadataExamples.BurntTokenReturns | contracts/dynamic_metadata/src/lib.rs:517-640 | A run in which a burnt token ends up with another owner and is not burnt |
| MetadataTheorems.ScoreMirrorsIff | contracts/dynamic_metadata/src/lib.rs:795-845 | Over every run the score is the sum of the metrics if and only if what they lost is what the score was cut off by; so, unless it was cut off, if and only if no metric was ever lowered |
| MetadataTheorems.ScoreMirrorsOverRunIff | contracts/dynamic_metadata/src/lib.rs:795-845 | In any run in which the score is never cut off, it is the sum of the metrics in the end if and only if no call lowered a metric or cut one off |
| MetadataExamples.LoweredMetricBreaksMirror | contracts/dynamic_metadata/src/lib.rs:795-821 | A run after which the score is five and the metrics sum to three |
| MetadataTheorems.MirrorKeptIff | contracts/dynamic_metadata/src/lib.rs:795-821 | A replaced metric keeps the mirror if and only if the value does not go down and nothing overflows |
| MetadataTheorems.ScoresCoverMetrics | contracts/dynamic_metadata/src/lib.rs:795-845 | The score is never below the sum of the metrics unless it is saturated |
| MetadataTokens.BestRuleIsBest | contracts/dynamic_metadata/src/lib.rs:1242-1273 | The evolution loop picks the highest threshold that applies, the oldest rule among equals, and none exactly if none applies |
| MetadataTokens.EvolutionNeverLevelsUp | contracts/dynamic_metadata/src/lib.rs:1274-1300 | Evolution never changes the level and never lowers the rarity |
| MetadataTokens.TriggersAreIndependent | contracts/dynamic_metadata/src/lib.rs:1303-1370 | Which trigger rules fire is decided by the token as it was: the number applied is the number of rules that fire on it |
| MetadataTokens.LevelIsBumped | contracts/dynamic_metadata/src/lib.rs:1342-1356 | The level after all triggers is the old level plus the parsed amounts of the firing bump rules, saturated |
| MetadataTokens.EditsAreLocal | contracts/dynamic_metadata/src/lib.rs:648-785 | An edit touches its own group of fields and nothing else |
| MetadataTokens.EditsChangeOneTrait | contracts/dynamic_metadata/src/lib.rs:689-785 | A trait edit changes exactly the named trait, to what was asked |
| DynamicMetadata.FindBest | contracts/dynamic_metadata/src/lib.rs:1256-1271 | The loop over the rules |
| DynamicMetadata.FireAll | contracts/dynamic_metadata/src/lib.rs:1321-1357 | The loop over the trigger rules, in order of their ids, tests metric, owner count and age itself |
| MetadataTokens.OwnerEventsIff | contracts/dynamic_metadata/src/lib.rs:1511-1520 | The number of mints and transfers is at least that of the distinct owners, and equal to it if and only if nobody received the token twice |
| MetadataTokens.OwnershipRuleIff | contracts/dynamic_metadata/src/lib.rs:185-192 | An ownership rule fires as documented exactly unless its threshold lies above the number of distinct owners and is reached with those who came back |
| MetadataExamples.ReturningOwnerFiresRule | contracts/dynamic_metadata/src/lib.rs:1303-1370 | A run in which a rule for three owners is applied to a token that has had two |
| DynamicMetadata.CountOwners | contracts/dynamic_metadata/src/lib.rs:1511-1520 | The loop counts mints and transfers: at least the distinct owners, and exactly them if and only if nobody received the token twice |
| DynamicMetadata.Initialize | contracts/dynamic_metadata/src/lib.rs:293-339 | Refuses a base of no or more than 200 bytes and a schema outside 1 to 10; otherwise the empty, unpaused contract |
| DynamicMetadata.DynamicMetadata.MintToken | contracts/dynamic_metadata/src/lib.rs:419-514 | A fresh id with version 1, a mint record and a cached URI |
| DynamicMetadata.DynamicMetadata.TransferToken | contracts/dynamic_metadata/src/lib.rs:517-579 | Owner, ownership record and version change together |
| DynamicMetadata.DynamicMetadata.BurnToken | contracts/dynamic_metadata/src/lib.rs:586-622 | Appends a burn record and a version; the token stays |
| DynamicMetadata.DynamicMetadata.IsBurnedToken | contracts/dynamic_metadata/src/lib.rs:627-640 | Whether the last ownership event is a burn |
| DynamicMetadata.DynamicMetadata.UpdateMetadata | contracts/dynamic_metadata/src/lib.rs:648-686 | Empty and zero fields are skipped; returns the new version number |
| DynamicMetadata.DynamicMetadata.AddStringTrait | contracts/dynamic_metadata/src/lib.rs:689-714 | Overwrites, or adds below the cap |
| DynamicMetadata.DynamicMetadata.RemoveStringTrait | contracts/dynamic_metadata/src/lib.rs:717-731 | Removes if present, and records a version either way |
| DynamicMetadata.DynamicMetadata.AddNumericTrait | contracts/dynamic_metadata/src/lib.rs:734-759 | Overwrites, or adds below the cap |
| DynamicMetadata.DynamicMetadata.IncrementNumericTrait | contracts/dynamic_metadata/src/lib.rs:762-785 | Adds up to 2^32 - 1; here the cap is not checked |
| DynamicMetadata.DynamicMetadata.SetFrozen | contracts/dynamic_metadata/src/lib.rs:1027-1053 | Freezes and unfreezes, with a version |
| DynamicMetadata.DynamicMetadata.ApplyTraitEvolution | contracts/dynamic_metadata/src/lib.rs:1242-1301 | Applies the best rule to an unfrozen token, records a version, and returns how many rules were applied |
| DynamicMetadata.DynamicMetadata.ApplyTriggerRules | contracts/dynamic_metadata/src/lib.rs:1303-1370 | Returns the number of rules whose metric, owner events or time since the last update reach the threshold on the token as it was, 0 for a frozen token; applies them and records one version for all |
| DynamicMetadata.DynamicMetadata.SetPerformanceMetric | contracts/dynamic_metadata/src/lib.rs:795-821 | The metric is replaced, the score grows by an increase only, then both kinds of rules apply |
| DynamicMetadata.DynamicMetadata.AddPerformanceMetric | contracts/dynamic_metadata/src/lib.rs:824-845 | Metric and score grow, saturating; then both kinds of rules apply |
| DynamicMetadata.DynamicMetadata.EvolveTraits | contracts/dynamic_metadata/src/lib.rs:923-934 | Evolution on request of the owner or the administrator; returns 1 if and only if some rule is eligible, and 0 otherwise |
| DynamicMetadata.DynamicMetadata.CheckAndApplyTriggers | contracts/dynamic_metadata/src/lib.rs:1010-1021 | Triggers on request of the owner or the administrator; returns the number of rules whose threshold the token as it was reaches |
| DynamicMetadata.DynamicMetadata.MigrateMetadata | contracts/dynamic_metadata/src/lib.rs:1064-1133 | Two versions, before and after, and no downgrade of the schema |
| DynamicMetadata.DynamicMetadata.GetImageUri | contracts/dynamic_metadata/src/lib.rs:1167-1177 | The cached URI, or a fresh one that is cached |
| DynamicMetadata.DynamicMetadata.Rewrite | contracts/dynamic_metadata/src/lib.rs:1197-1223 | Writing drops the cached URI and adds the next version |
| DynamicMetadata.DynamicMetadata.UpdateImageBaseUri | contracts/dynamic_metadata/src/lib.rs:363-372 | A base of 1 to 200 bytes; caches stay |
| DynamicMetadata.DynamicMetadata.UpdateSchemaVersion | contracts/dynamic_metadata/src/lib.rs:374-386 | Within 1 to 10 and never down |
| DynamicMetadata.DynamicMetadata.ConfigureTraitRule | contracts/dynamic_metadata/src/lib.rs:859-897 | A rule under the next id |
| DynamicMetadata.DynamicMetadata.RemoveTraitRule | contracts/dynamic_metadata/src/lib.rs:899-912 | Only existing rules |
| DynamicMetadata.DynamicMetadata.ConfigureTriggerRule | contracts/dynamic_metadata/src/lib.rs:941-982 | Only the three known triggers and effects |
| DynamicMetadata.DynamicMetadata.RemoveTriggerRule | contracts/dynamic_metadata/src/lib.rs:984-999 | Only existing rules |
| MetadataLaws.TriggersCountReached | contracts/dynamic_metadata/src/lib.rs:1303-1370 | A rule is counted if and only if the stored metric (0 if there is none), the number of mints and transfers, or the time since the last update reaches its threshold on the token as it was |
| MetadataLaws.LastRuleGivesTrait | contracts/dynamic_metadata/src/lib.rs:1342-1346 | The last reached rule that adds a trait gives it its text |
| MetadataLaws.OtherRulesKeepTrait | contracts/dynamic_metadata/src/lib.rs:1342-1346 | A trait that no reached rule adds keeps its value or stays absent |
| MetadataLaws.LastRuleGivesNumber | contracts/dynamic_metadata/src/lib.rs:1347-1352 | The last reached rule that adds a number gives it the number its text stands for |
| MetadataLaws.OtherRulesKeepNumber | contracts/dynamic_metadata/src/lib.rs:1347-1352 | A number that no reached rule adds keeps its value or stays absent |
| MetadataLaws.LevelGrows | contracts/dynamic_metadata/src/lib.rs:1353-1356 | The level grows by what the reached bump rules ask for, up to 2^32 - 1 |
| MetadataLaws.TriggersRecord | contracts/dynamic_metadata/src/lib.rs:1359-1370 | One version for all reached rules; frozen tokens and tokens without a reached rule stay as they were |
| MetadataLaws.EvolutionGivesTrait | contracts/dynamic_metadata/src/lib.rs:1242-1301 | The rule with the highest threshold that score and level reach, the oldest of those, gives its trait and raises the rarity, never the level; without one nothing happens |
| MetadataLaws.EvolveRecords | contracts/dynamic_metadata/src/lib.rs:923-934 | Who may ask for evolution, if and only if, and that only this token changes |
| MetadataLaws.FireRecords | contracts/dynamic_metadata/src/lib.rs:1010-1021 | Who may ask for triggers, if and only if, and what a call leaves behind |
| MetadataLaws.MetricIsStored | contracts/dynamic_metadata/src/lib.rs:795-845 | Only the oracle measures; exactly the named metric becomes the value or grows by it, up to 2^64 - 1 |
| MetadataLaws.MeasuringAppliesRules | contracts/dynamic_metadata/src/lib.rs:795-845 | The score grows by an increase or by what was added; evolution sees the new score, and the triggers see the evolved token and the new metrics |
| MetadataLaws.MintRecords | contracts/dynamic_metadata/src/lib.rs:419-514 | The token described, at level and rarity 1 without a score, with its mint record and first version |
| MetadataLaws.TransferRecords | contracts/dynamic_metadata/src/lib.rs:517-579 | Accepted if and only if the owner asks and nothing is paused; the recipient owns the token and the record says so |
| MetadataLaws.BurnRecords | contracts/dynamic_metadata/src/lib.rs:586-622 | Accepted if and only if the owner asks, nothing is paused and the token is not frozen; a record and a version are added |
| MetadataLaws.EditRecords | contracts/dynamic_metadata/src/lib.rs:648-785 | Who may edit, if and only if, and that empty and zero fields are skipped |
| MetadataLaws.FreezeRecords | contracts/dynamic_metadata/src/lib.rs:1027-1053 | The flag becomes what was asked; nothing else of the token changes |
| MetadataLaws.MigrationRecords | contracts/dynamic_metadata/src/lib.rs:1064-1133 | Accepted if and only if the migrator asks within the schema and trait limits; zero fields are skipped, and the versions before and after are recorded |
| MetadataLaws.SettingsAreSet | contracts/dynamic_metadata/src/lib.rs:355-386 | Each settings call of the administrator changes its own setting only |
| MetadataLaws.TriggerRuleIsKept | contracts/dynamic_metadata/src/lib.rs:941-982 | Accepted if and only if trigger and effect are known; stored as described under the next id |
| MetadataLaws.RulesAreAddedAndRemoved | contracts/dynamic_metadata/src/lib.rs:859-999 | Exactly the named rule is added or removed |
| RewardConditions.EvaluateReward | contracts/conditional_reward/src/lib.rs:267-306 | Eligible exactly when every group-0 condition passes and every other group has a passing member; the failed list is exact and in order |
| RewardConditions.FailuresAreReported | contracts/conditional_reward/src/lib.rs:267-306 | The failed list holds exactly the failing mandatory conditions and all members of failing groups, by rising index |
| RewardConditions.EligibleIff | contracts/conditional_reward/src/lib.rs:267-306 | Eligible if and only if the failed list is empty |
| RewardConditions.GroupSatisfied | contracts/conditional_reward/src/lib.rs:308-318 | True exactly if some member of the group passed |
| RewardConditions.EvaluatesIff | contracts/conditional_reward/src/lib.rs:320-461 | Evaluation cannot panic on a condition if and only if the creation check accepts it, up to the reserved group |
| RewardConditions.AgeNeverExpires | contracts/conditional_reward/src/lib.rs:355-371 | A registration-age condition that passes keeps passing |
| RewardConditions.EvaluateAll | contracts/conditional_reward/src/lib.rs:272-275 | All results, or a panic if one condition panics |
| RewardRuns.FundingIsExact | contracts/conditional_reward/src/lib.rs:125-254 | Over every run the net tokens moved in equal the sum over active rewards of amount times open claims |
| RewardRuns.OpenClaimsAreFunded | contracts/conditional_reward/src/lib.rs:184-254 | Every open claim and every refund is covered and does not overflow |
| RewardRuns.ClaimantsAreDistinct | contracts/conditional_reward/src/lib.rs:184-221 | Nobody claims twice and no reward is claimed more often than its cap |
| RewardRuns.ClaimSucceedsIff | contracts/conditional_reward/src/lib.rs:184-221 | With the token's consent a claim succeeds if and only if the reward is active and not full and the player is eligible and new |
| ConditionalReward.ConditionalReward.CreateReward | contracts/conditional_reward/src/lib.rs:125-173 | Which rewards are accepted and fully funded |
| ConditionalReward.ConditionalReward.CheckEligibility | contracts/conditional_reward/src/lib.rs:175-182 | Eligible if and only if all that is asked is met in the answers of the other contracts, and the failed list names exactly the places that are not, without a panic on any stored reward |
| ConditionalReward.ConditionalReward.Claim | contracts/conditional_reward/src/lib.rs:184-221 | One payment of the amount per claimant, only to players who meet all that is asked |
| ConditionalReward.ConditionalReward.DeactivateReward | contracts/conditional_reward/src/lib.rs:223-254 | Refunds exactly the open claims, once |
| RewardLaws.EligibilityIsFulfilment | contracts/conditional_reward/src/lib.rs:267-394 | For all answers of the other contracts: eligible if and only if each mandatory condition and one of each group is met, where met means owning the token, a count that exists and suffices, an age of at least days times 86400 seconds, or access at the tier 0, 1 or 2; the failed list names the rest in order |
| RewardLaws.EvaluatesToMet | contracts/conditional_reward/src/lib.rs:320-394 | The same for one condition: it passes if and only if the test of its kind does |
| RewardLaws.TokenHasOneHolder | contracts/conditional_reward/src/lib.rs:326-335 | Two players never both pass the same token condition |
| RewardLaws.ClaimPays | contracts/conditional_reward/src/lib.rs:184-221 | A claim is accepted if and only if the reward is active and not full, the player is new and meets what is asked, and the token pays; exactly one amount leaves |
| RewardLaws.CreationFunds | contracts/conditional_reward/src/lib.rs:125-173 | Accepted if and only if every condition has what its kind reads, and the whole of amount times claims is moved in |
| RewardLaws.DeactivationRefunds | contracts/conditional_reward/src/lib.rs:223-254 | Exactly the amount for every place left is moved out |
| CertificateRuns.OwnershipIsIndexed | contracts/completion_certificate/src/lib.rs:173-343 | Over every run each unburned certificate is in its owner's list once and in no other |
| CertificateRuns.MintedOncePerPuzzle | contracts/completion_certificate/src/lib.rs:188-230 | Each certificate was minted for exactly one pair of puzzle and first owner, and no pair got two |
| CertificateRuns.ShowcaseIsExact | contracts/completion_certificate/src/lib.rs:431-446 | What is shown is exactly the owner's live certificates, each once |
| Showcase.SortByRarity | contracts/completion_certificate/src/lib.rs:448-465 | The in-place insertion sort lists the rarest first and keeps equals in order |
| Showcase.StableSortIsRanked | contracts/completion_certificate/src/lib.rs:448-465 | Sorted and stable determine the result: the weights in falling order, each in its original order |
| Showcase.RankedSize | contracts/completion_certificate/src/lib.rs:448-465 | Nothing is lost or added by the sort |
| Showcase.FasterIsRarer | contracts/completion_certificate/src/lib.rs:53-72 | A faster solution is never less rare, and a rarer one was faster |
| Certificates.Certificates.GetShowcase | contracts/completion_certificate/src/lib.rs:431-468 | A stable permutation of exactly the owner's live certificates in non-increasing weight |
| Certificates.Certificates.MintCertificate | contracts/completion_certificate/src/lib.rs:173-249 | Once per puzzle and owner, under the next id, at the end of the owner's list |
| Certificates.Certificates.Transfer | contracts/completion_certificate/src/lib.rs:253-303 | Moves a transferable certificate between the lists, also to oneself |
| Certificates.Certificates.Burn | contracts/completion_certificate/src/lib.rs:307-343 | Takes a live certificate out of its owner's list for good |
| Certificates.Certificates.RemoveFromList | contracts/completion_certificate/src/lib.rs:272-282 | Removes the first occurrence |
| Certificates.Certificates.SetAdmin | contracts/completion_certificate/src/lib.rs:161-164 | Only the administrator hands over |
| Certificates.Certificates.SetPaused | contracts/completion_certificate/src/lib.rs:166-169 | Only the administrator pauses |
| CertificateLaws.RarityIsByTime | contracts/completion_certificate/src/lib.rs:54-62 | Up to 60, 300, 900 and 3600 seconds, and the rest |
| CertificateLaws.MintGoesToOwner | contracts/completion_certificate/src/lib.rs:173-249 | Accepted if and only if the administrator mints for a new pair of puzzle and owner; the certificate goes to the end of that owner's list and to no other |
| CertificateLaws.TransferMoves | contracts/completion_certificate/src/lib.rs:253-303 | Accepted if and only if the owner moves a live, transferable certificate; it is on the recipient's list afterwards and nothing else moves |
| CertificateLaws.BurnRemoves | contracts/completion_certificate/src/lib.rs:307-343 | Accepted if and only if the owner burns a live certificate; it leaves the owner's list, and everything else stays |

## Left out

- Authorization, events, logging, TTL extension and view-only getters: host plumbing without state meaning.
- Hashing, addresses and message payloads are opaque values.
- The governance token's name, symbol and decimals, and proposal titles and argument lists beyond an opaque action.
- A checkpoint count that would pass 2^32 - 1, and token version numbers and counts of applied rules that would.
- Achievement sets: edition tokens of limited sets with their transfer, feature unlocks, and the stored progress list; `claim_set_bonus` is modelled on the list of puzzles the player owns at the call.
- Leaderboard: the timestamp stored next to a player's score (the list entries keep theirs).
- Payments made through another token contract (matches and donations, bonuses, rewards, premiums, refunds and payouts) are calls to that contract: the model has their amount and whether they succeed, but no balance of the account that is paid.
- Charity: titles, categories, donation receipts and recurring donations.
- Insurance: the list of policyholders and the two total counters, asset addresses, descriptions and review notes.
- Insurance.Insurance.Configure: the shared body of the settings calls, with no counterpart of its own in the contract.
- Cross contract: the not-initialized and already-initialized errors; the contract exists once it is initialized.
- Dynamic metadata: the append-only index of tokens per owner and the calls that replace the oracle and the migrator.
- Dynamic metadata keeps the four records of a token (metadata, owners, versions, URI) in one entry of one map rather than in four maps with the same key.
- Completion certificates: titles, solution hashes, metadata URIs and the verification view.
- Conditional reward: parameters with a value of the wrong type are modelled as missing, which is how they are read.
- Contracts not modelled: escrow does not parse, clawback_reward and fractional_nft are unfinished, batch_processing and flash_loan have no law to prove, governance repeats governance_token without checkpoints, and the remaining status machines would only add easier members.
