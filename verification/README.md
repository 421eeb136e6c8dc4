# Delivery integrity and gateway state: models and proofs

This project models the parts of the system whose correctness depends on order, concurrency or
arithmetic rather than on input and output, and proves what they guarantee.

**Delivery.** Records of one agent carry increasing sequence numbers and arrive out of order, repeated
or not at all; some numbers are dropped on purpose and reported as ranges. `WatermarkTracker`
classifies the arrivals and declares losses. `PerSeqTracker` is the naive form of it, one number at a
time; `Watermark` is the stored form, a class with the original's fields, loops and interval map
(`RangeMap`), proved to answer every call of every run as the naive form does. `DeliveryRuns` adds the
history of the calls; `LossTheory` and `ReorderTheory` prove what holds over whole runs. `LeftBehind`
says exactly what the stored form keeps of numbers already settled, and `Limits`, `Stranding` and
`Batching` what follows: where the documented bounds hold, where they do not, and when it shows.
`Channel` is the counters on top, `Reconcile` the comparison of two hops and the delivery ledger.

**Enrollment.** `AdminStore` holds install tokens and agents. A client reserves a token, gets a
credential issued, and commits or rolls back; a reservation carries no owner and lapses after 60
seconds. `EnrollmentTheory`, `TokenHistory` and `CredentialTheory` quantify over all schedules of these
transactions, which is to say over all interleavings of clients that stall, crash or are overtaken: a transaction is
one critical section, and a client that stops leaves its remaining transactions out of the schedule.
`CrashStore` goes below that level: processes that lock, load, mutate, write a temporary file, rename
and unlock, and may fail or crash at each step: no update is lost, and whoever fails or dies blocks nobody.

**Smaller parts.** `RateLimit` (failed authentications per client), `RecentAgents` (the overview's list
of six), `TomlEscape` (against a reader of TOML v1.0.0 basic strings), `Base64` and `PemKey` (the
signing key file, with padded base64 as in section 4 of RFC 4648).

Verify with `dafny verify dfyconfig.toml`.

## Reading the model

- Numbers are unbounded. Saturating operations are written out (`SatAdd`, `SatSub`, `SatAdd32`).
  Unguarded additions carry a precondition: `Representable` says that the settled prefix after the call
  fits 64 bits; `Limits.OverflowsExactly` says when it does not, `Limits.OverflowsAtTop` gives calls after
  which it does not, and `Limits.BelowTopFits` that numbers below the top are always safe. The filtered counter has such a precondition too; the other two
  counters are proved to fit.
- A ghost `run` beside the tracker's fields records what was accepted, dropped and reported lost.
  A range counts as dropping a number only from the settled prefix on, as the code clips it there.
- Times are integers; a stored time that cannot be parsed is `Unparsable`. Token hashing and random
  tokens appear as freshness: a newly issued hash has not been issued before.
- Which of several equally old buckets the rate limiter evicts depends on the hash map's order, so
  `RateLimit.Steps` leaves it open.

## Where code and documentation differ

The model follows the code.

- `watermark.rs:35` says that pending numbers are at or above `committed`. A range that starts before a
  pending record leaps over it and leaves it in the set. `Limits.FloorHoldsExactly` gives the exact
  condition, `Limits.FloorBroken` a counterexample of two calls, and `Limits.LeftBehindUnbounded` shows
  that the set grows without bound in a stream that is entirely settled, so that `pending_count` is
  not bounded by the window either. Only without a window is there no such run
  (`Limits.ZeroWindowDisjoint`).
- `watermark.rs:37` and `watermark.rs:136` call the stored ranges not yet settled. A range over records
  that were all seen while they waited is passed record by record and stays. `Limits.RangeFloorHoldsExactly`
  gives the exact condition, `Stranding.RangeFloorBroken` a counterexample of three calls, and
  `Stranding.RangesUnbounded` shows that their number grows without bound as well.
- `watermark.rs:109` says that a range is merged and skipped as a whole. Reporting it in two pieces
  has the same settled prefix, pending numbers and losses, but what stays stored can differ, in opposite
  directions: the pieces never leave more records in the set and never fewer numbers in the ranges. `Batching.BatchingTrace`
  and `Batching.BatchingStored` say exactly when and by what, from the state before the call;
  `Batching.RecordLeftAtOnce` and `Batching.RangeLeftInPieces` are a run for each direction.
- `channel.rs:63` adds the whole length of a range to `filtered_count`, also when the range is late,
  repeated or inverted. `Channel.CountersOvershoot` counts one number twice, `Channel.InvertedOvershoots`
  one number that is none. `Channel.TallyExact`,
  `Channel.CountersConserve` and `Channel.ChannelConserves` say exactly when the counters add up, and
  that they never fall short.
- `reconcile.rs:29` states the ledger's identity without a bound. At the top of the integer type the
  saturating sum also balances when it falls short of the plain one (`Reconcile.BalancedExactly`).
- `rate_limit.rs:15` names a block duration of 60 seconds. The failure window is looked at first and
  ends the block earlier unless the failures came all at once (`RateLimit.BlockLastsExactly`).
  For the same reason a client can get nine failures recorded within a nanosecond, not five
  (`RateLimit.AnyBoundAttained`).
- A reservation is not its holder's own: a late rollback withdraws the reservation of the client that
  took over (`EnrollmentTheory.LateRollbackWithdraws`). `EnrollmentTheory.CommitAfterReserve` says exactly
  after which schedules a commit goes through. The use count stays right in all of them.

## Model

| member | source | states |
|---|---|---|
| `PerSeqTracker.WalkSpec` | crates/wist-delivery/src/watermark.rs:172-197 | settling one number at a time stops at the first number that is neither covered nor overdue, and lists exactly the uncovered numbers passed |
| `PerSeqTracker.SettleExactly` | crates/wist-delivery/src/watermark.rs:172-197 | that closed form determines the settled state and the losses, in both directions |
| `DeliveryRuns.RecordOutcome` | crates/wist-delivery/src/watermark.rs:73-104 | a record is new exactly when it was neither accepted, dropped nor given up before |
| `DeliveryRuns.Reachable` | crates/wist-delivery/src/watermark.rs:30-39 | in every reachable state the prefix, the pending parts, the high mark and the losses are determined by what was accepted and dropped |
| `LossTheory.ExactLoss` | crates/wist-delivery/src/watermark.rs:30-39 | over every run, the numbers reported lost, in increasing order and each once, are exactly those more than `lag` behind the high mark that nothing covered; all below `committed` are accounted for |
| `LossTheory.OrderIrrelevant` | crates/wist-delivery/src/watermark.rs:3-9 | two runs that accepted and dropped the same numbers are in the same state with the same losses |
| `LossTheory.RedeliveryHarmless` | crates/wist-delivery/src/watermark.rs:73-124 | repeating any calls anywhere in a run changes neither the state nor the history nor the answers to first deliveries |
| `LossTheory.RepetitionsQuiet` | crates/wist-delivery/src/watermark.rs:73-124 | each repetition is answered as a duplicate without losses |
| `LossTheory.BatchingInvisible` | crates/wist-delivery/src/watermark.rs:106-124 | a range reported in two adjacent pieces leaves the same settled prefix, pending numbers from it on, high mark and losses as the whole |
| `Batching.BatchingTrace` | crates/wist-delivery/src/watermark.rs:106-124 | told from that state too: the two ways lead to the same history if and only if no pending record of the second piece is settled along with the first; at once, exactly the records of a given set are left behind more, those settled early among them; in pieces, exactly the numbers of a given set are stranded more |
| `Batching.StoredDetermined` | crates/wist-delivery/src/watermark.rs:43-47 | the history determines every stored field |
| `Batching.BatchingStored` | crates/wist-delivery/src/watermark.rs:131-139 | so the fields after the two ways are equal under exactly that condition; otherwise the set holds just those records more if the range comes at once, and the ranges just those numbers more, and are no fewer, if it comes in pieces |
| `Batching.RecordLeftAtOnce` | crates/wist-delivery/src/watermark.rs:131-134 | for every window of at least two, a run after which only the whole range leaves a record in the set |
| `Batching.RangeLeftInPieces` | crates/wist-delivery/src/watermark.rs:136-139 | and one after which only the pieces leave a range in the map |
| `LossTheory.PendingBounded` | crates/wist-delivery/src/watermark.rs:32-39 | what is pending from the settled prefix on lies strictly above it, at most `lag` numbers |
| `LossTheory.PendingPartsBounded` | crates/wist-delivery/src/watermark.rs:32-39 | with no number both accepted and dropped, the pending records and the pending dropped numbers from the prefix on are disjoint, lie above it and fit the window together |
| `ReorderTheory.AcceptedExactlyInTime` | crates/wist-delivery/src/watermark.rs:73-104 | in a stream of records in any order, an arrival is accepted exactly when it is the first of its number and no number more than `lag` above came before; a first arrival that is too late had been declared lost |
| `ReorderTheory.ToleranceTight` | crates/wist-delivery/src/watermark.rs:188-194 | a shuffled stream passes without loss and leaves nothing pending if and only if nothing arrives after a number more than `lag` above it |
| `RangeMap.PredecessorDecides` | crates/wist-delivery/src/watermark.rs:141-147 | on a canonical map, the range that starts last at or before a number decides whether any range holds it |
| `RangeMap.ScanOverlaps` | crates/wist-delivery/src/watermark.rs:149-165 | the scan, with its bound fixed in advance, finds exactly the ranges that touch or adjoin the new one and the grown end points |
| `RangeMap.MergeGrown` | crates/wist-delivery/src/watermark.rs:166-169 | replacing them keeps the map canonical and adds exactly the new range |
| `LeftBehind.LeaptWhenSettled` | crates/wist-delivery/src/watermark.rs:176-187 | whether settling leaps over a pending number is decided by the blocks of dropped numbers in the history |
| `LeftBehind.LeftRemembered` | crates/wist-delivery/src/watermark.rs:173-197 | after settling, the set holds exactly the accepted numbers ahead and those leapt over |
| `LeftBehind.RangesRemembered` | crates/wist-delivery/src/watermark.rs:173-197 | after settling, the ranges below the prefix cover exactly the stranded numbers, those whose whole block of dropped numbers had been accepted before |
| `LeftBehind.HeldExactly` | crates/wist-delivery/src/watermark.rs:37 | the history determines which numbers the stored ranges cover and where each range starts |
| `Watermark.WatermarkTracker.constructor` | crates/wist-delivery/src/watermark.rs:51-59 | a fresh tracker stores the empty run |
| `Watermark.WatermarkTracker.WithCommitted` | crates/wist-delivery/src/watermark.rs:62-70 | the same from a given settled prefix |
| `Watermark.WatermarkTracker.IsInDroppedRange` | crates/wist-delivery/src/watermark.rs:141-147 | the lookup answers membership in the union of the ranges |
| `Watermark.WatermarkTracker.InsertDroppedRange` | crates/wist-delivery/src/watermark.rs:149-170 | ranges stay disjoint and non-adjacent; covered is the old union and the new range, nothing else |
| `Watermark.WatermarkTracker.ConsumeObserved` | crates/wist-delivery/src/watermark.rs:176-179 | step 1 settles the consecutive pending numbers and keeps to the reference |
| `Watermark.WatermarkTracker.LeapRange` | crates/wist-delivery/src/watermark.rs:180-187 | step 2 skips the range that holds the next number as the reference skips it number by number |
| `Watermark.WatermarkTracker.PassOverdue` | crates/wist-delivery/src/watermark.rs:188-194 | step 3 gives up the next number when the window has passed it, and otherwise settling is complete |
| `Watermark.WatermarkTracker.SettleInPlace` | crates/wist-delivery/src/watermark.rs:173-197 | the loop terminates and leaves the state and the losses of the reference; what stays in the set and in the map is exactly what was not consumed or leapt over |
| `Watermark.WatermarkTracker.Observe` | crates/wist-delivery/src/watermark.rs:73-104 | one record: outcome, losses and new state are those of the reference |
| `Watermark.WatermarkTracker.CommitRange` | crates/wist-delivery/src/watermark.rs:114-124 | one range, inverted, late, overlapping or not: losses and new state are those of the reference |
| `Watermark.WatermarkTracker.Committed` | crates/wist-delivery/src/watermark.rs:127-129 | the settled prefix of the run |
| `Watermark.WatermarkTracker.PendingCount` | crates/wist-delivery/src/watermark.rs:132-134 | the accepted numbers above the settled prefix and, besides, those left behind by leaps |
| `Watermark.WatermarkTracker.PendingRanges` | crates/wist-delivery/src/watermark.rs:137-139 | one range for each block of numbers ahead or stranded |
| `Watermark.Replay` | crates/wist-delivery/src/watermark.rs:73-124 | over every run the stored tracker gives the replies and reaches the history of the reference |
| `Limits.OverflowsExactly` | crates/wist-delivery/src/watermark.rs:178-191 | the unguarded increments overflow if and only if the topmost number and every other one in its window are covered |
| `Limits.OverflowsAtTop` | crates/wist-delivery/src/watermark.rs:178-191 | a record at the top overflows a tracker that waits for it, and so does a range from 0 up to the top |
| `Limits.BelowTopFits` | crates/wist-delivery/src/watermark.rs:178-191 | no run over numbers below the top overflows |
| `Limits.FloorHoldsExactly` | crates/wist-delivery/src/watermark.rs:35 | the documented floor of the pending set holds if and only if no accepted number was leapt over |
| `Limits.RangeFloorHoldsExactly` | crates/wist-delivery/src/watermark.rs:37 | every stored range is yet to be settled if and only if no number is stranded |
| `Limits.StoredLength` | crates/wist-delivery/src/watermark.rs:37 | the total length of the stored ranges is the number of pending dropped numbers and stranded ones |
| `Limits.ZeroWindowDisjoint` | crates/wist-delivery/src/watermark.rs:50 | without a window no number is ever both accepted and dropped, whatever the calls |
| `Limits.DisjointKeepsFloor` | crates/wist-delivery/src/watermark.rs:32-39 | when no range covers an accepted record, all that is stored lies in (committed, high], and the number of pending records and the total length of the stored ranges together are at most high - committed, itself at most lag |
| `Limits.FloorBroken` | crates/wist-delivery/src/watermark.rs:35 | the concrete run that breaks it: record 1, then range 0 to 1 |
| `Limits.LeftBehindUnbounded` | crates/wist-delivery/src/watermark.rs:131-134 | for every window of at least one and every n there is a run with everything settled and n numbers left in the set |
| `Stranding.RangeFloorBroken` | crates/wist-delivery/src/watermark.rs:136-139 | the concrete run that leaves a settled range: record 1, the range of 1 alone, record 0 |
| `Stranding.RangesUnbounded` | crates/wist-delivery/src/watermark.rs:136-139 | for every window of at least one and every n there is a run with everything settled and n ranges left in the map |
| `Channel.TallyExact` | crates/wist-delivery/src/channel.rs:57-68 | the filtered counter is never below the numbers dropped, and equal exactly when every range was well formed, in time and new |
| `Channel.Conservation` | crates/wist-delivery/src/channel.rs:42-68 | accepted, lost and dropped numbers are the settled prefix and the pending ones, counting twice what is both accepted and dropped |
| `Channel.CountersConserve` | crates/wist-delivery/src/channel.rs:42-75 | after any calls the counters add up to at least the prefix and the pending numbers, with equality exactly when every range was well formed, in time and new, and no settled number was both accepted and dropped |
| `Channel.CountersOvershoot` | crates/wist-delivery/src/channel.rs:57-68 | a range of one number, reported twice, makes the counters exceed what was settled and dropped |
| `Channel.WeightExactly` | crates/wist-delivery/src/report.rs:65-69 | a range counts one for each number it covers, saturated at the top of the integer type, and an inverted one counts one |
| `Channel.InvertedOvershoots` | crates/wist-delivery/src/channel.rs:57-68 | so an inverted range is counted although it changes nothing |
| `Channel.ChannelConserves` | crates/wist-delivery/src/channel.rs:42-75 | the counters of a channel add up to at least the prefix, the pending records and the total length of the stored ranges, with equality exactly when every range was well formed, in time and new, and every settled number both accepted and dropped is still stored; so whenever no number was both |
| `Channel.CountersFit` | crates/wist-delivery/src/channel.rs:47-49 | the accepted and lost counters never overflow |
| `Channel.AcceptsOnce` | crates/wist-delivery/src/channel.rs:42-51 | the accepted counter counts distinct numbers |
| `Channel.QualityChannel.OnRecord` | crates/wist-delivery/src/channel.rs:42-51 | a record is accepted exactly when it was not accepted, dropped or lost before; the counters follow the history and the list of ranges is left alone |
| `Channel.QualityChannel.OnDroppedRange` | crates/wist-delivery/src/channel.rs:57-68 | a range is recorded and counted in full, its losses are counted |
| `Channel.QualityChannel.Report` | crates/wist-delivery/src/channel.rs:71-75 | the report holds the number of accepted and lost numbers of the run, the tally and the list of ranges |
| `Reconcile.SecondSegmentExactly` | crates/wist-delivery/src/reconcile.rs:18-20 | what the difference of the loss counters is, whatever prefix each hop has settled |
| `Reconcile.SecondSegmentLocates` | crates/wist-delivery/src/reconcile.rs:3-20 | for hops that settled the same prefix it is the number of records lost between them, for any order, repetition and windows; the gateway's losses are among the center's |
| `Reconcile.BalancedExactly` | crates/wist-delivery/src/reconcile.rs:44-53 | below the top the saturating check is the identity of the ledger; at the top it accepts every sum that is not smaller |
| `Reconcile.LedgerOfRun` | crates/wist-delivery/src/reconcile.rs:26-53 | with all settled, the counts of a run balance exactly when every range was well formed, in time and new, and no number both accepted and dropped |
| `Reconcile.LedgerOfReport` | crates/wist-delivery/src/reconcile.rs:26-53 | the ledger made from the report of a channel that settled all that was produced balances under exactly that condition on the channel's calls |
| `AdminStore.AdminStore.IssueInstallCode` | crates/warp-gateway/src/api/install.rs:220-245 | stores a single-use active token |
| `AdminStore.AdminStore.RecoverExpiredReservation` | crates/warp-gateway/src/api/install.rs:528-552 | releases a reservation that is 60 s old, undated or unreadable, and no other |
| `AdminStore.AdminStore.ValidateBootstrapToken` | crates/warp-gateway/src/api/install.rs:414-455 | grants exactly usable tokens, says which of six reasons there is when it refuses, and saves expiry and recovery even then |
| `AdminStore.AdminStore.ReserveEnrollmentToken` | crates/warp-gateway/src/api/enrollment.rs:183-227 | takes one use of a usable token; a refusal changes nothing; when the answer is a duplicate agent, a failed save or an invalid token |
| `AdminStore.AdminStore.CommitReservedRegistration` | crates/warp-gateway/src/api/enrollment.rs:229-303 | registers the agent and settles the token, or changes nothing and says why |
| `AdminStore.AdminStore.RollbackReservation` | crates/warp-gateway/src/api/enrollment.rs:305-321 | gives a reserved use back |
| `AdminStore.AdminStore.EnrollAgent` | crates/warp-gateway/src/api/enrollment.rs:91-177 | a whole enrollment without competitors, where each save may fail: when it is accepted, that it then registers exactly the agent, and precisely what a rejected one leaves, which is the token as it was, its lapsed reservation released, or, after a failed rollback, the reservation |
| `AdminStore.AdminStore.RenewCredential` | crates/warp-gateway/src/api/agent_ops.rs:197-212 | replaces a credential only if it is still the one presented |
| `AdminStore.AdminStore.SubmitStatus` | crates/warp-gateway/src/api/agent_ops.rs:42-51 | updates the report of a registered agent |
| `AdminStore.AdminStore.AuthenticateAgent` | crates/warp-gateway/src/api/agent_ops.rs:257-309 | accepts exactly the current, active, unexpired credential of the agent and instance, and says why otherwise |
| `AdminStore.ConstantTimeEq` | crates/warp-gateway/src/api/agent_ops.rs:311-320 | the comparison without early exit is equality |
| `EnrollmentTheory.AlwaysSound` | crates/warp-gateway/src/api/enrollment.rs:183-321 | the counting invariant holds under every schedule |
| `EnrollmentTheory.TokenUseBounded` | crates/warp-gateway/src/api/enrollment.rs:183-321 | registrations through a token never exceed its uses; the stored count equals them, or one more while reserved; nothing saturates |
| `EnrollmentTheory.OneAgentPerInstallCode` | crates/warp-gateway/src/api/install.rs:220-245 | from the empty store, an install code registers at most one agent under every schedule |
| `EnrollmentTheory.AgentsRegisteredOnce` | crates/warp-gateway/src/api/enrollment.rs:252-303 | the stored agents are those registered, each once |
| `EnrollmentTheory.ReserveGrantedExactly` | crates/warp-gateway/src/api/enrollment.rs:191-224 | when a reservation is granted in a reachable store: the token is there, of the configured tenant and environment, active or reserved 60 s ago or undated or unreadably, not expired at the later clock reading, and the agent unregistered; refused, it changes nothing |
| `EnrollmentTheory.ValidateGrantedExactly` | crates/warp-gateway/src/api/install.rs:414-455 | when validation answers yes in a reachable store, in the same terms |
| `EnrollmentTheory.ValidateLeaves` | crates/warp-gateway/src/api/install.rs:414-455 | what it leaves: a token of this tenant and environment is marked when its time is up, else its lapsed reservation released, and nothing else changes |
| `EnrollmentTheory.AbandonedReservationLapses` | crates/warp-gateway/src/api/install.rs:528-552 | after any schedule in which the token was left open, with any further reservations, rollbacks and validations, whoever comes 60 s after the last reservation gets it, unless already registered |
| `EnrollmentTheory.ValidatedCanReserve` | crates/warp-gateway/src/api/install.rs:424-451 | what validation accepts can be reserved by any unregistered agent |
| `TokenHistory.TokenOfSchedule` | crates/warp-gateway/src/api/enrollment.rs:183-321 | from the empty store, every schedule determines each token: tenant, environment, times and uses are those of its issue; it is expired if a validation found it so, or else used if it registered an agent, or else reserved since the last granted and unreleased reservation, or else active |
| `TokenHistory.ReserveBySchedule` | crates/warp-gateway/src/api/enrollment.rs:191-224 | so the schedule decides whether a reservation is granted; for another tenant or environment than that of the issue never, and without effect |
| `TokenHistory.ValidateBySchedule` | crates/warp-gateway/src/api/install.rs:414-455 | and what validation answers |
| `TokenHistory.FreshCodeValidates` | crates/warp-gateway/src/api/install.rs:220-245 | a fresh install code validates for exactly its own tenant and environment, from its issue until its lifetime is over |
| `EnrollmentTheory.SpentForever` | crates/warp-gateway/src/api/install.rs:443-451 | a used, expired or revoked token stays so under every schedule and registers nobody any more |
| `EnrollmentTheory.RollbackUndoesReserve` | crates/warp-gateway/src/api/enrollment.rs:305-321 | reserve and rollback of an active token leave the store as it was |
| `EnrollmentTheory.ReservedThrough` | crates/warp-gateway/src/api/enrollment.rs:183-321 | through any schedule, a token stays reserved if and only if every release is followed by a granted reservation, and an agent unregistered if and only if nothing registers it |
| `EnrollmentTheory.CommitAfterReserve` | crates/warp-gateway/src/api/enrollment.rs:229-303 | the commit after a granted reservation and any schedule is allowed exactly when the agent was not registered meanwhile and every release was followed by a granted reservation, whoever made it |
| `EnrollmentTheory.UndisturbedCommit` | crates/warp-gateway/src/api/enrollment.rs:183-303 | it goes through whenever nobody rolls back or commits on the token, all validations and reservations of it come before it lapses (and validations before it expires), and nobody registers the agent, however much else happens |
| `EnrollmentTheory.LateRollbackWithdraws` | crates/warp-gateway/src/api/enrollment.rs:305-321 | a stalled client's rollback makes the commit of the client that took over fail |
| `CredentialTheory.AlwaysSound` | crates/warp-gateway/src/api/agent_ops.rs:146-234 | the credential invariant holds under every schedule with fresh tokens |
| `CredentialTheory.EmptySound` | crates/warp-gateway/src/infra/store.rs:26-30 | the empty store meets the credential invariant |
| `CredentialTheory.RotationIsChain` | crates/warp-gateway/src/api/agent_ops.rs:146-234 | each successful renewal replaces exactly what the previous one of the agent issued, the first one what its registration installed; the agent holds the whole credential at the end of the chain, none is replaced twice, and the rest of the agent is as registered but for its last status report |
| `CredentialTheory.RegisteredStays` | crates/warp-gateway/src/api/enrollment.rs:252-303 | the agent as it was registered is on record for good |
| `CredentialTheory.AuthenticExactly` | crates/warp-gateway/src/api/agent_ops.rs:257-309 | after any schedule, a bearer is let in if and only if it holds the credential last issued to the agent, comes from the registered instance, and that credential has not expired by its own expiry |
| `CredentialTheory.RenewGrantedExactly` | crates/warp-gateway/src/api/agent_ops.rs:197-212 | and renews if and only if it presents that credential from that instance |
| `CredentialTheory.RenewedIsLetIn` | crates/warp-gateway/src/api/agent_ops.rs:207-210 | whoever renewed is let in with the new credential until its own expiry, until the agent renews again, whatever else happens |
| `CredentialTheory.OneWinner` | crates/warp-gateway/src/api/agent_ops.rs:146-234 | of all renewals that presented one credential at most one succeeds |
| `CredentialTheory.SupersededIsUseless` | crates/warp-gateway/src/api/agent_ops.rs:257-292 | a replaced credential never authenticates or renews again |
| `CredentialTheory.OthersKeepCredentials` | crates/warp-gateway/src/api/agent_ops.rs:42-51 | all other transactions leave every agent as it is, but for a status report, which replaces exactly the report of its agent |
| `CrashStore.NoLostUpdate` | crates/warp-gateway/src/infra/store.rs:130-219 | under every interleaving, failure and crash the file is absent or whole and holds exactly the updates renamed into place, in the order in which their processes got the lock; every answered update is among them; the lock is held if and only if somebody is at work, and by nobody else |
| `CrashStore.FileChangesByRenameOnly` | crates/warp-gateway/src/infra/store.rs:141-219 | nothing but a rename changes the file, and that one applies one whole update; a refused mutation leaves it alone |
| `CrashStore.HolderGone` | crates/warp-gateway/src/infra/store.rs:293-297 | a holder that fails or dies gives the lock back; failing, it removes its temporary file |
| `CrashStore.UpdateGoesThrough` | crates/warp-gateway/src/infra/store.rs:130-219 | after any run, a process that finds the lock free gets its update saved and answered, or refused, with the lock free again and nothing else changed |
| `CrashStore.CrashBlocksNobody` | crates/warp-gateway/src/infra/store.rs:130-219 | a crash of the holder keeps nobody else's update from being saved |
| `CrashStore.TakenNameFails` | crates/warp-gateway/src/infra/store.rs:189-218 | a temporary name that is taken makes the update fail with the file as it was |
| `CrashStore.OnlyCrashesLitter` | crates/warp-gateway/src/infra/store.rs:215-217 | without crashes there is no temporary file but the one being written |
| `CrashStore.LoggedWereGranted` | crates/warp-gateway/src/infra/store.rs:141-153 | every reservation and commit in the file's history was granted when its turn came |
| `CrashStore.OthersAlwaysSave` | crates/warp-gateway/src/infra/store.rs:130-139 | the other transactions are saved even when they achieve nothing |
| `CrashStore.SequentialIsSchedule` | crates/warp-gateway/src/infra/store.rs:130-153 | the content of the file is that of a schedule of the transactions |
| `CrashStore.FileBoundsTokenUse` | crates/warp-gateway/src/infra/store.rs:130-219 | so the file never shows a token used more often than allowed, whatever processes do |
| `RateLimit.RateLimiter.CheckRateLimit` | crates/warp-gateway/src/api/rate_limit.rs:42-73 | refuses exactly blocked clients within their window, with the time to wait in whole seconds, at least one; drops finished buckets |
| `RateLimit.RateLimiter.RecordAuthFailure` | crates/warp-gateway/src/api/rate_limit.rs:75-98 | counts the failure in the client's bucket, evicting an oldest other bucket when the map is full, and never outgrows it |
| `RateLimit.RateLimiter.ClearAuthFailures` | crates/warp-gateway/src/api/rate_limit.rs:100-106 | forgets the client |
| `RateLimit.RateLimiter.EvictOldestBucket` | crates/warp-gateway/src/api/rate_limit.rs:112-120 | removes one bucket, and none that stays has an earlier first failure |
| `RateLimit.StepOnLane` | crates/warp-gateway/src/api/rate_limit.rs:75-98 | clients do not affect each other but by eviction from a full map of an oldest bucket, never the one being recorded |
| `RateLimit.MapBounded` | crates/warp-gateway/src/api/rate_limit.rs:16-18 | in every run the map keeps its bound |
| `RateLimit.LaneFollows` | crates/warp-gateway/src/api/rate_limit.rs:42-106 | over every run a client's bucket is the one its own operations leave, unless it is evicted |
| `RateLimit.RateBound` | crates/warp-gateway/src/api/rate_limit.rs:13-15 | with requests one by one: at most five failures per window begun since the first, and five per whole window plus nine in any period |
| `RateLimit.RateBoundInRun` | crates/warp-gateway/src/api/rate_limit.rs:42-98 | the same for every run of the whole map among any other clients, with the checks answered by the map, as long as the client is not evicted |
| `RateLimit.FirstBoundAttained` | crates/warp-gateway/src/api/rate_limit.rs:42-98 | the first bound is reached, for every number of windows, in a run of the map from the empty one |
| `RateLimit.AnyBoundAttained` | crates/warp-gateway/src/api/rate_limit.rs:42-98 | so is the second, in such a run too |
| `RateLimit.BlockLastsExactly` | crates/warp-gateway/src/api/rate_limit.rs:47-52 | a block lasts as long as its time and the window of the first failure do, and its full time exactly when the failures came all at once |
| `RecentAgents.RecentList.RecordRecentOnlineAgent` | crates/warp-gateway/src/api/overview.rs:189-194 | after every enrollment the list is the first six different agents of the history, newest first |
| `RecentAgents.ListedOnce` | crates/warp-gateway/src/api/overview.rs:189-194 | no agent is listed twice, and at most six are |
| `RecentAgents.ListedExactly` | crates/warp-gateway/src/api/overview.rs:189-194 | an agent is listed, with its latest enrollment, if and only if fewer than six others enrolled since |
| `TomlEscape.EscapeToml` | crates/warp-gateway/src/api/install.rs:488-504 | the loop computes the escape of every character |
| `TomlEscape.RoundTrip` | crates/warp-gateway/src/api/install.rs:488-504 | every value, escaped and quoted, reads as one basic string that ends there and gives the value back |
| `TomlEscape.PlainKept` | crates/warp-gateway/src/api/install.rs:488-504 | text without control characters, quotation marks and backslashes is written as it is |
| `TomlEscape.NothingRaw` | crates/warp-gateway/src/api/install.rs:488-504 | no control character is written raw |
| `TomlEscape.ShortEscapes` | crates/warp-gateway/src/api/install.rs:492-496 | the five short escapes |
| `TomlEscape.LongEscapes` | crates/warp-gateway/src/api/install.rs:497-499 | the long ones by two examples |
| `Base64.DecodeOfEncode` | crates/warp-gateway/src/infra/install_signing.rs:50 | every byte string is read back from its encoding |
| `Base64.EncodeOfDecode` | crates/warp-gateway/src/infra/install_signing.rs:109-111 | a text decodes only if it is the encoding of the result |
| `Base64.EncodeExactly` | crates/warp-gateway/src/infra/install_signing.rs:50 | what is written: the four six-bit digits of each three bytes, padded with zero bits, in the standard alphabet, and equals signs to fill up four |
| `PemKey.WrapBase64Lines` | crates/warp-gateway/src/infra/install_signing.rs:127-134 | the loop cuts the text into lines |
| `PemKey.WrappedLines` | crates/warp-gateway/src/infra/install_signing.rs:127-134 | the lines make up the text, and all but the last have the full width, the last at least one character |
| `PemKey.PrivateKeyPem` | crates/warp-gateway/src/infra/install_signing.rs:49-53 | the text written for a key |
| `PemKey.FileOfOneByte` | crates/warp-gateway/src/infra/install_signing.rs:49-53 | the file of one byte, character by character |
| `PemKey.Find` | crates/warp-gateway/src/infra/install_signing.rs:97-103 | the first occurrence, or none |
| `PemKey.DecodesExactly` | crates/warp-gateway/src/infra/install_signing.rs:96-112 | whatever text surrounds it, other PEM blocks and hyphens included, as long as the header and the footer are the first of their kind, and with any white space within, a key is read if and only if the body is its encoding; and an empty body is an error |
| `PemKey.CompactExactly` | crates/warp-gateway/src/infra/install_signing.rs:105 | the 25 white space characters and no others are left out |
| `PemKey.NoHeaderExactly` | crates/warp-gateway/src/infra/install_signing.rs:97-99 | the answer is a missing header exactly when there is none |
| `PemKey.NothingToDecode` | crates/warp-gateway/src/infra/install_signing.rs:101-103 | without a footer after the first header, reading fails |
| `PemKey.RoundTrip` | crates/warp-gateway/src/infra/install_signing.rs:49-112 | every key written is read back; an empty one is rejected |

## Left out

- RateLimit.RateBoundInRun: assumes that one client's requests do not overlap, because parallel requests all pass the check before the first failure is recorded, and then any number is recorded.
- RateLimit.LaneFollows: says nothing about a client after an eviction of its bucket, which forgets its failures.
- AdminStore.AdminStore.EnrollAgent: a save that fails has no effect here; one that reports an error after the rename is modelled in `CrashStore` only.
- Agent identifiers derived from host names, and the agent record's node, host and machine fields, which nothing else depends on.
- Sub-steps of authentication before the store is read (headers, token syntax), HTTP, TLS, storage and metrics back ends.
- Loss of power: a rename that was answered stays; the calls that force data to disk are not modelled.
- The two locks of the store (one in the process, one on a lock file) are one lock; on platforms without file locks the original has none between processes.
- A poisoned lock, and an empty or unreadable store file, which the original reads as an empty store or as an error.
- The cache of the parsed signing key, and the cryptography itself.
- `crates/wist-center/src/api/rate_limit.rs`, which repeats the gateway's limiter.
- The rest of the overview: who counts as online, and the metrics shown.
