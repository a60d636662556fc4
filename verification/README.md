# ramjet: models of the analysis and supervision programs

ramjet is a load balancer for language-model servers that keep prompt prefixes
cached. Around the router stand programs that analyse its route journal, replay its
decisions, decode streamed answers and supervise experiments on a GPU node. This
project models those programs in Dafny and proves what they are relied on for.

| file | models |
|---|---|
| `Common.dfy`, `Requests.dfy` | shared values; completed requests of the journal |
| `Pairing.dfy` | pairing start and finish records |
| `LinkTurns.dfy` | linking conversation turns by binary search |
| `CacheCredit.dfy` | counterfactual cache credit and the shortest useful horizon |
| `LiveSet.dfy` | sweep-line size of a retention tier |
| `Decomposition.dfy`, `SnapshotReport.dfy` | where uncached tokens went; the report end to end |
| `AgeRuns.dfy` | block ages as the router writes them and as the analyses read them |
| `RouteOrder.dfy`, `RouteReplay.dfy`, `SessionAffinity.dfy` | ranking, choice, affinity bases, record checks, session affinity |
| `ChildTree.dfy`, `Termination.dfy`, `Guard.dfy` | process ownership, two-deadline termination, the guard's polling loops |
| `EventStream.dfy`, `Assembly.dfy` | incremental event-stream decoding and reassembly |
| `CandidateGate.dfy`, `SoakGate.dfy` | resumable gate journal; rollback protocol |
| `Archive.dfy`, `Pareto.dfy` | first-wins journal archive; range dominance |

## Main results

- The tier sweep is exact: its peaks are the maxima over all instants and its areas
  the integrals over time of the brute-force size, for every request list.
- A journal determines its paired requests, and the report built from them is coherent:
  every uncached token is attributed once, longer horizons and shared tiers never recover
  less, and nothing recovers more than the recoverable part.
- The shortest useful horizon is least among all naturals, not only among recorded
  instants. No finite horizon helps exactly when the dated part of the request gains
  nothing; an undated candidate is the exception, with a witness.
- Turn linking by binary search picks what a scan over all requests would pick. Links run
  in a circle only through turns that start and finish in one millisecond. The
  conversation start is specified for every list. In a journal whose turns do not finish
  before they start, it is the root's start unless two such instants are linked on the way
  or the root is at time zero, which reads as "not set"; both exceptions are exact, with
  witnesses whose links are the ones linking sets.
- The router's age journal keeps the longest prefix of at most 64 runs and whatever later
  rejoins its last run. Replay reads the fresh count back under a condition on the ages
  alone, proved both ways for every walk. Three witnesses: a block half a millisecond past
  the horizon, a clean cut spoiled by a block that rejoins a run, and a dropped block that
  does no harm.
- Relative affinity is documented (`docs/configuration.md:202-203`, `src/router.rs:430-431`)
  to differ between any two candidates by what the lesser would recompute, capped. The
  code does so exactly when the lesser trails the leader within the cap or the greater is
  the leader; the model follows the code and gives a witness. The two neighbouring claims
  hold: below the cap all bases choose alike, and for two replicas marginal and relative do.
- The overlap tie-break is a strict total order. The load-neutral one runs in a circle
  exactly on straddling triples, and is an order when there are none.
- A guard run passes exactly on a clean poll after only quiet polls and no three
  consecutive missed samples; an overdue run ends within two further polls. One environment
  has one ending, one set of kills and one report. A record can say `passed` with exit code
  74. This happens exactly for a run with a clean end whose tree is alive when stopping it
  begins, is gone in time, and missed a sample that was read before that; with a witness.
- Stopping the tree kills only live processes and with a cause, spares the rollback owner
  before its deadline and meets both deadlines, for every sequence of passes.
- A gate run may be cut at any byte of an append. The journal after any sequence of runs is
  sound exactly if no run wrote over a pass that lacked its newline and then recorded that
  stage as resumed; a witness does so and completes with code 0. Every other cut is safe.
- Event-stream payloads do not depend on chunk boundaries. Cutting an event in two at one of
  its deltas leaves every result as it was if the indices from the cut on do not depend on
  position; for contents, reasoning and arguments the condition is exact, with a witness.

## Modelling choices

- Times are integers (milliseconds; nanoseconds for the router's durations), tokens,
  bytes and temperatures are reals. Results are stated before display rounding.
- Block counts and ages are naturals, as the journal's writer produces them. A missing or
  malformed age list is one value, `None`.
- Clocks, samples, process tables, signals, child exits and failures are arbitrary inputs
  of each step. Digests are opaque values compared for equality.
- Sorting by a comparator that may not be transitive is specified by what every
  comparison sort leaves behind: no neighbours in the wrong order.
- Where a dictionary's iteration order is irrelevant to the result, the model visits keys
  in any order.

## Model

| member | source | states |
|---|---|---|
| `Pairing.PairRequests` | bench/snapshot_roi.py:214-286 | the requests are exactly the adjacent start/finish pairs that pass every filter, ordered by container, finish time and place in the journal; first-seen times are the minima per container |
| `Pairing.PairedIsUnique` | bench/snapshot_roi.py:214-286 | those conditions leave exactly one possible list for every journal |
| `Pairing.StartIsAdjacent` | bench/snapshot_roi.py:217-236 | the start a finish takes is the one with no other record of the same container and sequence number between them |
| `Pairing.TakeLine` | bench/snapshot_roi.py:225-284 | one journal line keeps both the pairs found and the starts still waiting exact |
| `Pairing.SeeLine` | bench/snapshot_roi.py:229-231 | the first-seen time stays the least time of its container |
| `Pairing.CollectCandidates` | bench/snapshot_roi.py:256-262 | the loop fills the candidate dictionary, a known upstream keeping its place |
| `Pairing.CandidatesAreLast` | bench/snapshot_roi.py:256-262 | a request has one candidate per selected upstream, taken from its last entry in the start record |
| `Pairing.SortRequests` | bench/snapshot_roi.py:285 | the stable sort by container and finish |
| `Pairing.Passes` | bench/snapshot_roi.py:237-267 | the filter sequence accepts exactly the pairs that meet every condition |
| `Pairing.StartsPairOnce` | bench/snapshot_roi.py:233 | no start serves two finishes |
| `Pairing.InfoOf` | bench/snapshot_roi.py:268-284 | cached tokens never exceed the prompt |
| `LinkTurns.IndexFinishes` | bench/snapshot_roi.py:291-295 | the lists hold exactly every request's finish under its container and upstream, sorted |
| `LinkTurns.BisectLeft` | bench/snapshot_roi.py:304 | everything before the position is less than the probe and nothing after it is |
| `LinkTurns.ScanWindow` | bench/snapshot_roi.py:301-315 | after the window of one candidate the choice is best among all candidates considered |
| `LinkTurns.FindLink` | bench/snapshot_roi.py:296-317 | the link is the one a scan over all requests would choose, or none exactly if no request is eligible |
| `LinkTurns.BestLinkIsUnique` | bench/snapshot_roi.py:308-314 | deepest overlap, then earliest candidate, then earliest finish determine one link |
| `LinkTurns.AttachLinks` | bench/snapshot_roi.py:289-317 | every request gets the full scan's link |
| `LinkTurns.BestLinksAreBackward` | bench/snapshot_roi.py:310 | a predecessor finished no later than the turn started |
| `LinkTurns.WalksGoBack` | bench/snapshot_roi.py:318-323 | with positive durations every walk along links goes strictly back in time, so links are acyclic |
| `LinkTurns.ClosedWalksAreInstant` | bench/snapshot_roi.py:308-325 | with durations that are not negative, links run in a circle only through turns that start and finish at one instant |
| `LinkTurns.InstantTurnsCanCycle` | bench/snapshot_roi.py:308-314 | two zero-duration turns can link to each other |
| `LinkTurns.ChainStartIsAnchor` | bench/snapshot_roi.py:318-323 | the chain start is the start of the turn the program follows back to, except where that is zero and the predecessor starts later |
| `LinkTurns.ChainStartIsRoot` | bench/snapshot_roi.py:318-323 | for every turn whose links lead to a root the chain start is the root's start if and only if the turn the program follows back to starts with the root and, where that is time zero, so does the predecessor |
| `LinkTurns.StepIsEarlier` | bench/snapshot_roi.py:318 | in the order pairing gives, a predecessor is settled before its continuation unless both are instants of the same millisecond |
| `LinkTurns.ChainStartOfWalk` | bench/snapshot_roi.py:318-323 | so a turn on whose walk no link joins two such instants gets the root's start if and only if that is not zero, or the turn is the root, or its predecessor starts at zero |
| `LinkTurns.ZeroRootIsLost` | bench/snapshot_roi.py:289-323 | three linked turns from time zero on: the third takes the second one's start |
| `LinkTurns.InstantRootIsLost` | bench/snapshot_roi.py:289-323 | three linked turns of which two share a millisecond and the continuation is listed first: it takes its predecessor's start |
| `LinkTurns.OrderByStart` | bench/snapshot_roi.py:318 | the stable sort: every turn, by start time, equal starts by place in the list |
| `LinkTurns.SettleTurn` | bench/snapshot_roi.py:318-325 | one turn takes its chain start from its predecessor, may lower that predecessor's consumption time, and changes nothing else |
| `LinkTurns.SettleNext` | bench/snapshot_roi.py:318-325 | settling the next turn of the order gives it its chain start and keeps every consumption time least so far |
| `LinkTurns.FollowChains` | bench/snapshot_roi.py:318-325 | for every list of linked requests: each chain start as specified and each consumption time the least start among all continuations |
| `LinkTurns.ConsumedAfterFinish` | bench/snapshot_roi.py:310-325 | a tail is never consumed before it finished |
| `LinkTurns.LinkAll` | bench/snapshot_roi.py:289-325 | every link is the full scan's and points backward, chain starts are as specified and consumption times are the first continuations' |
| `CacheCredit.FreshBlocks` | bench/snapshot_roi.py:338-352 | the loop yields the leading fresh blocks, with unrecorded blocks inheriting the last age |
| `CacheCredit.FreshMonotone` | bench/snapshot_roi.py:338-352 | a longer horizon never counts fewer fresh blocks and never more than the overlap |
| `CacheCredit.TokensProportional` | bench/snapshot_roi.py:328-335 | tokens are proportional to bytes up to the canonical size and the whole prompt beyond it |
| `CacheCredit.TokensMonotone` | bench/snapshot_roi.py:328-335 | block credit grows with blocks and stays within the prompt |
| `CacheCredit.HypotheticalCached` | bench/snapshot_roi.py:355-368 | the loop yields the largest of the observed cache, the link's credit and every candidate's credit in scope |
| `CacheCredit.CreditMonotone` | bench/snapshot_roi.py:355-368 | on every path the credit lies between cached and prompt and grows with the horizon |
| `CacheCredit.CreditByScope` | bench/snapshot_roi.py:359-365 | a shared tier supplies at least what a local one does |
| `CacheCredit.AvoidableTokens` | bench/snapshot_roi.py:371-375 | gains below the noise floor count as zero |
| `CacheCredit.AvoidableMonotone` | bench/snapshot_roi.py:371-375 | avoidable tokens are non-negative, grow with the horizon and never exceed the uncached tokens |
| `CacheCredit.AvoidableByScope` | bench/snapshot_roi.py:371-375 | nor does sharing ever make fewer tokens avoidable |
| `CacheCredit.CreditStep` | bench/snapshot_roi.py:381-389 | the credit changes only at recorded ages and the link gap |
| `CacheCredit.CreditBelowInstants` | bench/snapshot_roi.py:381-389 | below every such instant nothing beyond the observed cache is credited |
| `CacheCredit.CreditBeyondInstants` | bench/snapshot_roi.py:343-352 | beyond every instant the credit is the infinite one of the request with undated overlap removed |
| `CacheCredit.CollectInstants` | bench/snapshot_roi.py:384-389 | the set of instants at which the credit can change |
| `CacheCredit.RecoversAtInstant` | bench/snapshot_roi.py:384-393 | if any horizon recovers the miss, an instant no later than it does |
| `CacheCredit.RequiredHorizon` | bench/snapshot_roi.py:378-393 | the result is the least of all horizons that recover the miss; none exactly when no finite horizon does, and with ages everywhere exactly when the infinite-horizon gain is zero |
| `CacheCredit.FiniteRecovery` | bench/snapshot_roi.py:378-393 | some finite horizon recovers the miss if and only if the dated request does at the infinite horizon |
| `CacheCredit.UndatedGainIsUnreachable` | bench/snapshot_roi.py:343-352 | a candidate without ages can hold an infinite-horizon gain no finite horizon reaches |
| `LiveSet.CollectEvents` | bench/snapshot_roi.py:411-425 | one arrival and one departure per tail the tier holds |
| `LiveSet.Sweep` | bench/snapshot_roi.py:431-446 | after the sweep the peaks are the maxima of the running totals and the areas equal clock times total minus moment |
| `LiveSet.SizeIsARun` | bench/snapshot_roi.py:428-446 | the size at every instant is one of the running totals |
| `LiveSet.RunIsBounded` | bench/snapshot_roi.py:428-446 | every running total is bounded by the size at some instant, because departures come before arrivals of the same instant |
| `LiveSet.SweepIsExact` | bench/snapshot_roi.py:428-453 | peak equals the brute-force maximum over all instants and area equals the sum over tails of weight times time held |
| `LiveSet.MeasureTier` | bench/snapshot_roi.py:403-453 | both peaks and both means of the tier against their brute-force definitions, for every request list |
| `LiveSet.AreaIsIntegral` | bench/snapshot_roi.py:436-441 | the area is the sum of the tier size over every millisecond of the window |
| `LiveSet.TiersGrow` | bench/snapshot_roi.py:403-425 | at every instant, and in area, a longer horizon or a wider selection never shrinks the tier |
| `LiveSet.PeaksGrow` | bench/snapshot_roi.py:403-425 | peaks are ordered by horizon, and the useful-only tier never exceeds the full one |
| `LiveSet.UsefulTail` | bench/snapshot_roi.py:413-422 | after linking a useful tail is held exactly from its finish to its consumption |
| `Decomposition.RequestConserves` | bench/snapshot_roi.py:537-550 | one request's parts are non-negative, sum to its uncached tokens, and the part below the noise floor really is below it |
| `Decomposition.Conserves` | bench/snapshot_roi.py:533-550 | over all requests the parts sum to total prompt minus total cached tokens |
| `Decomposition.LinkIsCredited` | bench/snapshot_roi.py:543-546 | without a horizon a linked predecessor's prompt is always credited, so what a continuation adds beyond it is new |
| `Decomposition.Decompose` | bench/snapshot_roi.py:533-550 | the accumulation loop yields those parts |
| `SnapshotReport.LinkJournal` | bench/snapshot_roi.py:214-325 | pairing and linking a journal gives the paired requests in order, each with the full scan's link, its first continuation and its chain start |
| `SnapshotReport.JournalChainStarts` | bench/snapshot_roi.py:214-325 | in every journal whose turns do not finish before they start, a turn on whose walk no link joins two instants of one millisecond has its conversation's start unless that is time zero |
| `SnapshotReport.SumAvoidable` | bench/snapshot_roi.py:470-475 | the total over all requests |
| `SnapshotReport.MeasureGains` | bench/snapshot_roi.py:466-477 | one total per scope and horizon |
| `SnapshotReport.MeasureTiers` | bench/snapshot_roi.py:570-575 | one tier per horizon, each with its true peaks and means |
| `SnapshotReport.TotalsGrow` | bench/snapshot_roi.py:469-485 | avoidable totals grow with the horizon and with the scope and never exceed the uncached tokens |
| `SnapshotReport.RecoverableIsReference` | bench/snapshot_roi.py:475-477 | the recoverable part of the decomposition is the shared, unlimited total, so captured shares never exceed one |
| `SnapshotReport.TiersOrdered` | bench/snapshot_roi.py:570-575 | measured tiers are ordered by horizon and selection |
| `SnapshotReport.ReportIsCoherent` | bench/snapshot_roi.py:456-575 | the figures of one report agree with each other across horizons, scopes and tiers |
| `SnapshotReport.Analyze` | bench/snapshot_roi.py:456-575 | for every journal and horizon list the report is about exactly the journal's requests, attributes every uncached token, and is coherent |
| `AgeRuns.Walk` | src/affinity_horizon.rs:310-342 | the walk records the found prefix, its leading fresh blocks and its run-length ages, capped at 64 runs |
| `AgeRuns.PushAge` | src/affinity_horizon.rs:327-334 | one more block joins the last run, starts a new one below 64 runs, or is dropped |
| `AgeRuns.RunsAnswer` | src/affinity_horizon.rs:327-334 | the recorded runs answer any horizon exactly if a stale run was recorded or no block was dropped |
| `AgeRuns.RunsRecord` | src/affinity_horizon.rs:327-334 | the journal keeps exactly the longest prefix of at most 64 runs and the later blocks that rejoin its last run, and shows a stale run exactly if that prefix has a stale block |
| `AgeRuns.TruncationGap` | src/affinity_horizon.rs:352-354 | millisecond truncation can only make blocks look fresher, and does so exactly when the first stale block truncates to the horizon |
| `AgeRuns.ReplayReadsWalk` | bench/route_replay.py:172-189 | for every walk replay reads back the router's fresh count if and only if the ages are readable: with everything kept or a stale block kept, the cut is clean; otherwise the fresh blocks are as many as the kept and rejoined ones |
| `AgeRuns.AnalysisReadsWalk` | bench/snapshot_roi.py:338-352 | the retention analysis reads it back under the same condition when a stale run was recorded, and otherwise exactly when every block is fresh |
| `AgeRuns.ReadersAgree` | bench/route_replay.py:184-189 | replay never credits more than the retention analysis, and the same if and only if ages are empty, show a stale run or cover the overlap |
| `AgeRuns.SubMillisecondMismatch` | src/affinity_horizon.rs:326-339 | a block half a millisecond past the horizon is stale to the router and fresh to the replay |
| `AgeRuns.RejoinMismatch` | src/affinity_horizon.rs:327-339 | 66 blocks with a clean cut of which only a stale one is dropped: the router counts 64 fresh, replay 65 |
| `AgeRuns.DroppedButRead` | src/affinity_horizon.rs:327-339 | 65 blocks of which a stale one is dropped and the fresh count is still read back |
| `RouteOrder.RotationKeepsApart` | bench/route_replay.py:454-458 | rotation ranks of numbered upstreams are distinct |
| `RouteOrder.Antisymmetric` | bench/route_replay.py:439-458 | swapping the arguments negates the comparison |
| `RouteOrder.Total` | bench/route_replay.py:439-458 | distinct upstreams are always ranked, one way only |
| `RouteOrder.OverlapTransitive` | bench/route_replay.py:439-458 | the overlap tie-break is transitive |
| `RouteOrder.LoadNeutralCycles` | bench/route_replay.py:452 | three candidates form a cycle if and only if two equally loaded ones straddle a differently loaded one against the rotation |
| `RouteOrder.LoadNeutralIsNotAnOrder` | bench/route_replay.py:452 | such a cycle exists |
| `RouteOrder.RuleIsTransitive` | bench/route_replay.py:439-458 | either rule is transitive without straddling triples |
| `RouteOrder.StraddlingIsNotTransitive` | bench/route_replay.py:452 | and a straddling triple breaks it |
| `RouteOrder.StraddlingHeads` | bench/route_replay.py:452-460 | a straddling triple above all other candidates has settled arrangements with different heads, so the choice depends on the order of the list |
| `RouteOrder.BinaryInsert` | bench/route_replay.py:460 | inserting by binary search leaves no inverted neighbours even under an intransitive rule |
| `RouteOrder.SortCandidates` | bench/route_replay.py:460 | a rearrangement of the candidates with no inverted neighbours |
| `RouteOrder.HeadIsBest` | bench/route_replay.py:439-460 | under either rule the head is healthy if anyone is and has the best score of its health class |
| `RouteOrder.HeadIsFirst` | bench/route_replay.py:439-460 | under a transitive rule the head comes before every other candidate |
| `RouteOrder.HeadIgnoresOrder` | bench/route_replay.py:460 | every settled arrangement of the same candidates has the same head |
| `RouteReplay.CreditedOverlap` | bench/route_replay.py:172-189 | leading blocks within the horizon, or an error for malformed records |
| `RouteReplay.CreditedMonotone` | bench/route_replay.py:172-189 | credited overlap grows with the horizon and never exceeds the raw overlap |
| `RouteReplay.Floor` | bench/route_replay.py:108-111 | the least healthy overlap, or none |
| `RouteReplay.Lead` | bench/route_replay.py:114-117 | the greatest healthy overlap, or none |
| `RouteReplay.AffinityBounded` | bench/route_replay.py:120-127 | no basis credits a healthy candidate more than its overlap or the cap |
| `RouteReplay.MarginalIgnoresSharedPrefix` | src/router.rs:423-425 | blocks that every peer holds in addition do not change any healthy candidate's marginal affinity |
| `RouteReplay.RelativeMeasuresTrail` | src/router.rs:427-431 | relative affinity falls short of the leader's by the capped number of blocks trailed |
| `RouteReplay.RelativeDifference` | docs/configuration.md:202-203 | the affinities of two candidates differ by what the lesser would recompute, capped, if and only if the lesser trails the leader within the cap or the greater is the leader (or they are equal or the cap is zero); never by more |
| `RouteReplay.RelativeToLeader` | src/router.rs:440-444 | relative affinity counts from the healthy candidate with most blocks |
| `RouteReplay.RelativeUnderstates` | src/router.rs:440-444 | three candidates with 20, 15 and 5 blocks and a cap of ten: the last two are ten blocks apart and their affinities differ by five |
| `RouteReplay.BuildMaps` | bench/route_replay.py:416-437 | overlaps and loads by upstream, or failure exactly for records that cannot be replayed |
| `RouteReplay.Choose` | bench/route_replay.py:401-460 | nothing for no candidates, an error exactly for unreplayable records, otherwise the winner |
| `RouteReplay.WinnerIgnoresOrder` | bench/route_replay.py:401-460 | with the overlap tie-break the winner does not depend on the order of the candidate list |
| `RouteReplay.AffinityShifts` | bench/route_replay.py:120-127 | below the cap every basis is the overlap less one constant |
| `RouteReplay.EqualGapsAgree` | bench/route_replay.py:401-460 | two bases that keep every pair of healthy candidates equally far apart choose the same upstream, for every alpha, load and rotation |
| `RouteReplay.BasesAgree` | docs/configuration.md:195-203 | if someone is healthy and no healthy overlap exceeds the cap, all three bases choose the same upstream, so relative routes exactly like absolute until the leader passes the cap |
| `RouteReplay.TwoReplicasAgree` | docs/configuration.md:201-202 | with at most two healthy replicas the marginal and the relative basis choose the same upstream, whatever the cap |
| `RouteReplay.RecordMismatch` | bench/route_replay.py:192-231 | a record is flagged exactly when it is observed and not consistent with its own ages and overlaps |
| `RouteReplay.WrittenRoundTrip` | bench/route_replay.py:153-189 | raw overlap is always recovered from a written record, the fresh count if and only if there is no horizon or the ages are readable |
| `RouteReplay.WrittenRecordsAgree` | bench/route_replay.py:192-231 | a record the router writes in enforce mode is consistent if and only if the ages of every candidate with a horizon are readable, under any basis |
| `RouteReplay.ShortWalksReadBack` | src/affinity_horizon.rs:310-342 | up to 64 runs of equal ages a walk reads back if and only if its cut is clean |
| `SessionAffinity.LeastHealthyLoad` | bench/route_replay.py:348-351 | the least load of a healthy candidate, or none |
| `SessionAffinity.Decide` | bench/route_replay.py:348-394 | every outcome if and only if its condition: the target is the first admitted of the assigned pair, preferred exactly when with the bonus it ranks before the choice made; a draw without a recorded rotation is invalid and has no target |
| `SessionAffinity.NoBonusNoMove` | bench/route_replay.py:378-394 | without a bonus the session never draws traffic from the routing winner |
| `SessionAffinity.BonusIsMonotone` | bench/route_replay.py:378-394 | a larger bonus never loses a preference |
| `ChildTree.Owned` | bench/node06_gpu_guard.py:315-332 | the least set holding every recognised process and closed under children of owned processes and of the owner |
| `ChildTree.OwnedHasLineage` | bench/node06_gpu_guard.py:304-332 | a process is owned if and only if a chain of parents leads to a recognised process or the owner |
| `ChildTree.OwnershipPersists` | bench/node06_gpu_guard.py:305-332 | once owned, a process stays owned in every later snapshot with the same start time, whoever its parent |
| `ChildTree.Tracker.Observe` | bench/node06_gpu_guard.py:315-332 | the nested loops end and return exactly the owned set, remembering its identities |
| `ChildTree.Tracker.Live` | bench/node06_gpu_guard.py:334-335 | the owned processes that are not zombies |
| `ChildTree.MeasureDepth` | bench/node06_gpu_guard.py:343-351 | the loop ends on any parentage and on acyclic parentage counts the listed ancestors |
| `ChildTree.AncestorsAreShallower` | bench/node06_gpu_guard.py:343-351 | on acyclic parentage an ancestor is strictly shallower |
| `ChildTree.OrderByDepth` | bench/node06_gpu_guard.py:341-353 | every identity once, deepest first |
| `ChildTree.ChildrenFirst` | bench/node06_gpu_guard.py:340-353 | on acyclic parentage every process comes before its ancestors |
| `ChildTree.Deliver` | bench/node06_gpu_guard.py:353-360 | signals go to the confirmed targets in order |
| `ChildTree.ConfirmedExactly` | bench/node06_gpu_guard.py:354-356 | a process is signalled if and only if its pid still carries its start time when its turn comes |
| `Termination.Pass` | bench/node06_gpu_guard.py:777-813 | one pass sends its kills in order and moves the sampling state |
| `Termination.PassIsSafe` | bench/node06_gpu_guard.py:778-813 | a pass kills only live processes, spares the rollback owner before its deadline, kills before the workload deadline only on a sample it read that was missing or hot, and kills what a deadline or such a sample demands |
| `Termination.KillsAreFit` | bench/node06_gpu_guard.py:768-813 | over any number of passes the kills are only of live processes, with a cause, spare the owner before its deadline and meet both deadlines |
| `Termination.WorkloadDeadline` | bench/node06_gpu_guard.py:787-809 | without preservation everything alive is killed on every pass of the first loop past the workload deadline |
| `Termination.FailureIsAMiss` | bench/node06_gpu_guard.py:792-797 | telemetry has failed if and only if some pass read a sample and missed it |
| `Termination.WaitForWork` | bench/node06_gpu_guard.py:768-816 | the first loop: exactly the kills of its passes, until the first pass that finds nothing alive or reaches the owner's deadline |
| `Termination.WaitForKilled` | bench/node06_gpu_guard.py:818-823 | the second loop ends at the first look that finds nothing alive or comes after the grace |
| `Termination.Terminate` | bench/node06_gpu_guard.py:745-823 | over the whole wait: exactly the kills of the first loop's passes, and they fit; a normal return means the last look is the first to find nothing alive, in time, with escalation and lost telemetry as they happened; giving up means something was alive at every look until the grace for killed processes had passed |
| `Termination.OneVerdict` | bench/node06_gpu_guard.py:745-823 | one environment has one verdict and one number of looks |
| `Termination.GoneExactly` | bench/node06_gpu_guard.py:768-823 | the tree is reported gone if and only if some look finds nothing alive in time, and telemetry lost if and only if a pass of the first loop before that read a sample and missed it |
| `Guard.CoolDown` | bench/node06_gpu_guard.py:1083-1128 | the wait goes on only through polls that justify it and while no three samples in a row are missed, admits exactly on a cool sample without a signal, and gives up only for a cause, with the exit code that goes with it |
| `Guard.Poll` | bench/node06_gpu_guard.py:1220-1350 | one poll continues exactly if quiet, passes exactly if clean, and otherwise fails for the cause that takes precedence, with its exit code |
| `Guard.Supervise` | bench/node06_gpu_guard.py:1220-1350 | the loop ends on the first poll that is not quiet or is the third miss in a row; it passes exactly on a clean poll with no three consecutive misses, and otherwise fails for the main cause of its last poll |
| `Guard.Conduct` | bench/node06_gpu_guard.py:1083-1381 | how a run ends before cleanup: still waiting, given up for a cause, kept at the gate, or as supervising ends it; the tree is tracked exactly if the run was admitted and its setup got that far; the launch byte is written exactly for an admitted run whose gate saw no signal |
| `Guard.SeeNext` | bench/node06_gpu_guard.py:1098-1111 | the miss counter reaches three exactly when three consecutive samples were missed |
| `Guard.OverrunIsBounded` | bench/node06_gpu_guard.py:1295-1350 | an overdue run ends within two further polls although missed samples skip the check |
| `Guard.OverdueStays` | bench/node06_gpu_guard.py:1326-1345 | once the clock runs, overdue stays overdue |
| `Guard.ShimGate` | bench/node06_gpu_guard.py:849-861 | the command starts only on exactly the launch byte |
| `Guard.StopTree` | bench/node06_gpu_guard.py:1391-1405 | nothing to stop, a raised step, or the verdict and the kills of the termination loops |
| `Guard.RunGuard` | bench/node06_gpu_guard.py:993-1408 | the whole guard: how the run ended, how a tracked tree was stopped, and the report that follows from both; the launch byte is written only after a cool sample with no signal seen |
| `Guard.OneEnding` | bench/node06_gpu_guard.py:1083-1350 | one environment lets a run end in one way, after one number of polls |
| `Guard.OneStop` | bench/node06_gpu_guard.py:1391-1405 | one tree is stopped in one way, with one list of kills |
| `Guard.OneReport` | bench/node06_gpu_guard.py:993-1408 | one environment has one report |
| `Guard.PassedRun` | bench/node06_gpu_guard.py:1083-1350 | a run ends passed if and only if the environment holds a cool start, an open gate, quiet polls and a clean one, with no three samples in a row missed |
| `Guard.StopMeans` | bench/node06_gpu_guard.py:1391-1405 | stopping clears the tree, and loses telemetry, if and only if the environment says so |
| `Guard.ReportMeans` | bench/node06_gpu_guard.py:1391-1408 | from the environment alone: the report says passed if and only if the run comes to a clean end and the tree is gone in the end; passed with code 74 if and only if, besides, the tree was alive when stopping began and a sample read before it was gone was missed; code 0 in the other passed runs and nowhere else |
| `Guard.PassedWithFailureCode` | bench/node06_gpu_guard.py:1396-1400 | an environment, with a late child of the guard, whose report says passed with the telemetry exit code |
| `Guard.AdmissionMargin` | bench/node06_gpu_guard.py:1468-1471 | valid thresholds keep an admitted sample three degrees below abort |
| `EventStream.StripExact` | bench/agentbench.py:378-382 | stripping removes surrounding white space and nothing else |
| `EventStream.SplitIsFaithful` | bench/agentbench.py:374-379 | lines and rest make up the stream again and no line holds a newline |
| `EventStream.SplitConcat` | bench/agentbench.py:372-379 | splitting in two parts with the carried rest gives the lines of the whole |
| `EventStream.Decoder.Feed` | bench/agentbench.py:372-385 | a chunk hands over the payloads of the lines it completes and leaves a tail without newline |
| `EventStream.Decoder.Finish` | bench/agentbench.py:387-389 | a last unterminated line counts as if terminated |
| `EventStream.UnterminatedLine` | bench/agentbench.py:387-389 | an unterminated line closed by a newline is that line and nothing else |
| `EventStream.Decode` | bench/agentbench.py:367-389 | for every cutting into chunks the payloads are those of the whole stream split at once |
| `Assembly.UpdateCall` | bench/agentbench.py:307-320 | a tool-call delta extends id, name and arguments and replaces the kind |
| `Assembly.ChoiceAssembly.FeedCalls` | bench/agentbench.py:300-321 | the tool-call loop applies the deltas in order, an entry without index taking its position |
| `Assembly.ChoiceAssembly.Feed` | bench/agentbench.py:284-322 | one delta's effect on a choice, and whether it brought output |
| `Assembly.FeedOutcome` | bench/agentbench.py:284-331 | the outcome depends on earlier deltas only through the joined texts, the calls and the finish reason |
| `Assembly.ContentSplits` | bench/agentbench.py:291-294 | a content delta may be cut in two |
| `Assembly.ReasoningContentSplits` | bench/agentbench.py:295-299 | so may the first reasoning field |
| `Assembly.ReasoningSplits` | bench/agentbench.py:295-299 | and the second, with the first kept in the head |
| `Assembly.ToolArgumentsSplit` | bench/agentbench.py:300-321 | a string argument of a call may be cut in two, with the whole outcome unchanged, if it is the first call of its delta or the calls from it on name their index |
| `Assembly.ArgumentsMove` | bench/agentbench.py:300-321 | for any tool-call list and cut the arguments of every call come out as sent if and only if the cut is in the first call or no argument text from the cut on depends on its position |
| `Assembly.TailGoesAstray` | bench/agentbench.py:303 | two calls without index: the rest of the second one's argument reaches the first |
| `Assembly.SplitAnywhere` | bench/agentbench.py:335-360 | within one choice's own stream a delta may be replaced by a split of it anywhere |
| `Assembly.EventSplits` | bench/agentbench.py:342-360 | anywhere in a stream of events, over any choices, cutting an event in two at one of its deltas leaves all results and the usage unchanged if the cut is in the first choice or the choices from it on name their index |
| `Assembly.TextMoves` | bench/agentbench.py:346-352 | for any event and any cut of a delta the content, and likewise the reasoning, of every choice comes out as sent if and only if the cut is in the first choice or no such text from the cut on depends on its position |
| `Assembly.SplitsAreCuts` | bench/agentbench.py:286-300 | cutting the content or either reasoning field of a delta in two keeps what the two say together |
| `Assembly.ChoicesAreIndependent` | bench/agentbench.py:342-352 | each choice's state depends only on its own deltas, however interleaved |
| `Assembly.EventIsLocal` | bench/agentbench.py:342-352 | one event acts on a choice exactly through the deltas that name it |
| `Assembly.Assembler.EnsureChoice` | bench/agentbench.py:350 | a first mention adds an empty state and leaves the rest alone |
| `Assembly.Assembler.FeedOne` | bench/agentbench.py:346-352 | feeding one choice changes the state under its index and no other, and says whether it brought output |
| `Assembly.Assembler.Feed` | bench/agentbench.py:342-352 | an event updates exactly the states its choices name, merges usage, and keeps its arrival time once for each choice that brought output |
| `Assembly.Assembler.Collect` | bench/agentbench.py:354-360 | an outcome per choice, or one empty outcome if there was none |
| `CandidateGate.LoadPrior` | bench/candidate_gate.py:945-991 | refused exactly for an existing journal without resume, a line that is not one record or another identity; otherwise the stages passed or resumed so far, a last line without newline included |
| `CandidateGate.Journal.Append` | bench/candidate_gate.py:994-1019 | one whole record, or the file as cut before opening, before the first byte, inside or just before the newline; new bytes after a line without newline spoil that line |
| `CandidateGate.RunStages` | bench/candidate_gate.py:1117-1203 | the stage loop leaves exactly the specified records up to where it is cut; its code is zero exactly if every stage was done before or passes |
| `CandidateGate.RunGate` | bench/candidate_gate.py:1083-1203 | the new journal for every old one; the run completes exactly if it is let in and not cut, with code 0 exactly if the identity check and every stage asked for succeed |
| `CandidateGate.RunKeepsSound` | bench/candidate_gate.py:1083-1203 | a run cut at any byte keeps a sound journal sound if and only if it does not reach, over a last line without newline, the stage whose only pass that line is |
| `CandidateGate.RunKeepsResumable` | bench/candidate_gate.py:974-990 | the journal may be resumed after a run if and only if no append was cut inside and nothing was written after a line without newline |
| `CandidateGate.HistorySoundness` | bench/candidate_gate.py:1083-1203 | after any sequence of runs the journal is sound (a resumed stage was passed before, a passed stage follows passes of all earlier ones and passes once, all records share candidate and plan) if and only if no run of it lost a pass |
| `CandidateGate.OtherCutsAreSafe` | bench/candidate_gate.py:1008-1015 | without a cut just before a newline every history is sound |
| `CandidateGate.LostPass` | bench/candidate_gate.py:1008-1015 | two runs after which a stage is recorded as resumed whose pass is spoiled, the second one completing with code 0, and no later run let in |
| `CandidateGate.CodeMeansPasses` | bench/candidate_gate.py:1101-1203 | after a successful run the journal shows a pass for every stage asked for if and only if the run lost none; after an unsuccessful one some stage lacks it |
| `SoakGate.Rollback` | bench/node06_shadow_soak_gate.py:890-956 | which files each attempt uses and what the attempts and the checks amount to |
| `SoakGate.RestoredMeansFirstAttempt` | bench/node06_shadow_soak_gate.py:890-956 | a rollback returns normally if and only if the first attempt restored the baseline from unchanged canonical artifacts and the final checks passed |
| `SoakGate.TryCandidate` | bench/node06_shadow_soak_gate.py:974-1004 | how far the candidate got and whether the workload qualified |
| `SoakGate.RunGate` | bench/node06_shadow_soak_gate.py:959-1062 | exit 0 exactly for a valid workload, a passed rollback and no signal up to its end, with the order of actions |
| `SoakGate.RollbackIsInPlace` | bench/node06_shadow_soak_gate.py:988-1049 | rollback happens exactly once if the mutation point was reached and never otherwise, after the workload and before the lock is released |
| `Archive.RereadIsIgnored` | bench/route_journal_archive.py:313-329 | reading stored lines again changes nothing |
| `Archive.FirstRowsAreFirst` | bench/route_journal_archive.py:313-329 | the stored row of a key is its first line in the log, and a key without a row has no line |
| `Archive.CursorOverlaps` | bench/route_journal_archive.py:343-348 | reading from the stored cursor never skips a line |
| `Archive.OverlapContinues` | bench/route_journal_archive.py:313-334 | an overlapping read gives the table of one uninterrupted read |
| `Archive.Database.StoreCollection` | bench/route_journal_archive.py:279-335 | the new table and cursor, and inserted and duplicate counts that add up |
| `Archive.Database.Collect` | bench/route_journal_archive.py:338-360 | a collection brings one container up to date, leaves the others alone, and accounts for every record it read |
| `Archive.CollectAll` | bench/route_journal_archive.py:338-360 | under any schedule every container's rows are the first occurrences in what was seen, and inserted counts sum to the rows |
| `Archive.RecordsForDay` | bench/route_journal_archive.py:377-396 | the requests that started on the day, in sequence order |
| `Archive.OneDay` | bench/route_journal_archive.py:380-381 | every start belongs to exactly one day |
| `Archive.ExportOnce` | bench/route_journal_archive.py:382-396 | an export holds each start and each stored finish of its requests once, and nothing else |
| `Archive.FinishFollowsStart` | bench/route_journal_archive.py:382-396 | in an export every finish stands right after its start |
| `Pareto.MeasureGoodput` | bench/slo_pareto_report.py:409-435 | qualified requests per GPU hour, zero for a repetition with a wrong answer |
| `Pareto.LooserGoodput` | bench/slo_pareto_report.py:422-435 | a looser objective never lowers goodput |
| `Pareto.RangeOf` | bench/slo_pareto_report.py:493-510 | the exact range over repetitions |
| `Pareto.Dominates` | bench/slo_pareto_report.py:528-537 | the loop decides range dominance |
| `Pareto.RangesOverlap` | bench/slo_pareto_report.py:540-547 | the loop decides overlap |
| `Pareto.DominanceIsStrict` | bench/slo_pareto_report.py:528-537 | nothing dominates itself |
| `Pareto.DominanceIsTransitive` | bench/slo_pareto_report.py:528-537 | dominance is transitive |
| `Pareto.DominanceOfRepetitions` | bench/slo_pareto_report.py:485-537 | ranges dominate if and only if whichever repetitions are compared left is never worse and on one objective always better |
| `Pareto.OverlapMeansCommonValue` | bench/slo_pareto_report.py:540-547 | overlap means some objective's ranges share a value |
| `Pareto.Classify` | bench/slo_pareto_report.py:567-588 | ineligible, dominated and non-dominated, the set of dominators and the overlap flag, each against its definition |
| `Pareto.BeatsIsTransitive` | bench/slo_pareto_report.py:567-588 | beating is transitive within a cohort |
| `Pareto.DominatorOnFrontier` | bench/slo_pareto_report.py:567-588 | every dominated configuration is beaten by one on the frontier |
| `Pareto.FrontierIsNotEmpty` | bench/slo_pareto_report.py:567-588 | every cohort with an eligible member has one on the frontier |
| `Pareto.Summarise` | bench/slo_pareto_report.py:485-526 | the exact goodput range of every objective over the repetitions, and eligibility |
| `Pareto.BeatsExactly` | bench/slo_pareto_report.py:485-588 | one configuration beats another by ranges if and only if whichever repetitions are compared its goodput is never lower and for one objective always higher |
| `Pareto.BuildReport` | bench/slo_pareto_report.py:550-588 | from the measured requests: ineligible exactly with a wrong answer, dominated by exactly the peers that outdo it, and for each dominated configuration a non-dominated one among them |

## Left out

- HTTP clients, benchmark drivers, timing scripts and the dashboard: plumbing and display.
- JSON parsing, regular expressions and schema checks, including the malformed-field branches of the session-affinity decision: long but branch by branch.
- Docker, Compose, git, `/proc`, pipes, file modes and fsync: foreign effects, present as arbitrary inputs or as success and failure.
- Display rounding, percentiles, medians and buckets: easy members.
- Floating-point rounding of scores, tokens and temperatures: reals are used.
- The counters of skipped records: bookkeeping.
- Termination.Terminate: reaping of adopted children and the sleep between passes are not modelled; a reaped child only leaves the process table, which is an input of every pass.
- The soak gate's stopping of its child at rollback: the source ignores every error there and goes on, so it is no input of the rollback.
- Archive pruning: it also removes cursors, so the first-occurrence claim is for archives without it.
- Guard journal checkpoints and telemetry summaries: bookkeeping that no decision reads.
- The router's peer groups and long-prompt lanes beyond one group: affinities of a written record are taken over its healthy candidates.
