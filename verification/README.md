# A verified model of the rss-operator replication core

rss-operator keeps a replicated application running on the pods of a Kubernetes
StatefulSet. For every cluster it keeps a table of members. A *reconcile* pass merges the
table with the running pods, probes the healthy members and cleans up the failed ones. A
*replicate* pass decides when a cluster without any primary may be bootstrapped, from
which copy, and then promotes, demotes and starts secondaries until the wanted numbers are
reached. A main loop runs these passes on a timer and handles changes of the custom
resource; a controller runs one such loop per resource.

This project models that core in Dafny and proves what it guarantees.

## How the model is built

- **The environment decides.** The outcome and output of every command, pod deletion and
  API write is arbitrary, and so is the order in which a Go `range` visits a map. Every
  theorem holds for all of these choices.
- **State is mutable where it is in Go.** `Member`, `ClusterStatus`, `Cluster` and
  `Controller` are classes. `ViewOf` is the value of a member table: a `View`.
- **Passes leave a log.** Each method returns, as a ghost, the commands it issued together
  with the table each one saw. Relations on values say what such a log may look like
  (`Phase`, `ReconcilePass`, `ReplicatePass`, `RoundHolds`, `RunHolds`, `Served`). The
  methods of `Cluster` are proved to meet these relations from every valid state, so the
  relations describe what the code does, and the theorems are lemmas about every log that
  meets them.

| file | contents |
|---|---|
| `Views.dfy` | snapshots of the table, counts, the spec and its defaults |
| `MemberSets.dfy` | member records, the table, its merge with the running pods |
| `Events.dfy` | commands and their effects, the rules all commands obey, the run invariant, escalation |
| `Selection.dfy`, `Choices.dfy`, `Names.dfy` | which member is seeded, promoted or demoted |
| `Phases.dfy`, `Passes.dfy` | the phases of a pass and whole passes, as relations |
| `Guarantees.dfy` | bootstrap safety, the verdict of replicate, failure containment |
| `Convergence.dfy` | progress, healing, the verdict of reconcile, when a pass acts, quiescence |
| `Divergence.dfy`, `Hanging.dfy` | exactly when the secondary loop, and a whole pass, need not end |
| `Witnesses.dfy` | a reconcile that exists, for use in instances |
| `Runs.dfy` | whole runs of the main loop: member table, convergence, self-stabilisation |
| `Inputs.dfy` | whole runs of the main loop: StatefulSet size, phase, restore size |
| `Behaviour.dfy` | what passes, ticks and updates do, in fields, counts and numbers only |
| `Status.dfy` | the condition list |
| `Cluster.dfy` | the imperative code of pkg/cluster |
| `Controller.dfy` | the event handler of pkg/controller and its counters |
| `Decimal.dfy`, `Durations.dfy` | number and interval parsing |

## Where code and documentation disagree

The model follows the code. For every disagreement there is a lemma with the exact condition
under which the code does what is documented, and a concrete instance where it does not.

- doc/design/replication.md:86-90 says that only pods with the highest sequence number are
  tried as seeds. The code also lists older ones: `OnlyRecentSeeds`, `OlderSeedListed`.
- doc/design/replication.md:22-25 says that ties between seeds go to the lowest index. The
  code takes the first one met in map order: `FirstSeedExact`, `SeedTies`,
  `TieGoesToFirstMet`.
- doc/design/replication.md:36-39 and 75-76 say that the next primary or secondary is the
  pod with the highest remaining sequence number. The comparison in `chooseMember` is not
  an order, so the result can depend on the map order and can lose on both sequence number
  and name to another candidate: `ChoosableExact` says exactly which results are possible,
  `ChoiceOrderIndependence` and `DocumentedChoice` exactly when the result is what one
  expects, `WorseMemberChosen` gives an instance.
- doc/design/replication.md:56-59 says that primaries with the lowest sequence number or the
  highest index are stopped. The code looks at the name only (`LowestSequenceStopped`,
  `NewerPrimaryStopped`), and compares names as strings, which is the order of the indices
  exactly up to ten pods (`NameOrderExact`, `HighestIndexStopped`, `NineAfterTen`).
- doc/design/replication.md:5-9 says that replication changes wait until the correct number
  of pods is available. The code waits only while too many members run, or while there is no
  live primary and the number of pods is wrong: `ChangesExactly`, `WrongPodCount`,
  `ActsShortOfPods`.
- doc/design/replication.md:67-76 says that secondaries are started only if a secondary
  command is configured. The code starts them with the primary command otherwise (see
  `StartCommand`), if and only if fewer primaries than replicas are wanted:
  `SecondariesWithoutCommand`, `NoSecondariesAmongPrimaries`, `StartsSecondary`. Since it then
  takes every running member for a primary, it finds rest if and only if every replica is to
  be a primary: `RestWithoutSecondaries`.

## Where a property fails

Each has a lemma with the exact condition and a concrete instance.

- The secondary loop, pkg/cluster/replicate.go:110-120, may restart a running member
  forever: `DivergenceExact` for the loop, `HangExact` for a whole pass,
  `RestartingForever`.
- A wanted count of zero primaries makes every pass bootstrap a primary, if it can, and stop
  it again: `ReplicateRests`, `NeverAtRest`.
- The scale-from-zero guard, pkg/cluster/cluster.go:412, trusts the status carried by the
  event, so a lost write undermines it: `UnsafeRise`, `LowRiseExact`,
  `LostWriteUnderminesGuard`.
- The gauge of running clusters is off by the failed clusters that were deleted:
  `GaugeIsRight`, `GaugeDrifts`.
- A component of an interval that does not fit into 63 bits is read as zero:
  `ParseInverts`, `HugeComponentIsLost`.
- A negative number of primaries asks for one primary even on a stopped cluster:
  `NumPrimaries`, `OnePrimaryWhileStopped`.

## Model

| member | source | states |
|---|---|---|
| `Views.Spec.NumReplicas` | pkg/apis/clusterlabs/v1alpha1/cluster.go:220-232 | zero, or at least three; zero exactly when zero or less was asked for; unset, one and two give three; all other sizes are honoured |
| `Views.Spec.NumPrimaries` | pkg/apis/clusterlabs/v1alpha1/cluster.go:234-247 | never more than the size, except exactly for a negative request on a stopped cluster; negative gives one, unset or too many gives all replicas, a request within the size is honoured; zero only if stopped or asked for |
| `Views.OnePrimaryWhileStopped` | pkg/apis/clusterlabs/v1alpha1/cluster.go:239-241 | a concrete stopped spec that still asks for one primary |
| `Views.CountOrder` | pkg/util/member.go:249-277 | live primaries, running members, online members and the table are nested counts; candidates and live primaries are disjoint, and under the run invariant and without failures they are all online members; then the advertised primaries are the live ones |
| `Views.Vocabulary` | pkg/util/member.go:249-277 | the counted sets, field by field |
| `Views.CommandKeys` | pkg/apis/clusterlabs/v1alpha1/cluster.go:37-42 | the six command names; secondaries are in use exactly if the one named secondary is configured |
| `MemberSets.Member.Copy` | pkg/util/member.go:145-155 | a fresh record with the same name and value |
| `MemberSets.Member.Offline` | pkg/util/member.go:178-187 | everything is cleared except the failure count |
| `MemberSets.Member.MarkFailed` | pkg/cluster/replicate.go:257-261 | failed, with one more failure; the other fields unchanged |
| `MemberSets.Member.MarkStarted` | pkg/cluster/replicate.go:264-266 | running in the given role and healthy; the other fields unchanged |
| `MemberSets.Member.MarkStopped` | pkg/cluster/replicate.go:314-316 | neither running nor primary nor failed; the other fields unchanged |
| `MemberSets.Diff` | pkg/util/member.go:106-114 | exactly the members whose name the other table lacks |
| `MemberSets.DiffExtended` | pkg/util/member.go:116-126 | exactly the members missing from the other table or differing from it in Online |
| `MemberSets.Copy` | pkg/util/member.go:128-134 | a table of fresh records with the same values |
| `MemberSets.Adopt` | pkg/util/member.go:194-198 | adds fresh copies of the pods that were missing and keeps the records that were there |
| `MemberSets.BringOnline` | pkg/util/member.go:207-210 | sets Online for the pods that appeared and changes nothing else |
| `MemberSets.TakeOffline` | pkg/util/member.go:212-220 | takes the lost members offline and changes nothing else; the other branch of the source cannot be reached |
| `MemberSets.Reconcile` | pkg/util/member.go:189-227 | the result is the merge of table and pods, in fresh records, whatever `max` is; neither argument is written |
| `MemberSets.MergeLaws` | pkg/util/member.go:189-227 | when all pods are online: names are the union, Online means polled, members with a pod keep their records and are online, new pods are taken over, the lost keep only their failure count, and merging again changes nothing |
| `MemberSets.AppPrimaries` | pkg/util/member.go:249-257 | the number of online running primaries |
| `MemberSets.AppMembers` | pkg/util/member.go:259-267 | the number of online running members |
| `MemberSets.ActiveMembers` | pkg/util/member.go:269-277 | the number of online members |
| `Decimal.DigitsParse` | pkg/cluster/replicate.go:150 | strconv reads a digit string as the number it denotes, or as the largest value of the type with an error |
| `Decimal.Limits` | pkg/cluster/replicate.go:150 | the largest 64-bit numbers, unsigned and signed |
| `Decimal.ParseAccepts` | pkg/cluster/replicate.go:150 | exactly the digit strings in range are accepted |
| `Decimal.TrimInverts` | pkg/cluster/replicate.go:145 | surrounding white space is removed, and nothing else |
| `Events.ReportRead` | pkg/cluster/replicate.go:144-154 | a reported number is read whatever white space surrounds it, saturating at 64 bits; blank output and a failed command keep the old number |
| `Events.EffectSound` | pkg/cluster/replicate.go:250-318 | every command that obeys the rules keeps the run invariant: offline members are not running, primary or failed and have sequence 0, and primaries are running |
| `Events.RunInvariant` | pkg/cluster/cluster.go:287-378 | a history of such commands keeps the invariant before and after every one of them |
| `Events.FailuresAreStrikes` | pkg/cluster/reconcile.go:42-62 | Failures is the number of failed starts and stops since the table was last dropped, whatever was lost, deleted, cleaned up or came back in between |
| `Events.StrikesMonotone` | pkg/cluster/reconcile.go:42-62 | that number never goes down while the record lives |
| `Events.Escalation` | pkg/cluster/reconcile.go:42-62 | a pod is deleted only while failed and after at least one failed command of its own; after two, recovery never tries to stop it again |
| `Events.StartHosts` | pkg/cluster/exec.go:142-150 | a start names every live primary once and nobody else, never its target, and nobody exactly if there is no live primary |
| `Selection.LessTotal` | pkg/cluster/replicate.go:200 | string comparison is a strict total order: antisymmetry and totality |
| `Selection.LessTransitive` | pkg/cluster/replicate.go:200 | string comparison is a strict total order: transitivity |
| `Selection.ScanSeeds` | pkg/cluster/replicate.go:162-184 | every seed listed is an online, healthy non-primary that was met |
| `Selection.SeedsAreSound` | pkg/cluster/replicate.go:162-184 | for every map order: seeds are distinct candidates, none only if there is no candidate, the first is a most recent copy, and every equally recent copy is listed |
| `Selection.OnlyRecentSeeds` | pkg/cluster/replicate.go:172-178 | for every map order only most recent copies are listed if and only if all candidates are equally recent |
| `Selection.OlderSeedListed` | pkg/cluster/replicate.go:176-178 | a concrete table and order in which an older copy is listed |
| `Selection.FirstSeedExact` | pkg/cluster/replicate.go:162-184 | a member heads the list of seeds in some map order if and only if it is a most recent candidate |
| `Selection.SeedTies` | pkg/cluster/replicate.go:172-178 | the first seed is the documented one in every map order if and only if no two candidates are equally most recent |
| `Selection.TieGoesToFirstMet` | pkg/cluster/replicate.go:172-178 | a concrete table and order in which the later-named of two equally recent copies is tried first |
| `Selection.ScanMember` | pkg/cluster/replicate.go:186-209 | the choice is a candidate that was met, and there is none only if no candidate was met |
| `Selection.DominantWins` | pkg/cluster/replicate.go:186-209 | a candidate that is most recent and first by name is chosen in every map order |
| `Selection.ChoiceOrderIndependence` | pkg/cluster/replicate.go:186-209 | a member is chosen in every map order if and only if it is both most recent and first by name |
| `Selection.DocumentedChoice` | pkg/cluster/replicate.go:186-209 | the documented choice is made in every map order if and only if no less recent candidate is named before it |
| `Selection.WorseMemberChosen` | pkg/cluster/replicate.go:198-203 | a concrete table and order in which the code chooses a member that another candidate beats on both counts |
| `Choices.ChoosableExact` | pkg/cluster/replicate.go:186-209 | some map order makes the code choose a member if and only if it is a candidate and no cut, a name such that all earlier candidates are at least as recent as all later ones, lies at or before it |
| `Selection.ScanPrimary` | pkg/cluster/replicate.go:211-232 | the choice is a healthy primary that was met, and there is none only if none was met |
| `Selection.DemotionIsDeterministic` | pkg/cluster/replicate.go:211-232 | under the run invariant, for every map order, the last-named healthy primary is chosen, and it is live; there is no choice exactly if there is no healthy primary |
| `Selection.LowestSequenceStopped` | pkg/cluster/replicate.go:216-227 | a least recent primary is stopped in every map order if and only if the last-named healthy primary is one |
| `Selection.NewerPrimaryStopped` | pkg/cluster/replicate.go:216-227 | a concrete table on which the more recent primary is stopped |
| `Names.PodNameOrder` | pkg/cluster/replicate.go:223 | names whose indices have equally many digits compare as the indices do |
| `Names.NameOrderExact` | pkg/cluster/replicate.go:223 | all pods of a StatefulSet are ordered by index if and only if there are at most ten |
| `Names.HighestIndexStopped` | pkg/cluster/replicate.go:223-225 | with at most ten pods the last-named primary is the one with the highest index |
| `Names.NineAfterTen` | pkg/cluster/replicate.go:223 | a concrete pair of pods that string comparison puts in the wrong order |
| `Selection.ChooseSeeds` | pkg/cluster/replicate.go:162-184 | the loop returns the records of the seeds for some order of the table; there is none only if there is no candidate, and the first is a most recent candidate |
| `Selection.ChooseMember` | pkg/cluster/replicate.go:186-209 | the loop returns the record of the choice for some order of the table; there is none only if there is no candidate |
| `Selection.ChooseCurrentPrimary` | pkg/cluster/replicate.go:211-232 | the loop, with its early return, returns the record of the choice for some order of the table: under the run invariant the last-named healthy primary |
| `Phases.StartStep` | pkg/cluster/replicate.go:250-269 | what a start does to the sets of online, live, running and candidate members; nobody but candidates is touched |
| `Phases.DemoteStep` | pkg/cluster/replicate.go:305-318 | what a demoting stop does to the sets of live and healthy primaries; nobody but its target is touched |
| `Phases.Turn` | pkg/cluster/replicate.go:78-107 | each turn of a loop continues its phase and keeps the invariant; a promotion turn uses up a candidate and leaves a live primary, a demotion turn uses up a healthy primary, whether the command succeeds or not |
| `Phases.DetectionFacts` | pkg/cluster/replicate.go:137-160 | detection changes sequence numbers only |
| `Phases.SeedingCandidates` | pkg/cluster/replicate.go:60-66 | exactly the seeds tried so far have stopped being candidates; nobody else has changed |
| `Phases.SeedingFacts` | pkg/cluster/replicate.go:60-70 | every seed but the last tried has failed, and the last succeeded exactly if there is one live primary |
| `Phases.PromotionFacts` | pkg/cluster/replicate.go:78-93 | promotion adds primaries, never exceeds its target, does nothing at the target and touches nobody but candidates |
| `Phases.DemotionFacts` | pkg/cluster/replicate.go:95-107 | demotion removes primaries, never falls below its target, does nothing at the target and touches nobody but live primaries |
| `Phases.AssistFacts` | pkg/cluster/replicate.go:109-121 | secondary starts leave the live primaries alone, never exceed the target and touch nobody but candidates |
| `Guarantees.ReplicateHistory` | pkg/cluster/replicate.go:32-135 | a whole replicate pass is one history that obeys the rules and keeps the invariant after every phase |
| `Guarantees.BootstrapSafety` | pkg/cluster/replicate.go:45-92 | in one pass, a primary start that finds no live primary happens only with exactly the wanted pods online; after a successful primary start no later one finds the cluster without a live primary |
| `Guarantees.SeedsMostRecentFirst` | pkg/cluster/replicate.go:54-70 | a pass that may seed does so if there is a candidate, first from a most recent copy, and gives up only after the starts of all equally recent copies have failed |
| `Guarantees.VerdictIsSound` | pkg/cluster/replicate.go:41-134 | no error means: replicas are wanted, live primaries are exactly as wanted, running members at least as wanted, and exactly so without surplus pods; every start and stop after seeding succeeded and nothing was recovered |
| `Guarantees.StoppedNeverSeeds` | pkg/cluster/replicate.go:41-58 | with zero replicas a pass never seeds and never reports success |
| `Guarantees.RecoveryFacts` | pkg/cluster/reconcile.go:38-64 | every failed member is sent a stop, and a deletion if that fails, or a deletion at once after repeated failures; what this may make of each record; silent exactly if every failed member was stopped successfully; nothing happens without failed members |
| `Guarantees.FailureContainment` | pkg/cluster/replicate.go:78-134 | whatever commands fail and whatever the final recovery does, all healthy primaries survive the pass if and only if it waits or there are no more live primaries than wanted |
| `Guarantees.SurvivorsUnchanged` | pkg/cluster/replicate.go:78-134 | a surviving healthy primary has changed in its sequence number at most |
| `Convergence.ReplicateConverges` | pkg/cluster/replicate.go:32-135 | with all wanted pods online, nobody failed and every command succeeding, a pass that ends reports no error and leaves exactly the wanted primaries and members; with as many primaries as replicas it always ends, with every online member a primary |
| `Convergence.ReplicateKeepsHealth` | pkg/cluster/replicate.go:32-135 | a pass in which every command succeeds leaves nobody failed, if nobody was |
| `Convergence.RecoveryHeals` | pkg/cluster/reconcile.go:38-64 | if every command succeeds, recovery leaves nobody failed |
| `Convergence.ChangesExactly` | pkg/cluster/replicate.go:78-132 | with a live primary and unless it waits, a pass seeds, promotes, demotes and assists nobody if and only if there is nothing to do, whatever the number of pods; it issues no start, stop or deletion at all if and only if, moreover, nobody is failed or the wanted numbers are reached |
| `Convergence.WrongPodCount` | pkg/cluster/replicate.go:41-132 | with the wrong number of pods a pass seeds, promotes, demotes and assists nobody if and only if it waits or there is nothing to do; it issues no start, stop or deletion at all if and only if it waits, or there is nothing to do and nothing to recover |
| `Convergence.PromotesIfItCan` | pkg/cluster/replicate.go:41-92 | with no more running members than wanted, some but too few live primaries and a candidate, a primary is started, whatever the number of pods |
| `Convergence.ActsShortOfPods` | pkg/cluster/replicate.go:45-92 | a concrete table with a pod missing on which every pass starts a primary |
| `Convergence.ReconcileVerdict` | pkg/cluster/reconcile.go:85-153 | no error is reported if and only if every member came through: failed ones were cleaned up by a successful stop, healthy ones answered as recorded or better and have the flags their code dictates; the codes are those the probes returned |
| `Convergence.CleanReconcile` | pkg/cluster/reconcile.go:66-153 | without errors nobody is failed, exactly the polled pods are online, and without a secondary command running members and live primaries are the same |
| `Convergence.ReconcileHistory` | pkg/cluster/reconcile.go:66-176 | a whole reconcile pass is one history that obeys the rules and keeps the invariant |
| `Convergence.ReplicateRests` | pkg/cluster/replicate.go:32-135 | a cluster at its wanted numbers is left alone, and success reported, if and only if it wants a primary; otherwise the pass starts one, and stops it again if the start succeeded |
| `Convergence.NeverAtRest` | pkg/cluster/replicate.go:54-107 | a concrete cluster at its wanted numbers on which every pass issues commands |
| `Convergence.RestWithoutSecondaries` | pkg/cluster/reconcile.go:97-101 | without a secondary command, at full strength and after a clean reconcile, a pass seeds, promotes, demotes and assists nobody, and then recovers nobody either, if and only if every replica is to be a primary, and is one |
| `Convergence.SecondariesWithoutCommand` | pkg/cluster/replicate.go:109-121 | without a secondary command, at full strength, after a clean reconcile and if seeding, promotion and demotion succeed, a pass starts a secondary if and only if fewer primaries than replicas are wanted |
| `Convergence.NoSecondariesAmongPrimaries` | pkg/cluster/replicate.go:95-121 | whatever the commands do, no pass starts a secondary if every replica is to be a primary |
| `Convergence.StartsSecondary` | pkg/cluster/replicate.go:109-121 | a concrete table on which every pass starts a secondary, whatever commands are configured |
| `Convergence.ReconcileRests` | pkg/cluster/reconcile.go:66-153 | same pods, everyone answers as recorded: nothing changes, nothing is reported, nothing but probes is issued |
| `Divergence.EndsWithin` | pkg/cluster/replicate.go:110-120 | where the loop cannot diverge it ends within one start per candidate |
| `Divergence.DivergenceExact` | pkg/cluster/replicate.go:110-120 | the secondary loop can run forever if and only if members are missing and a start can be wasted on a running candidate, now or after one more success |
| `Divergence.RestartingForever` | pkg/cluster/replicate.go:110-120 | a concrete cluster on which the loop can run forever |
| `Hanging.HangExact` | pkg/cluster/replicate.go:32-121 | from a sound table some whole pass goes on forever if and only if a condition on five counts of that table and the two wanted numbers holds |
| `Hanging.HungPass` | pkg/cluster/replicate.go:32-121 | a pass that has not returned started from such a table |
| `Hanging.AllPrimariesReturn` | pkg/cluster/replicate.go:78-121 | if every replica is to be a primary, every pass returns |
| `Hanging.PromotionCounts` | pkg/cluster/replicate.go:78-93 | what a successful promotion phase does to the five counts |
| `Hanging.SeedingCounts` | pkg/cluster/replicate.go:54-74 | what seeding, with any failures, does to the five counts |
| `Hanging.DemotionCounts` | pkg/cluster/replicate.go:95-107 | what a successful demotion phase does to the five counts |
| `Runs.RoundHistory` | pkg/cluster/cluster.go:331-358 | one turn of the main loop, including the second reconcile over the stale pod list, is one history that obeys the rules |
| `Runs.WholeRun` | pkg/cluster/cluster.go:287-378 | every run, for any inputs, outcomes and map orders, is one history that obeys the rules, and the invariant holds throughout |
| `Runs.RunBootstrap` | pkg/cluster/cluster.go:350-358 | bootstrap safety of every round of every run |
| `Runs.RunStarts` | pkg/cluster/exec.go:142-150 | every start of every run goes to an online healthy non-primary and names exactly the live primaries, once each |
| `Runs.RunEscalation` | pkg/cluster/reconcile.go:42-62 | over every run from the empty table: Failures counts the failed starts and stops, deletions come only after one, and clean-up stops only before the second |
| `Runs.ConvergingRound` | pkg/cluster/cluster.go:350-358 | from any sound table, a round that polls exactly the wanted number of pods, whose first reconcile is clean, whose starts and stops succeed and which returns leaves the wanted numbers and needs no second reconcile |
| `Runs.RoundHeals` | pkg/cluster/cluster.go:350-358 | whatever was polled and probed, a round in which every command succeeds leaves nobody failed |
| `Runs.Stabilises` | pkg/cluster/cluster.go:350-358 | self-stabilisation: from any sound table, one round with successful commands and one more that finds exactly the wanted pods as recorded reach the wanted numbers |
| `Runs.SteadyRound` | pkg/cluster/cluster.go:350-358 | from then on, with the same pods answering as recorded, a round changes no member and issues nothing but probes |
| `Inputs.RestoreIsLastFull` | pkg/cluster/cluster.go:345-348 | over every run the restore size is the initial one, or the size wanted at the latest poll that was not paused, succeeded, and found nothing pending and exactly the wanted number of pods, and some, running |
| `Inputs.RestoreStep` | pkg/cluster/cluster.go:345-348 | at each input of every run: such a poll sets the restore size to the wanted size, and nothing else changes it |
| `Inputs.StoredWasRestore` | pkg/cluster/cluster.go:564-582 | the restore size the API server holds was the operator's own at that or an earlier input |
| `Inputs.ScaleFromZero` | pkg/cluster/cluster.go:381-448 | over every run the StatefulSet leaves size zero only by an update, to the wanted size, which is at least the restore size carried; if that is the stored one, it is at least some earlier full size |
| `Inputs.UnsafeRise` | pkg/cluster/cluster.go:411-427 | one update can restart an empty StatefulSet below the last full size if and only if it asks for that and carries a restore size no larger |
| `Inputs.LowRiseNeedsLostWrite` | pkg/cluster/cluster.go:411-427 | over every run, if the update carries the stored status, such a restart means that the write of the last full size was lost |
| `Inputs.LowRiseExact` | pkg/cluster/cluster.go:411-427 | after any run that left the StatefulSet empty, some update carrying the stored status extends the run and restarts it below the last full size if and only if the stored restore size, and three, are below that size |
| `Inputs.LostWriteUnderminesGuard` | pkg/cluster/cluster.go:331-448 | a concrete run of four inputs and their rounds, every update carrying the stored status, that restarts three of five pods |
| `Witnesses.UncleanReconcile` | pkg/cluster/reconcile.go:66-153 | over any pods some reconcile from the empty table reports an error: all probes fail and all clean-up stops succeed |
| `Inputs.PausedMeansEmpty` | pkg/cluster/cluster.go:411-435 | over every run, phase Paused implies an empty StatefulSet |
| `Behaviour.RecordsOverRuns` | pkg/cluster/cluster.go:287-378 | over every run, now and at every command: an offline member has no role, no failure and sequence 0, and a primary is running |
| `Behaviour.ProbesByExitCode` | pkg/cluster/reconcile.go:85-137 | in every reconcile, clean or not: each healthy online member was probed and has, field by field, the flags of its exit code; nobody else is changed by probing |
| `Behaviour.CodeFromExit` | pkg/cluster/reconcile.go:95-101 | exit code zero counts as eight exactly without a secondary command, every other code as itself |
| `Behaviour.CleanFlags` | pkg/cluster/reconcile.go:85-153 | after a clean reconcile every member that was healthy and online answered 0, 7 or 8, is a primary exactly for 8 and running exactly unless 7 |
| `Behaviour.VerdictByCode` | pkg/cluster/reconcile.go:85-153 | no error is reported if and only if each healthy online member answered 0, or 7 and was not recorded as running, or 8 and was recorded as a primary or not running, and each failed one had at most one recorded failure and was stopped |
| `Behaviour.RecoveryByRecord` | pkg/cluster/reconcile.go:42-62 | healthy members are left alone; with at most one failure a failed one is sent a stop and, if that fails, a deletion; with two or more a deletion; and what each outcome makes of the record |
| `Behaviour.RefusesToAct` | pkg/cluster/replicate.go:41-47 | with more running members than wanted, or no primary and the wrong number of pods, the pass issues nothing, changes nothing and reports an error |
| `Behaviour.SeedsIfItCan` | pkg/cluster/replicate.go:45-70 | without a primary and with exactly the wanted pods the pass seeds exactly if there is a candidate, first from a most recent one |
| `Behaviour.DemotesIfItCan` | pkg/cluster/replicate.go:95-107 | with more live primaries than wanted and a healthy one among them, nobody is promoted and one is stopped |
| `Behaviour.AssistsIfItCan` | pkg/cluster/replicate.go:109-121 | with the wanted primaries live, too few members running and a candidate, a secondary is started |
| `Behaviour.AsksForSequences` | pkg/cluster/replicate.go:49-52 | unless the pass refuses to act: every online member is asked for its sequence number exactly when the number of live primaries or of running members is not the wanted one |
| `Behaviour.ScalesByTheCounts` | pkg/cluster/replicate.go:78-121 | each promotion, demotion and secondary start: its kind, the counts that called for it, and whom it went to |
| `Behaviour.ErrorsEndScaling` | pkg/cluster/replicate.go:78-121 | a failed start or too few primaries rule out demotion and secondaries, a failed stop or too many primaries rule out secondaries, and the pass then reports an error |
| `Behaviour.ReplicateVerdict` | pkg/cluster/replicate.go:32-135 | a pass that returns reports no error if and only if it did not refuse to act, there was a live primary after seeding, every later command succeeded and every target was met; and when it ends with a recovery |
| `Behaviour.RoundShape` | pkg/cluster/cluster.go:350-358 | replication starts with nobody failed and exactly the polled pods online; a round that ends with it has the wanted primaries and at least the wanted members; a second reconcile sees the same pod list |
| `Behaviour.UpdateExactly` | pkg/cluster/cluster.go:381-465 | an update, in numbers: ignored if wanted size, pause and wanted primaries stay; else the StatefulSet gets the wanted size and a pause ends, unless it is empty and that size is below the restore size carried |
| `Behaviour.UpdateResizes` | pkg/cluster/cluster.go:450-454 | a changed size of a running cluster is always applied unless a call fails |
| `Behaviour.TickExactly` | pkg/cluster/cluster.go:308-358 | a tick, in fields: exactly when it does nothing, drops the table, takes it offline or reconciles, with which pods, and exactly when it sets the restore size |
| `Behaviour.OnlyTicksAct` | pkg/cluster/cluster.go:287-305 | updates and stops touch no member and no restore size |
| `Behaviour.LoopGoesOn` | pkg/cluster/cluster.go:287-300 | after Stop, a failed update or a pass that does not return, no further input is handled |
| `Behaviour.RestoreIsPositive` | pkg/cluster/cluster.go:345-348 | the restore size left by the last full poll is the size wanted then, and positive |
| `Status.EditsKeepTheRest` | pkg/apis/clusterlabs/v1alpha1/status.go:135-185 | any sequence of set and clear operations keeps the condition kinds distinct, and the conditions of all other kinds in content and order |
| `Status.DropClears` | pkg/apis/clusterlabs/v1alpha1/status.go:165-171 | clearing removes the kind altogether if and only if it occurred at most once |
| `Status.PutExact` | pkg/apis/clusterlabs/v1alpha1/status.go:173-185 | setting a condition changes its own entry only: it is replaced exactly if status, reason or message differ, and else keeps its timestamps |
| `Status.PutNew` | pkg/apis/clusterlabs/v1alpha1/status.go:182-184 | a kind that is not there yet is appended |
| `Status.RecoverExcludesAvailable` | pkg/apis/clusterlabs/v1alpha1/status.go:145-151 | afterwards Recovering is present and, starting from distinct kinds, Available is absent |
| `Status.ReportedHealth` | pkg/cluster/reconcile.go:159-170 | at the wanted size Available is reported exactly if there were no errors; at another size Scaling is reported and Available stays as it was; kinds stay distinct |
| `Status.ReportedTexts` | pkg/cluster/reconcile.go:159-170 | the kind, reason and message that each outcome of a reconcile leaves, with the two sizes |
| `Status.ClusterStatus.GetClusterCondition` | pkg/apis/clusterlabs/v1alpha1/status.go:187-194 | the position of the first condition of that kind, or -1 |
| `Status.ClusterStatus.SetClusterCondition` | pkg/apis/clusterlabs/v1alpha1/status.go:173-185 | replaces or appends the condition, unless status, reason and message are unchanged |
| `Status.ClusterStatus.ClearCondition` | pkg/apis/clusterlabs/v1alpha1/status.go:165-171 | removes the first condition of that kind |
| `Status.ClusterStatus.SetScalingUpCondition` | pkg/apis/clusterlabs/v1alpha1/status.go:135-138 | sets Scaling with the two sizes |
| `Status.ClusterStatus.SetScalingDownCondition` | pkg/apis/clusterlabs/v1alpha1/status.go:140-143 | sets Scaling with the two sizes |
| `Status.ClusterStatus.SetRecoveringCondition` | pkg/apis/clusterlabs/v1alpha1/status.go:145-151 | sets Recovering and clears Available |
| `Status.ClusterStatus.SetReadyCondition` | pkg/apis/clusterlabs/v1alpha1/status.go:160-163 | sets Available |
| `Clusters.Append` | pkg/cluster/error.go:49-54 | the list stays empty exactly if it was empty and there is no error |
| `Clusters.StartCommand` | pkg/cluster/replicate.go:234-248 | the seed command exactly for a configured first primary, the secondary command exactly for a configured secondary, else the primary command |
| `Clusters.StartKey` | pkg/cluster/replicate.go:234-248 | the name of the command that a start runs: seed, secondary or primary, and when |
| `Clusters.HostNamesDistinct` | pkg/cluster/exec.go:145 | a host name is the member name, a dot and the service name; distinct members have distinct ones |
| `Clusters.PodsToMemberSet` | pkg/cluster/reconcile.go:178-198 | fresh records, exactly one per pod name, online and otherwise blank, failure count and sequence number zero |
| `Clusters.Cluster.constructor` | pkg/cluster/cluster.go:95-111 | no members yet; the status is a copy of the resource's |
| `Clusters.Cluster.AppendPrimaries` | pkg/cluster/exec.go:142-150 | the command followed by the host names of all online primaries, once each |
| `Clusters.Cluster.Execute` | pkg/cluster/exec.go:90-140 | the configured command followed by the host names of the live primaries, on the given pod; any outcome, but code zero without an error |
| `Clusters.Cluster.StartAppMember` | pkg/cluster/replicate.go:250-269 | runs, on the pod of its target, the start command for the role and the number of live primaries (`StartKey` says which) with exactly the live primaries as arguments; updates the target alone, as the outcome says |
| `Clusters.Cluster.StopAppMember` | pkg/cluster/replicate.go:305-318 | runs the command named stop on the pod of its target with the live primaries as arguments; updates the target alone, as the outcome says |
| `Clusters.Cluster.DeleteMember` | pkg/cluster/reconcile.go:200-208 | takes the target offline exactly if the deletion succeeds |
| `Clusters.Cluster.Promote` | pkg/cluster/replicate.go:78-93 | ends for all outcomes, at the target or without a candidate left; silent exactly if every start succeeded and the target is reached; a promotion phase |
| `Clusters.Cluster.Demote` | pkg/cluster/replicate.go:95-107 | ends for all outcomes, at the target or without a healthy primary left; silent exactly if every stop succeeded and the target is reached; a demotion phase |
| `Clusters.Cluster.Assist` | pkg/cluster/replicate.go:109-121 | if it ends, then at the target or without a candidate left, and silent exactly if every start succeeded and the target is reached; it is cut short only where it can diverge |
| `Clusters.Cluster.DetectMember` | pkg/cluster/replicate.go:139-158 | an online member is asked with the command named sequence, on its pod, and takes over the reported number |
| `Clusters.Cluster.DetectMembers` | pkg/cluster/replicate.go:137-160 | every online member is asked and takes over the number it reports; a detection phase, so nothing else changes |
| `Clusters.Cluster.Seed` | pkg/cluster/replicate.go:54-74 | seeds are tried in the order of the list until one succeeds; an error exactly if all have failed or there was none |
| `Clusters.Cluster.Escalate` | pkg/cluster/reconcile.go:46-49 | a member with repeated failures is deleted, and that is always reported; its record tells whether the deletion succeeded |
| `Clusters.Cluster.CleanUp` | pkg/cluster/reconcile.go:55-60 | stop, and delete if the stop fails; the record tells which; silent exactly if the stop succeeds |
| `Clusters.Cluster.RecoverMember` | pkg/cluster/reconcile.go:46-61 | the answer to the record of one member, silent exactly if it was healthy or is now cleaned up; healthy members get no command |
| `Clusters.Cluster.Recover` | pkg/cluster/reconcile.go:38-64 | every failed member is sent its stop or deletion, in some map order, and every record ends up as recovery allows; silent exactly if all failed ones were cleaned up; nothing but clean-up commands is issued |
| `Clusters.Cluster.UpdateCRStatus` | pkg/cluster/cluster.go:564-582 | the local copy always ends up equal to the status; the stored one changes to it or not at all, and does change on success if the local copy differed before |
| `Clusters.Cluster.ProbeMember` | pkg/cluster/reconcile.go:95-137 | runs the command named status on the pod of its target; the flags are those the exit code dictates, field by field; an error exactly for an unexpected answer |
| `Clusters.Cluster.VisitMember` | pkg/cluster/reconcile.go:90-137 | offline and failed members are neither probed nor changed |
| `Clusters.Cluster.Probe` | pkg/cluster/reconcile.go:85-151 | every online healthy member is probed, in some map order, and gets the flags its code dictates; nobody else is touched; silent exactly if no answer was unexpected |
| `Clusters.Cluster.SetConditions` | pkg/cluster/reconcile.go:159-170 | the condition that sums up the pass; no kind is reported twice if none was |
| `Clusters.Cluster.SyncPeers` | pkg/cluster/reconcile.go:71-83 | the table becomes its merge with the polled pods, in fresh records, and stays sound |
| `Clusters.Cluster.Publish` | pkg/cluster/reconcile.go:159-173 | the condition that fits the online members and the verdict, the number of members, and an attempt to store both |
| `Clusters.Cluster.Reconcile` | pkg/cluster/reconcile.go:66-176 | a reconcile pass over the given pods, with its verdict, in fresh records, published |
| `Clusters.Cluster.Scale` | pkg/cluster/replicate.go:78-121 | promotion, demotion and secondary starts, each only if the one before reported no error |
| `Clusters.Cluster.Bootstrap` | pkg/cluster/replicate.go:49-74 | detection unless all numbers are right, then seeding if there is no live primary; an error exactly if there is still none |
| `Clusters.Cluster.MustWait` | pkg/cluster/replicate.go:41-47 | one error exactly if more members run than wanted, or there is no live primary and the number of online pods is not the wanted one; and the number it reports |
| `Clusters.Cluster.ScaleAndFinish` | pkg/cluster/replicate.go:78-134 | scaling, then recovery unless nothing was reported and replicas are wanted |
| `Clusters.Cluster.Replicate` | pkg/cluster/replicate.go:32-135 | a replicate pass towards the configured numbers, with its verdict; the status is published when it returns |
| `Clusters.Cluster.Resize` | pkg/cluster/cluster.go:403-447 | an empty StatefulSet stays empty, and the cluster is paused, while the wanted size is below the restore size in the local copy; otherwise it gets the wanted size and a pause ends; a failed call leaves the size alone |
| `Clusters.Cluster.HandleUpdateEvent` | pkg/cluster/cluster.go:381-448 | takes over the new spec and the carried status; acts exactly if the wanted size, the pause or the wanted primaries have changed |
| `Clusters.Cluster.HandleModify` | pkg/cluster/cluster.go:293-300 | one step of the control state; a failed update fails the cluster, and that is published |
| `Clusters.Cluster.Work` | pkg/cluster/cluster.go:350-358 | reconcile, replicate if that was silent, reconcile the same pods again if replication was not |
| `Clusters.Cluster.Clear` | pkg/cluster/cluster.go:331-343 | without running pods the table is dropped if no replicas are wanted, else all members go offline |
| `Clusters.Cluster.NotePoll` | pkg/cluster/cluster.go:308-348 | the pause flag and the pod count in the status; goes on exactly if not paused, the poll succeeded and nothing is pending; sets the restore size exactly if it then finds the wanted number of pods, and some, running |
| `Clusters.Cluster.HandleTick` | pkg/cluster/cluster.go:305-361 | one round for this poll; phase, spec and StatefulSet are left alone |
| `Clusters.Cluster.HandleInput` | pkg/cluster/cluster.go:288-361 | one round for this input; the loop ends exactly on stop, after a failed update or inside a pass that does not return |
| `Clusters.Cluster.Run` | pkg/cluster/cluster.go:272-379 | for every list of inputs, each input gets its round and its step of the control state, up to the one that ends the loop; table and rounds form a run; no condition kind is ever reported twice if none was |
| `Controllers.Handle.Delete` | pkg/cluster/cluster.go:256-259 | closes a stop channel, which must be open |
| `Controllers.Handle.Update` | pkg/cluster/cluster.go:475-480 | the update is queued last |
| `Controllers.Conservation` | pkg/controller/controller.go:65-115 | over every event sequence, creations minus deletions is the gauge, and the gauge is the size of the table plus the failed clusters whose deletion removed an entry |
| `Controllers.StepExactly` | pkg/controller/controller.go:65-115 | when an event is accepted, what it adds to or removes from the table, and which counters it moves |
| `Controllers.GaugeIsRight` | pkg/controller/controller.go:68-75 | the gauge ends up as the size of the table if and only if no event of the run deleted a failed cluster that was in the table |
| `Controllers.GaugeDrifts` | pkg/controller/controller.go:70-73 | a concrete sequence of two events after which the gauge is off by one |
| `Controllers.Controller.HandleClusterEvent` | pkg/controller/controller.go:65-115 | the ledger of one event; a handle is created exactly for a new name, closed exactly by a valid deletion of a healthy cluster, sent exactly the valid updates of its healthy cluster, and all others are untouched |
| `Controllers.Controller.Sync` | pkg/controller/informer.go:119-137 | an add or update fits the table, so it is refused only for a failed or invalid object |
| `Controllers.Controller.Run` | pkg/controller/controller.go:65-115 | any sequence of events: one open handle per name, none closed twice, balanced books |
| `Durations.MatchInverts` | pkg/cluster/exec.go:57-58 | the pattern recovers exactly the groups a notation was written from |
| `Durations.TotalIsSum` | pkg/cluster/exec.go:60-88 | the sum is the weighted sum of the components below 2^63; the others count as zero |
| `Durations.TotalIsExact` | pkg/cluster/exec.go:60-76 | below 2^63 nanoseconds no component is lost, so the sum is exact |
| `Durations.Wraps` | pkg/cluster/exec.go:76 | the result of the sum fits into 64 signed bits and differs from the exact sum by a multiple of 2^64 |
| `Durations.Weights` | pkg/cluster/exec.go:73-76 | the nanoseconds in each unit, as numbers |
| `Durations.TimeOfDay` | pkg/cluster/exec.go:51-76 | any hours, minutes and seconds in range, written out, are read as that many nanoseconds |
| `Durations.NothingIsZero` | pkg/cluster/exec.go:53-55 | no text, and the empty text, mean no time |
| `Durations.ParseInverts` | pkg/cluster/exec.go:51-88 | any non-empty ordered choice of groups is read back as its weighted sum modulo 2^64 without the components from 2^63 on, and exactly if the whole sum is below 2^63 nanoseconds |
| `Durations.HugeComponentIsLost` | pkg/cluster/exec.go:79-88 | a lone number of seconds from 2^63 on is read as no time |
| `Durations.BareNumber` | pkg/cluster/exec.go:67-71 | a bare number counts seconds, exactly if in range, and otherwise with the saturation and wrap-around of Go |

## Left out

- Clusters.Cluster.Assist: the loop is cut after a while, but only where it can diverge, because the source loop need not end; `done` tells which, and `Divergence.DivergenceExact` says exactly when it can happen.
- Clusters.Cluster.Replicate: a pass whose secondary loop is cut counts as one that has not returned; `Hanging.HangExact` says exactly when that can happen.
- Clusters.Cluster.Run: takes a finite list of inputs, and stops after a pass that has not returned; timing, channel capacity and fatal errors, which no code raises, are not modelled.
- Clusters.Cluster.Execute: the command's effect on the pod is its arbitrary outcome; the exit code that an error text denotes (`parseExitCode`) and the sanitised timeout are arbitrary.
- Clusters.Cluster.UpdateCRStatus: the member lists, the reason and the version fields of the status are not modelled; a difference in them is an arbitrary flag.
- Clusters.Cluster.VisitMember: for a member that is not probed, `code` is a placeholder.
- Clusters.Cluster.HandleInput: after a failed update the failure is reported once, not in a retry loop.
- Clusters.Cluster.HandleModify: likewise, a failure is reported once.
- Clusters.Cluster.constructor: the set-up and creation of services, secrets and the StatefulSet are not modelled; a missing member table is the empty one.
- Status.ClusterStatus.SetClusterCondition: texts are enumerations, and the slice that status and local copy may share is a value here.
- MemberSets.Member.MarkFailed: the failure count does not wrap at 2^64, and counts are not cut to 32 bits.
- MemberSets.Member.Copy: namespace and TLS flags are not modelled.
- Durations.ParseInverts: does not say which other texts are accepted; a text with trailing characters is read up to them.
- Controllers.Controller.HandleClusterEvent: whether an object is failed and whether its spec is valid are inputs.
- Controllers.Handle.Update: an update to a closed or full channel is not modelled; the table holds open handles only.
- Error texts: none is modelled; pkg/controller/controller_test.go:44 expects one that the handler does not produce.
- Pod labels (`tagAppMember`), the filtering of polled pods by owner, and logging: no effect on the modelled state.
- `MemberSet.IsEqual`, `Restore`, `InActiveMembers` and the name, address and URL helpers: easy, and unused by the passes.
- `pkg/cluster/statefulset.go`, Kubernetes clients and utilities, generated code, metrics, chaos testing, retries, the application scripts: object assembly, plumbing and foreign calls.
