/** Whole reconcile and replicate passes, phase by phase: the relation between the table
    before, the commands of each phase and the table after. */
module Passes {
  import opened Views
  import opened MemberSets
  import opened Events
  import opened Selection
  import opened Phases
  import Divergence

  /** A phase's commands and the table it left. */
  datatype Stage = Stage(evs: seq<Event>, after: View)

  ghost predicate Skipped(v: View, s: Stage) { s.evs == [] && s.after == v }

  ghost predicate Ran(rule: Rule, v: View, s: Stage) { Phase(rule, v, s.evs, s.after) }

  // ---- reconcile ----

  /** The probing and recovery phases. */
  datatype CheckLog = CheckLog(
    probeOrder: seq<string>, codes: seq<int>, probe: Stage, recoverOrder: seq<string>, recover: Stage)

  datatype ReconcileLog = ReconcileLog(pods: View, before: View, synced: View, check: CheckLog)
  {
    function Events(): seq<Event> {
      [Sync(pods, before)] + check.probe.evs + check.recover.evs
    }
  }

  ghost predicate ProbePass(v0: View, order: seq<string>, codes: seq<int>, s: Stage, secondaries: bool) {
    && Ran(Probing, v0, s) && IsOrder(order, v0.Keys) && |codes| == |order|
    && ProbedUpTo(order, codes, v0, s.after, s.evs, secondaries)
  }

  ghost predicate RecoverPass(v0: View, order: seq<string>, s: Stage) {
    && Ran(Cleanup, v0, s) && IsOrder(order, v0.Keys) && RecoveredUpTo(order, |order|, v0, s.after, s.evs)
  }

  ghost predicate CheckPass(v: View, c: CheckLog, secondaries: bool, clean: bool) {
    && ProbePass(v, c.probeOrder, c.codes, c.probe, secondaries)
    && RecoverPass(c.probe.after, c.recoverOrder, c.recover)
    && (clean <==> QuietUpTo(c.probeOrder, c.codes, v)
                   && CleanUpTo(c.recoverOrder, |c.recoverOrder|, c.probe.after, c.recover.after))
  }

  /** One reconcile: merge the pods, probe the healthy, recover the failed.  It is
      clean when every probe was quiet and every failed member was cleaned up. */
  ghost predicate ReconcilePass(log: ReconcileLog, secondaries: bool, clean: bool) {
    && (forall n | n in log.pods :: log.pods[n] == NEW_POD)
    && log.synced == Merge(log.before, log.pods)
    && CheckPass(log.synced, log.check, secondaries, clean)
  }

  // ---- replicate ----

  /** `promoted`, `demoted` and `scaled` say that no error had been reported after the
      promotion, demotion and secondary phases; `done` that the secondary loop ended. */
  datatype ScaleLog = ScaleLog(promote: Stage, promoted: bool, demote: Stage, demoted: bool,
                             assist: Stage, done: bool, scaled: bool)

  datatype ReplicateLog = ReplicateLog(
    before: View, detect: Stage, order: seq<string>, seed: Stage,
    scale: ScaleLog, recoverOrder: seq<string>, recover: Stage)
  {
    function Events(): seq<Event> {
      detect.evs + seed.evs + scale.promote.evs + scale.demote.evs + scale.assist.evs + recover.evs
    }
  }

  /** The pass refuses to start while too many members run, or while there is no
      primary and not every pod is present. */
  ghost predicate Waiting(v: View, replicas: nat) {
    |Members(v)| > replicas || (|Live(v)| == 0 && |Active(v)| != replicas)
  }

  ghost predicate DetectPass(v: View, s: Stage, replicas: nat, primaries: nat) {
    if |Live(v)| != primaries || |Members(v)| != replicas then
      Ran(Detection, v, s) && s.after.Keys == v.Keys && forall n | n in v :: DetectedTo(v[n], s.after[n], n, s.evs)
    else Skipped(v, s)
  }

  ghost predicate SeedPass(v: View, order: seq<string>, s: Stage) {
    if Live(v) == {} then
      && IsOrder(order, v.Keys) && Ran(Seeding(ScanSeeds(v, order)), v, s)
      && (Live(s.after) == {} ==> |s.evs| == |ScanSeeds(v, order)|)
    else Skipped(v, s)
  }

  ghost predicate PromotePass(v: View, s: Stage, primaries: nat, clean: bool) {
    && Ran(Promotion(primaries), v, s)
    && (|Live(s.after)| >= primaries || Candidates(s.after) == {})
    && (clean <==> AllOk(s.evs) && |Live(s.after)| >= primaries)
  }

  ghost predicate DemotePass(v: View, s: Stage, primaries: nat, clean: bool) {
    && Ran(Demotion(primaries), v, s)
    && (|Live(s.after)| <= primaries || Demotable(s.after) == {})
    && (clean <==> AllOk(s.evs) && |Live(s.after)| <= primaries)
  }

  ghost predicate AssistPass(v: View, s: Stage, replicas: nat, done: bool, clean: bool) {
    && Ran(Assistance(replicas), v, s)
    && (!done ==> Divergence.MayDiverge(v, replicas) && s.evs != [] && |Members(s.after)| < replicas)
    && (done ==> |Members(s.after)| >= replicas || Candidates(s.after) == {})
    && (done ==> (clean <==> AllOk(s.evs) && |Members(s.after)| >= replicas))
  }

  /** Promotion, demotion and secondary starts: each runs only if the one before was clean. */
  ghost predicate ScalePass(v: View, s: ScaleLog, replicas: nat, primaries: nat) {
    && PromotePass(v, s.promote, primaries, s.promoted)
    && (if s.promoted then DemotePass(s.promote.after, s.demote, primaries, s.demoted)
        else Skipped(s.promote.after, s.demote) && !s.demoted)
    && (if s.demoted then AssistPass(s.demote.after, s.assist, replicas, s.done, s.scaled)
        else Skipped(s.demote.after, s.assist) && s.done && !s.scaled)
  }

  /** The final recovery, if the pass got that far and something is amiss. */
  ghost predicate FinishPass(s: ScaleLog, order: seq<string>, recover: Stage, replicas: nat, clean: bool) {
    if !s.done || (s.scaled && replicas > 0) then Skipped(s.assist.after, recover) && clean == s.done
    else
      && RecoverPass(s.assist.after, order, recover)
      && (clean <==> s.scaled && CleanUpTo(order, |order|, s.assist.after, recover.after))
  }

  ghost predicate NothingAfterSeeding(log: ReplicateLog) {
    var v := log.seed.after;
    && log.scale.done
    && Skipped(v, log.scale.promote) && Skipped(v, log.scale.demote) && Skipped(v, log.scale.assist) && Skipped(v, log.recover)
  }

  /** A replicate pass; `clean` says it returned without reporting an error. */
  ghost predicate ReplicatePass(log: ReplicateLog, replicas: nat, primaries: nat, clean: bool) {
    if Waiting(log.before, replicas) then
      Skipped(log.before, log.detect) && Skipped(log.before, log.seed) && NothingAfterSeeding(log) && !clean
    else
      && DetectPass(log.before, log.detect, replicas, primaries)
      && SeedPass(log.detect.after, log.order, log.seed)
      && if Live(log.seed.after) == {} then NothingAfterSeeding(log) && !clean
         else ScalePass(log.seed.after, log.scale, replicas, primaries) && FinishPass(log.scale, log.recoverOrder, log.recover, replicas, clean)
  }

  lemma WaitingPass(log: ReplicateLog, replicas: nat, primaries: nat)
    requires Waiting(log.before, replicas)
    requires Skipped(log.before, log.detect) && Skipped(log.before, log.seed) && NothingAfterSeeding(log)
    ensures ReplicatePass(log, replicas, primaries, false)
  {
  }

  lemma FullPass(log: ReplicateLog, replicas: nat, primaries: nat, clean: bool)
    ensures (&& !Waiting(log.before, replicas)
             && DetectPass(log.before, log.detect, replicas, primaries)
             && SeedPass(log.detect.after, log.order, log.seed)
             && if Live(log.seed.after) == {} then NothingAfterSeeding(log) && !clean
                else ScalePass(log.seed.after, log.scale, replicas, primaries)
                     && FinishPass(log.scale, log.recoverOrder, log.recover, replicas, clean)) ==>
      ReplicatePass(log, replicas, primaries, clean)
  {
  }
}
