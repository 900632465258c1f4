/** When passes make progress and when they rest. */
module Convergence {
  import opened Views
  import opened MemberSets
  import opened Events
  import opened Phases
  import opened Passes
  import opened Guarantees

  // ---- convergence of replicate ----

  lemma AllStagesOk(log: ReplicateLog)
    requires AllOk(log.Events())
    ensures AllOk(log.seed.evs) && AllOk(log.scale.promote.evs) && AllOk(log.scale.demote.evs) && AllOk(log.scale.assist.evs)
  {
    var d, s, p, m, a, r := log.detect, log.seed, log.scale.promote, log.scale.demote, log.scale.assist, log.recover;
    AllOkConcat(d.evs + s.evs + p.evs + m.evs + a.evs, r.evs);
    AllOkConcat(d.evs + s.evs + p.evs + m.evs, a.evs);
    AllOkConcat(d.evs + s.evs + p.evs, m.evs);
    AllOkConcat(d.evs + s.evs, p.evs);
    AllOkConcat(d.evs, s.evs);
  }

  /** Full strength: every wanted pod is present and nobody has failed. */
  ghost predicate Ready(v: View, replicas: nat) {
    Inv(v) && NoneFailed(v) && |Active(v)| == replicas
  }

  lemma FirstSeedSucceeds(seeds: seq<string>, v: View, evs: seq<Event>, w: View)
    requires Phase(Seeding(seeds), v, evs, w) && Live(v) == {} && evs != [] && AllOk(evs)
    ensures Live(w) != {} && Active(w) == Active(v) && (NoneFailed(v) ==> NoneFailed(w))
  {
    SeedingFacts(seeds, v, evs, w);
    SeedingCandidates(seeds, v, evs, w);
  }

  lemma SeedingConverges(log: ReplicateLog, replicas: nat, primaries: nat, clean: bool)
    requires ReplicatePass(log, replicas, primaries, clean) && Ready(log.before, replicas) && replicas > 0
    requires AllOk(log.seed.evs)
    ensures !Waiting(log.before, replicas) && Ready(log.seed.after, replicas) && Live(log.seed.after) != {}
  {
    CountOrder(log.before);
    PassIsStaged(log, replicas, primaries, clean);
    ReplicateHistory(log, replicas, primaries);
    DetectKeepsCounts(log);
    if Live(log.before) == {} {
      SeedsMostRecentFirst(log, replicas, primaries, clean);
      FirstSeedSucceeds(Seeds(log), log.detect.after, log.seed.evs, log.seed.after);
    }
  }

  /** If all pods are present, none has failed and every command succeeds, one pass
      reaches the wanted numbers of primaries and members and reports no error.  With
      as many primaries as replicas the secondary loop is never entered, so the pass
      ends and every online member is a primary. */
  lemma ReplicateConverges(log: ReplicateLog, replicas: nat, primaries: nat, clean: bool)
    requires ReplicatePass(log, replicas, primaries, clean) && Ready(log.before, replicas)
    requires 0 < replicas && primaries <= replicas && AllOk(log.Events())
    ensures primaries == replicas ==> log.scale.done
    ensures log.scale.done ==> clean
    ensures log.scale.done ==> var v := log.recover.after;
      && Ready(v, replicas) && |Live(v)| == primaries && |Members(v)| == replicas
      && (primaries == replicas ==> Live(v) == Active(v))
  {
    AllStagesOk(log);
    SeedingConverges(log, replicas, primaries, clean);
    PassIsStaged(log, replicas, primaries, clean);
    ReplicateHistory(log, replicas, primaries);
    ScalingConverges(log, replicas, primaries);
    if log.scale.done {
      CountOrder(log.scale.assist.after);
      SubsetSize(Live(log.scale.assist.after), Active(log.scale.assist.after));
    }
  }

  /** Up to the secondaries, successful commands reach the wanted number of primaries. */
  lemma PrimariesConverge(log: ReplicateLog, replicas: nat, primaries: nat)
    requires ScalePass(log.seed.after, log.scale, replicas, primaries) && primaries <= replicas
    requires Ready(log.seed.after, replicas) && Inv(log.scale.promote.after) && Inv(log.scale.demote.after)
    requires AllOk(log.scale.promote.evs) && AllOk(log.scale.demote.evs)
    ensures log.scale.promoted && log.scale.demoted
    ensures Ready(log.scale.demote.after, replicas) && |Live(log.scale.demote.after)| == primaries
  {
    PromotionFacts(primaries, log.seed.after, log.scale.promote.evs, log.scale.promote.after);
    CountOrder(log.scale.promote.after);
    DemotionFacts(primaries, log.scale.promote.after, log.scale.demote.evs, log.scale.demote.after);
    assert |Live(log.scale.demote.after)| <= primaries by {
      if Demotable(log.scale.demote.after) == {} {
        assert Live(log.scale.demote.after) == {};
      }
    }
  }

  lemma ScalingConverges(log: ReplicateLog, replicas: nat, primaries: nat)
    requires ScalePass(log.seed.after, log.scale, replicas, primaries) && primaries <= replicas
    requires Ready(log.seed.after, replicas)
    requires Inv(log.scale.promote.after) && Inv(log.scale.demote.after) && Inv(log.scale.assist.after)
    requires AllOk(log.scale.promote.evs) && AllOk(log.scale.demote.evs) && AllOk(log.scale.assist.evs)
    ensures log.scale.promoted && log.scale.demoted
    ensures primaries == replicas ==> log.scale.done
    ensures log.scale.done ==> log.scale.scaled && Ready(log.scale.assist.after, replicas)
    ensures log.scale.done ==> |Live(log.scale.assist.after)| == primaries && |Members(log.scale.assist.after)| >= replicas
  {
    PrimariesConverge(log, replicas, primaries);
    AssistFacts(replicas, log.scale.demote.after, log.scale.assist.evs, log.scale.assist.after);
    CountOrder(log.scale.assist.after);
  }

  // ---- healing ----

  /** Every successful clean-up command leaves its target healthy, and nobody else changes. */
  lemma {:induction false} CleanupHeals(v0: View, evs: seq<Event>, v: View)
    requires Phase(Cleanup, v0, evs, v) && AllOk(evs)
    ensures v.Keys == v0.Keys
    ensures forall n | n in v0 :: !v[n].failed || (v[n] == v0[n] && forall e | e in evs :: IsCommand(e) && e.target != n)
  {
    if evs != [] {
      var k := |evs| - 1;
      PhaseInit(Cleanup, v0, evs, v);
      CleanupHeals(v0, evs[..k], evs[k].before);
      assert evs == evs[..k] + [evs[k]];
    }
  }

  /** If every command succeeds, recovery leaves nobody failed. */
  lemma RecoveryHeals(v0: View, order: seq<string>, s: Stage)
    requires RecoverPass(v0, order, s) && AllOk(s.evs)
    ensures NoneFailed(s.after)
  {
    RecoveryFacts(v0, order, s);
    CleanupHeals(v0, s.evs, s.after);
    forall n | n in s.after ensures !s.after[n].failed {
      assert RecoveredTo(v0[n], s.after[n]) && Answered(v0[n], s.after[n], n, s.evs);
    }
  }

  /** A replicate pass in which every command succeeds leaves nobody failed, if nobody was. */
  lemma ReplicateKeepsHealth(log: ReplicateLog, replicas: nat, primaries: nat, clean: bool)
    requires ReplicatePass(log, replicas, primaries, clean) && Inv(log.before) && NoneFailed(log.before)
    requires AllOk(log.Events())
    ensures NoneFailed(log.recover.after)
  {
    AllStagesOk(log);
    PassIsStaged(log, replicas, primaries, clean);
    ReplicateHistory(log, replicas, primaries);
    DetectKeepsCounts(log);
    if log.seed.evs != [] { SeedingFacts(Seeds(log), log.detect.after, log.seed.evs, log.seed.after); }
    ScalingKeepsHealth(log, replicas, primaries);
    if !Skipped(log.scale.assist.after, log.recover) {
      RecoveryFacts(log.scale.assist.after, log.recoverOrder, log.recover);
    }
  }

  lemma ScalingKeepsHealth(log: ReplicateLog, replicas: nat, primaries: nat)
    requires Staged(log, replicas, primaries) && NoneFailed(log.seed.after)
    requires Inv(log.scale.promote.after)
    requires AllOk(log.scale.promote.evs) && AllOk(log.scale.demote.evs) && AllOk(log.scale.assist.evs)
    ensures NoneFailed(log.scale.assist.after)
  {
    var p, d, a := log.scale.promote, log.scale.demote, log.scale.assist;
    if Ran(Promotion(primaries), log.seed.after, p) { PromotionFacts(primaries, log.seed.after, p.evs, p.after); }
    if Ran(Demotion(primaries), p.after, d) { DemotionFacts(primaries, p.after, d.evs, d.after); }
    if Ran(Assistance(replicas), d.after, a) { AssistFacts(replicas, d.after, a.evs, a.after); }
  }

  // ---- the verdict of reconcile ----

  /** The status code that member `n` answered in this pass. */
  ghost function CodeOf(c: CheckLog, n: string): int
    requires n in c.probeOrder && |c.codes| == |c.probeOrder|
  {
    var i :| 0 <= i < |c.probeOrder| && c.probeOrder[i] == n;
    c.codes[i]
  }

  lemma ProbeFacts(v: View, c: CheckLog, secondaries: bool)
    requires ProbePass(v, c.probeOrder, c.codes, c.probe, secondaries)
    ensures c.probe.after.Keys == v.Keys
    ensures forall n | n in v ::
      && n in c.probeOrder
      && ProbedTo(v[n], c.probe.after[n], CodeOf(c, n))
      && (CodeOf(c, n) == 0 ==> secondaries)
      && (Probeable(v[n]) ==> Heard(c.probe.evs, n, CodeOf(c, n), secondaries))
    ensures QuietUpTo(c.probeOrder, c.codes, v) <==>
      forall n | n in v && Probeable(v[n]) :: Quiet(v[n], CodeOf(c, n))
  {
    var order := c.probeOrder;
    forall i | 0 <= i < |order| ensures CodeOf(c, order[i]) == c.codes[i] {
      assert order[i] in order;
    }
    assert forall n | n in v :: n in order;
  }

  /** How a member must come through the pass for it to be clean: a failed one is
      cleaned up by a stop, a healthy one answers as recorded or better. */
  predicate Settled(s: State, t: State, code: int) {
    if s.failed then s.failures <= 1 && t == AfterStop(s, true)
    else if s.online then Quiet(s, code) && t == AfterProbe(s, code)
    else t == s
  }

  lemma SettledExact(s: State, mid: State, t: State, code: int)
    requires ProbedTo(s, mid, code) && RecoveredTo(mid, t)
    ensures Settled(s, t, code) <==> (Probeable(s) ==> Quiet(s, code)) && CleanedUp(mid, t)
  {
  }

  lemma SettledFacts(s: State, t: State, code: int, secondaries: bool)
    requires Settled(s, t, code) && (code == 0 ==> secondaries)
    ensures !t.failed && t.online == s.online
    ensures !secondaries ==> (t.online && t.running ==> t.primary)
  {
  }

  /** The verdict of reconcile is exact: no error is reported if and only if every
      member settled. */
  lemma ReconcileVerdict(v: View, c: CheckLog, secondaries: bool, clean: bool)
    requires CheckPass(v, c, secondaries, clean)
    ensures c.recover.after.Keys == v.Keys && |c.codes| == |c.probeOrder| && forall n | n in v :: n in c.probeOrder
    ensures forall n | n in v && Probeable(v[n]) :: Heard(c.probe.evs, n, CodeOf(c, n), secondaries)
    ensures clean <==> forall n | n in v :: Settled(v[n], c.recover.after[n], CodeOf(c, n))
  {
    ProbeFacts(v, c, secondaries);
    RecoveryFacts(c.probe.after, c.recoverOrder, c.recover);
    forall n | n in v
      ensures Settled(v[n], c.recover.after[n], CodeOf(c, n)) <==>
        (Probeable(v[n]) ==> Quiet(v[n], CodeOf(c, n))) && CleanedUp(c.probe.after[n], c.recover.after[n])
    {
      SettledExact(v[n], c.probe.after[n], c.recover.after[n], CodeOf(c, n));
    }
  }

  lemma CleanCheck(v: View, c: CheckLog, secondaries: bool)
    ensures CheckPass(v, c, secondaries, true) ==>
      && SamePods(v, c.recover.after) && NoneFailed(c.recover.after)
      && (!secondaries ==> Members(c.recover.after) == Live(c.recover.after))
  {
    if CheckPass(v, c, secondaries, true) {
      var w := c.recover.after;
      ReconcileVerdict(v, c, secondaries, true);
      ProbeFacts(v, c, secondaries);
      forall n | n in v
        ensures !w[n].failed && w[n].online == v[n].online
        ensures !secondaries ==> (w[n].online && w[n].running ==> w[n].primary)
      {
        SettledFacts(v[n], w[n], CodeOf(c, n), secondaries);
      }
    }
  }

  /** After a clean reconcile nobody is failed, exactly the polled pods are online, and
      without a secondary command every running member is a primary. */
  lemma CleanReconcile(log: ReconcileLog, secondaries: bool)
    requires ReconcilePass(log, secondaries, true)
    ensures var v := log.check.recover.after;
      && NoneFailed(v) && Active(v) == log.pods.Keys
      && (!secondaries ==> Members(v) == Live(v))
  {
    CleanCheck(log.synced, log.check, secondaries);
    MergeLaws(log.before, log.pods);
    assert Active(log.check.recover.after) == Active(log.synced);
  }

  /** The pass as one lawful history. */
  lemma ReconcileHistory(log: ReconcileLog, secondaries: bool, clean: bool)
    requires ReconcilePass(log, secondaries, clean) && Inv(log.before)
    ensures History(log.before, log.Events(), log.check.recover.after)
  {
    var e, probe, recover := Sync(log.pods, log.before), log.check.probe, log.check.recover;
    assert Leads(log.before, [e], log.synced) by {
      LeadsStep(log.before, [], log.before, e);
      assert [] + [e] == [e];
    }
    EffectSound(e);
    PhaseHistory(Probing, log.synced, probe.evs, probe.after);
    PhaseHistory(Cleanup, probe.after, recover.evs, recover.after);
    HistoryConcat(log.before, [e], log.synced, probe.evs, probe.after);
    HistoryConcat(log.before, [e] + probe.evs, probe.after, recover.evs, recover.after);
  }

  // ---- replication with the wrong number of pods ----

  /** There is no primary the pass would start or stop, and no secondary it would start. */
  ghost predicate NothingToDo(v: View, replicas: nat, primaries: nat) {
    || (|Live(v)| <= primaries && Candidates(v) == {})
    || (|Live(v)| == primaries && |Members(v)| >= replicas)
    || (|Live(v)| > primaries && Demotable(v) == {})
  }

  ghost predicate Unchanged(s: ScaleLog) { s.promote.evs == [] && s.demote.evs == [] && s.assist.evs == [] }

  /** The first command of a phase finds its target in the table the phase started from. */
  lemma FirstTarget(rule: Rule, v: View, s: Stage)
    requires Ran(rule, v, s)
    ensures s.evs == [] ==> s.after == v
    ensures s.evs != [] && (rule.Promotion? || rule.Assistance?) ==> s.evs[0].Started? && s.evs[0].target in Candidates(v)
    ensures s.evs != [] && rule.Demotion? ==> s.evs[0].Stopped? && s.evs[0].target in Demotable(v)
  {
    if s.evs != [] {
      LeadsPrefix(v, s.evs, s.after, 0);
      assert Obeys(rule, 0, s.evs[0]);
    }
  }

  lemma IdleScaling(v: View, s: ScaleLog, replicas: nat, primaries: nat)
    requires ScalePass(v, s, replicas, primaries) && Inv(v) && NothingToDo(v, replicas, primaries)
    ensures Unchanged(s)
  {
    PromotionFacts(primaries, v, s.promote.evs, s.promote.after);
    FirstTarget(Promotion(primaries), v, s.promote);
    assert s.promote.after == v;
    if s.promoted {
      DemotionFacts(primaries, v, s.demote.evs, s.demote.after);
      FirstTarget(Demotion(primaries), v, s.demote);
      assert s.demote.after == v;
      if s.demoted {
        AssistFacts(replicas, v, s.assist.evs, s.assist.after);
        FirstTarget(Assistance(replicas), v, s.assist);
      }
    }
  }

  lemma ScalingChanges(v: View, s: ScaleLog, replicas: nat, primaries: nat)
    requires ScalePass(v, s, replicas, primaries) && Inv(v)
    ensures Unchanged(s) <==> NothingToDo(v, replicas, primaries)
  {
    if NothingToDo(v, replicas, primaries) { IdleScaling(v, s, replicas, primaries); }
  }

  /** The final recovery would find nobody failed, or would not be reached. */
  ghost predicate NothingToRecover(v: View, replicas: nat, primaries: nat) {
    NoneFailed(v) || (|Live(v)| == primaries && |Members(v)| >= replicas)
  }

  /** Recovery is silent exactly if nobody is failed. */
  lemma RecoveryRests(v: View, order: seq<string>, s: Stage)
    requires RecoverPass(v, order, s)
    ensures s.evs == [] <==> NoneFailed(v)
  {
    RecoveryFacts(v, order, s);
    if s.evs == [] {
      forall n | n in v ensures !v[n].failed { assert Answered(v[n], s.after[n], n, s.evs); }
    }
  }

  lemma FinishChanges(v: View, s: ScaleLog, order: seq<string>, recover: Stage, replicas: nat, primaries: nat, clean: bool)
    requires ScalePass(v, s, replicas, primaries) && FinishPass(s, order, recover, replicas, clean)
    requires Inv(v) && Unchanged(s) && replicas > 0
    ensures recover.evs == [] <==> NothingToRecover(v, replicas, primaries)
  {
    assert s.promote.after == v && s.demote.after == v && s.assist.after == v;
    assert s.done && (s.scaled <==> |Live(v)| == primaries && |Members(v)| >= replicas);
    if !s.scaled { RecoveryRests(v, order, recover); }
  }

  /** With a live primary, and unless it waits, a pass seeds, promotes, demotes and assists
      nobody if and only if there is nothing to do; the number of pods plays no part.  It
      issues no start, stop or deletion at all if and only if, moreover, there is nothing
      to recover. */
  lemma ChangesExactly(log: ReplicateLog, replicas: nat, primaries: nat, clean: bool)
    requires ReplicatePass(log, replicas, primaries, clean) && Inv(log.before)
    requires Live(log.before) != {} && !Waiting(log.before, replicas)
    ensures log.seed.evs == [] && (Unchanged(log.scale) <==> NothingToDo(log.before, replicas, primaries))
    ensures Unchanged(log.scale) && log.recover.evs == [] <==>
      NothingToDo(log.before, replicas, primaries) && NothingToRecover(log.before, replicas, primaries)
  {
    var v := log.seed.after;
    DetectKeepsCounts(log);
    PassIsStaged(log, replicas, primaries, clean);
    ReplicateHistory(log, replicas, primaries);
    ScalingChanges(v, log.scale, replicas, primaries);
    SubsetSize(Live(log.before), Members(log.before));
    assert NoneFailed(v) <==> NoneFailed(log.before);
    if Unchanged(log.scale) { FinishChanges(v, log.scale, log.recoverOrder, log.recover, replicas, primaries, clean); }
  }

  /** doc/design/replication.md promises that replication changes wait for the correct
      number of pods.  With another number of pods a pass keeps that promise if and only if
      it waits, or there is nothing to do anyway; recovery apart, which it also leaves out
      exactly if it waits or there is nothing to recover. */
  lemma WrongPodCount(log: ReplicateLog, replicas: nat, primaries: nat, clean: bool)
    requires ReplicatePass(log, replicas, primaries, clean) && Inv(log.before) && |Active(log.before)| != replicas
    ensures log.seed.evs == [] && Unchanged(log.scale) <==>
      Waiting(log.before, replicas) || NothingToDo(log.before, replicas, primaries)
    ensures log.seed.evs == [] && Unchanged(log.scale) && log.recover.evs == [] <==>
      || Waiting(log.before, replicas)
      || (NothingToDo(log.before, replicas, primaries) && NothingToRecover(log.before, replicas, primaries))
  {
    if !Waiting(log.before, replicas) { ChangesExactly(log, replicas, primaries, clean); }
  }

  lemma PromotesIfItCan(log: ReplicateLog, replicas: nat, primaries: nat, clean: bool)
    requires ReplicatePass(log, replicas, primaries, clean) && |Members(log.before)| <= replicas
    requires 0 < |Live(log.before)| < primaries && Candidates(log.before) != {}
    ensures log.scale.promote.evs != []
  {
    DetectKeepsCounts(log);
    FirstTarget(Promotion(primaries), log.seed.after, log.scale.promote);
  }

  /** For instance: one of three pods is missing, and the pass starts a primary on another. */
  lemma ActsShortOfPods(log: ReplicateLog, clean: bool)
    requires log.before == map["a" := State(true, true, true, false, 0, 0), "b" := NEW_POD]
    requires ReplicatePass(log, 3, 3, clean)
    ensures |Active(log.before)| == 2 && log.scale.promote.evs != []
  {
    PrimaryAndIdle(log.before);
    PromotesIfItCan(log, 3, 3, clean);
  }

  lemma PrimaryAndIdle(v: View)
    requires v == map["a" := State(true, true, true, false, 0, 0), "b" := NEW_POD]
    ensures |Active(v)| == 2 && |Live(v)| == |Members(v)| == 1 && Candidates(v) != {}
  {
    assert Active(v) == {"a", "b"} && Live(v) == {"a"} && Members(v) == {"a"} && Candidates(v) == {"b"};
  }

  // ---- quiescence ----

  /** The wanted pods are present and healthy, with the wanted primaries and members. */
  ghost predicate Steady(v: View, replicas: nat, primaries: nat) {
    Ready(v, replicas) && |Live(v)| == primaries && |Members(v)| == replicas
  }

  /** A steady cluster is left alone exactly when it wants a primary: a target of zero
      makes every pass seed a primary and demote it again. */
  lemma ReplicateRests(log: ReplicateLog, replicas: nat, primaries: nat, clean: bool)
    requires ReplicatePass(log, replicas, primaries, clean)
    requires Steady(log.before, replicas, primaries) && replicas > 0
    ensures log.Events() == [] <==> primaries > 0
    ensures primaries > 0 ==> clean && log.recover.after == log.before
    ensures primaries == 0 ==> log.seed.evs != [] && Cold(log.seed.evs[0])
    ensures primaries == 0 && Live(log.seed.after) != {} ==> log.scale.demote.evs != []
  {
    if primaries > 0 {
      PromotionFacts(primaries, log.seed.after, log.scale.promote.evs, log.scale.promote.after);
      DemotionFacts(primaries, log.scale.promote.after, log.scale.demote.evs, log.scale.demote.after);
      if log.scale.demoted {
        AssistFacts(replicas, log.scale.demote.after, log.scale.assist.evs, log.scale.assist.after);
      }
    } else {
      CountOrder(log.before);
      SeedsMostRecentFirst(log, replicas, primaries, clean);
      assert Obeys(Seeding(Seeds(log)), 0, log.seed.evs[0]);
      if Live(log.seed.after) != {} { SeededIsDemoted(log, replicas, clean); }
    }
  }

  /** A seed that has succeeded is healthy. */
  lemma SeedIsHealthy(seeds: seq<string>, v0: View, evs: seq<Event>, v: View)
    requires Phase(Seeding(seeds), v0, evs, v) && Live(v0) == {} && Live(v) != {}
    ensures Demotable(v) != {} && |Live(v)| == 1
  {
    SeedingFacts(seeds, v0, evs, v);
    var k := |evs| - 1;
    PhaseInit(Seeding(seeds), v0, evs, v);
    assert evs[k].target in Demotable(v);
  }

  lemma SeededIsDemoted(log: ReplicateLog, replicas: nat, clean: bool)
    requires ReplicatePass(log, replicas, 0, clean) && Inv(log.before)
    requires Live(log.before) == {} && !Waiting(log.before, replicas) && Live(log.seed.after) != {}
    ensures log.scale.demote.evs != []
  {
    DetectKeepsCounts(log);
    PassIsStaged(log, replicas, 0, clean);
    ReplicateHistory(log, replicas, 0);
    SeedIsHealthy(Seeds(log), log.detect.after, log.seed.evs, log.seed.after);
    PromotionFacts(0, log.seed.after, log.scale.promote.evs, log.scale.promote.after);
  }

  /** Without a secondary command every running member counts as a primary, but secondaries
      are started all the same.  So, at full strength, a pass after a clean reconcile finds
      nothing to do if and only if every replica is to be a primary, and is one. */
  lemma RestWithoutSecondaries(first: ReconcileLog, log: ReplicateLog, replicas: nat, primaries: nat, clean: bool)
    requires ReconcilePass(first, false, true) && Inv(first.before) && |first.pods| == replicas > 0
    requires ReplicatePass(log, replicas, primaries, clean) && log.before == first.check.recover.after
    requires primaries <= replicas
    ensures log.seed.evs == [] && Unchanged(log.scale) <==> |Live(log.before)| == primaries == replicas
    ensures |Live(log.before)| == primaries == replicas ==> log.recover.evs == []
  {
    var v := log.before;
    CleanReconcile(first, false);
    ReconcileHistory(first, false, true);
    assert |first.pods.Keys| == |first.pods|;
    CountOrder(v);
    if Live(v) == {} {
      SeedsMostRecentFirst(log, replicas, primaries, clean);
      DetectKeepsCounts(log);
    } else {
      ChangesExactly(log, replicas, primaries, clean);
      HealthyIsLive(v);
    }
  }

  /** Every running member is a primary. */
  ghost predicate NoSecondary(v: View) {
    forall n | n in v && IsMember(v[n]) :: v[n].primary
  }

  /** Successful starts of primaries and stops of primaries create no secondary. */
  lemma {:induction false} KeepsNoSecondary(rule: Rule, v0: View, evs: seq<Event>, v: View)
    requires Phase(rule, v0, evs, v) && (rule.Seeding? || rule.Promotion? || rule.Demotion?)
    requires AllOk(evs) && NoSecondary(v0)
    ensures NoSecondary(v)
  {
    if evs != [] {
      var k := |evs| - 1;
      PhaseInit(rule, v0, evs, v);
      KeepsNoSecondary(rule, v0, evs[..k], evs[k].before);
    }
  }

  /** Up to the secondary loop, a pass whose commands succeed creates no secondary. */
  lemma NoSecondaryYet(log: ReplicateLog, replicas: nat, primaries: nat)
    requires Staged(log, replicas, primaries) && NoSecondary(log.before)
    requires AllOk(log.seed.evs) && AllOk(log.scale.promote.evs) && AllOk(log.scale.demote.evs)
    ensures NoSecondary(log.scale.demote.after)
  {
    var d, s, p, m := log.detect, log.seed, log.scale.promote, log.scale.demote;
    DetectKeepsCounts(log);
    assert NoSecondary(d.after);
    if s.evs != [] { KeepsNoSecondary(Seeding(Seeds(log)), d.after, s.evs, s.after); }
    if p.evs != [] { KeepsNoSecondary(Promotion(primaries), s.after, p.evs, p.after); }
    if m.evs != [] { KeepsNoSecondary(Demotion(primaries), p.after, m.evs, m.after); }
  }

  lemma RunningArePrimaries(v: View)
    requires NoSecondary(v)
    ensures Members(v) == Live(v)
  {
  }

  /** doc/design/replication.md promises that secondaries are started only if there is a
      secondary command.  Without one, at full strength, after a clean reconcile, and with
      seeding, promotion and demotion successful, a pass nevertheless starts a secondary if
      and only if fewer primaries than replicas are wanted. */
  lemma SecondariesWithoutCommand(first: ReconcileLog, log: ReplicateLog, replicas: nat, primaries: nat, clean: bool)
    requires ReconcilePass(first, false, true) && Inv(first.before) && |first.pods| == replicas > 0
    requires ReplicatePass(log, replicas, primaries, clean) && log.before == first.check.recover.after
    requires primaries <= replicas
    requires AllOk(log.seed.evs) && AllOk(log.scale.promote.evs) && AllOk(log.scale.demote.evs)
    ensures log.scale.assist.evs != [] <==> primaries < replicas
  {
    CleanReconcile(first, false);
    ReconcileHistory(first, false, true);
    assert |first.pods.Keys| == |first.pods|;
    SeedingConverges(log, replicas, primaries, clean);
    PassIsStaged(log, replicas, primaries, clean);
    ReplicateHistory(log, replicas, primaries);
    assert NoSecondary(log.before) by {
      forall n | n in log.before && IsMember(log.before[n]) ensures log.before[n].primary { assert n in Members(log.before); }
    }
    NoSecondaryYet(log, replicas, primaries);
    SecondariesWanted(log, replicas, primaries);
  }

  lemma SecondariesWanted(log: ReplicateLog, replicas: nat, primaries: nat)
    requires ScalePass(log.seed.after, log.scale, replicas, primaries) && primaries <= replicas
    requires Ready(log.seed.after, replicas) && Inv(log.scale.promote.after) && Inv(log.scale.demote.after)
    requires AllOk(log.scale.promote.evs) && AllOk(log.scale.demote.evs) && NoSecondary(log.scale.demote.after)
    ensures log.scale.assist.evs != [] <==> primaries < replicas
  {
    var v := log.scale.demote.after;
    PrimariesConverge(log, replicas, primaries);
    RunningArePrimaries(v);
    CountOrder(v);
    AssistFacts(replicas, v, log.scale.assist.evs, log.scale.assist.after);
    FirstTarget(Assistance(replicas), v, log.scale.assist);
  }

  /** Whatever the commands do and whatever is configured: if every replica is to be a
      primary, no pass starts a secondary. */
  lemma NoSecondariesAmongPrimaries(log: ReplicateLog, replicas: nat, primaries: nat, clean: bool)
    requires ReplicatePass(log, replicas, primaries, clean) && Inv(log.before) && primaries >= replicas
    ensures log.scale.assist.evs == []
  {
    PassIsStaged(log, replicas, primaries, clean);
    ReplicateHistory(log, replicas, primaries);
    if log.scale.assist.evs != [] {
      var v := log.scale.demote.after;
      DemotionFacts(primaries, log.scale.promote.after, log.scale.demote.evs, v);
      CountOrder(v);
      AssistFacts(replicas, v, log.scale.assist.evs, log.scale.assist.after);
    }
  }

  /** For instance: one primary runs and two pods idle; a pass that wants one primary among
      three starts a secondary, whether or not there is a command for it. */
  lemma StartsSecondary(log: ReplicateLog, clean: bool)
    requires log.before == map["a" := State(true, true, true, false, 0, 0), "b" := NEW_POD, "c" := NEW_POD]
    requires ReplicatePass(log, 3, 1, clean)
    ensures log.scale.assist.evs != [] && log.scale.assist.evs[0].Started? && !log.scale.assist.evs[0].asPrimary
  {
    var s := log.scale;
    PrimaryAndTwoIdle(log.before);
    DetectKeepsCounts(log);
    PromotionFacts(1, log.seed.after, s.promote.evs, s.promote.after);
    FirstTarget(Promotion(1), log.seed.after, s.promote);
    PassIsStaged(log, 3, 1, clean);
    ReplicateHistory(log, 3, 1);
    DemotionFacts(1, s.promote.after, s.demote.evs, s.demote.after);
    FirstTarget(Demotion(1), s.promote.after, s.demote);
    FirstTarget(Assistance(3), s.demote.after, s.assist);
    assert Obeys(Assistance(3), 0, s.assist.evs[0]);
  }

  lemma PrimaryAndTwoIdle(v: View)
    requires v == map["a" := State(true, true, true, false, 0, 0), "b" := NEW_POD, "c" := NEW_POD]
    ensures Inv(v) && |Active(v)| == 3 && |Live(v)| == |Members(v)| == 1 && Candidates(v) != {}
  {
    assert Active(v) == {"a", "b", "c"} && Live(v) == {"a"} && Members(v) == {"a"} && Candidates(v) == {"b", "c"};
  }

  lemma HealthyIsLive(v: View)
    requires Inv(v) && NoneFailed(v)
    ensures Demotable(v) == Live(v)
  {
    assert forall n | n in v :: Sound(v[n]);
  }

  /** For instance: three running secondaries where no primary is wanted are steady, and
      yet every pass starts a primary among them. */
  lemma NeverAtRest(log: ReplicateLog, clean: bool)
    requires var s := State(true, false, true, false, 0, 0); log.before == map["a" := s, "b" := s, "c" := s]
    requires ReplicatePass(log, 3, 0, clean)
    ensures Steady(log.before, 3, 0) && log.Events() != []
  {
    ThreeSecondaries(log.before);
    ReplicateRests(log, 3, 0, clean);
  }

  lemma ThreeSecondaries(v: View)
    requires var s := State(true, false, true, false, 0, 0); v == map["a" := s, "b" := s, "c" := s]
    ensures Steady(v, 3, 0)
  {
    assert Active(v) == {"a", "b", "c"} && Members(v) == {"a", "b", "c"} && Live(v) == {};
  }

  /** The code a healthy member with this record is expected to answer. */
  function Expected(s: State): int {
    if s.primary then 8 else if s.running then 0 else 7
  }

  lemma ExpectedRests(s: State, t: State, code: int)
    requires Sound(s) && !s.failed && ProbedTo(s, t, code) && (s.online ==> code == Expected(s))
    ensures t == s && (Probeable(s) ==> Quiet(s, code))
  {
  }

  lemma CheckRests(v: View, c: CheckLog, secondaries: bool, clean: bool)
    requires CheckPass(v, c, secondaries, clean) && Inv(v) && NoneFailed(v)
    requires forall n | n in Active(v) && n in c.probeOrder && |c.codes| == |c.probeOrder| ::
      CodeOf(c, n) == Expected(v[n])
    ensures c.recover.after == v && clean && c.recover.evs == []
  {
    ProbeFacts(v, c, secondaries);
    forall n | n in v ensures c.probe.after[n] == v[n] && (Probeable(v[n]) ==> Quiet(v[n], CodeOf(c, n))) {
      ExpectedRests(v[n], c.probe.after[n], CodeOf(c, n));
    }
    assert c.probe.after == v;
    RecoveryFacts(v, c.recoverOrder, c.recover);
  }

  lemma MergeSame(v: View, pods: View)
    requires Inv(v) && pods.Keys == Active(v) && forall n | n in pods :: pods[n] == NEW_POD
    ensures Merge(v, pods) == v
  {
    MergeLaws(v, pods);
    forall n | n in v ensures Merge(v, pods)[n] == v[n] {
      assert Sound(v[n]);
    }
  }

  /** If the same pods are polled again and everyone answers as recorded, reconcile
      changes nothing, reports nothing and issues probes only. */
  lemma ReconcileRests(log: ReconcileLog, secondaries: bool, clean: bool)
    requires ReconcilePass(log, secondaries, clean) && Inv(log.before) && NoneFailed(log.before)
    requires log.pods.Keys == Active(log.before)
    requires forall n | n in Active(log.before) && n in log.check.probeOrder && |log.check.codes| == |log.check.probeOrder| ::
      CodeOf(log.check, n) == Expected(log.before[n])
    ensures log.check.recover.after == log.before && clean && log.check.recover.evs == []
  {
    MergeSame(log.before, log.pods);
    CheckRests(log.synced, log.check, secondaries, clean);
  }
}
