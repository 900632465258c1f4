/** What a replicate pass guarantees, for every outcome of its commands and every
    map order. */
module Guarantees {
  import opened Views
  import opened Events
  import opened Selection
  import opened Phases
  import opened Passes

  ghost predicate Did(rule: Rule, v: View, s: Stage) { Ran(rule, v, s) || Skipped(v, s) }

  lemma DidHistory(rule: Rule, v: View, s: Stage)
    requires Did(rule, v, s) && Inv(v)
    ensures History(v, s.evs, s.after)
  {
    if Ran(rule, v, s) { PhaseHistory(rule, v, s.evs, s.after); }
  }

  function Seeds(log: ReplicateLog): seq<string>
    requires IsOrder(log.order, log.detect.after.Keys)
  {
    ScanSeeds(log.detect.after, log.order)
  }

  /** The six phases in a row, whether run or skipped. */
  ghost predicate Staged(log: ReplicateLog, replicas: nat, primaries: nat) {
    && Did(Detection, log.before, log.detect)
    && (if IsOrder(log.order, log.detect.after.Keys)
        then Did(Seeding(Seeds(log)), log.detect.after, log.seed) && (log.seed.evs != [] ==> Live(log.detect.after) == {})
        else Skipped(log.detect.after, log.seed))
    && Did(Promotion(primaries), log.seed.after, log.scale.promote)
    && Did(Demotion(primaries), log.scale.promote.after, log.scale.demote)
    && Did(Assistance(replicas), log.scale.demote.after, log.scale.assist)
    && Did(Cleanup, log.scale.assist.after, log.recover)
  }

  lemma PassIsStaged(log: ReplicateLog, replicas: nat, primaries: nat, clean: bool)
    requires ReplicatePass(log, replicas, primaries, clean)
    ensures Staged(log, replicas, primaries)
  {
  }

  /** The pass as one lawful history. */
  lemma ReplicateHistory(log: ReplicateLog, replicas: nat, primaries: nat)
    requires Staged(log, replicas, primaries) && Inv(log.before)
    ensures History(log.before, log.Events(), log.recover.after)
    ensures Inv(log.detect.after) && Inv(log.seed.after) && Inv(log.scale.promote.after)
    ensures Inv(log.scale.demote.after) && Inv(log.scale.assist.after)
  {
    var d, s, p, m, a, r := log.detect, log.seed, log.scale.promote, log.scale.demote, log.scale.assist, log.recover;
    DidHistory(Detection, log.before, d);
    if IsOrder(log.order, d.after.Keys) {
      DidHistory(Seeding(Seeds(log)), d.after, s);
    }
    DidHistory(Promotion(primaries), s.after, p);
    DidHistory(Demotion(primaries), p.after, m);
    DidHistory(Assistance(replicas), m.after, a);
    DidHistory(Cleanup, a.after, r);
    HistoryConcat(log.before, d.evs, d.after, s.evs, s.after);
    HistoryConcat(log.before, d.evs + s.evs, s.after, p.evs, p.after);
    HistoryConcat(log.before, d.evs + s.evs + p.evs, p.after, m.evs, m.after);
    HistoryConcat(log.before, d.evs + s.evs + p.evs + m.evs, m.after, a.evs, a.after);
    HistoryConcat(log.before, d.evs + s.evs + p.evs + m.evs + a.evs, a.after, r.evs, r.after);
  }

  // ---- bootstrap safety ----

  ghost predicate NoPrimaryStart(evs: seq<Event>) {
    forall i | 0 <= i < |evs| :: !PrimaryStart(evs[i])
  }

  lemma BootstrapConcat(a: seq<Event>, b: seq<Event>, replicas: nat)
    requires (OneBootstrap(a) && NoneCold(b)) || (NoPrimaryStart(a) && OneBootstrap(b))
    ensures OneBootstrap(a + b)
    ensures ColdAtFull(a, replicas) && ColdAtFull(b, replicas) ==> ColdAtFull(a + b, replicas)
  {
    var all := a + b;
    forall i, j | 0 <= i < j < |all| && PrimaryStart(all[i]) && all[i].ok
      ensures !Cold(all[j])
    {
      if j >= |a| { assert all[j] == b[j - |a|]; }
      if i >= |a| { assert all[i] == b[i - |a|]; }
    }
  }

  lemma DidNotCold(rule: Rule, v: View, s: Stage)
    requires Did(rule, v, s) && !rule.Seeding?
    ensures NoneCold(s.evs)
    ensures !rule.Promotion? ==> NoPrimaryStart(s.evs)
  {
    forall i | 0 <= i < |s.evs|
      ensures !Cold(s.evs[i]) && (PrimaryStart(s.evs[i]) ==> rule.Promotion?)
    {
      assert Obeys(rule, i, s.evs[i]);
    }
  }

  /** The pass seeds only with exactly the wanted pods online. */
  lemma SeedsAtFull(log: ReplicateLog, replicas: nat, primaries: nat, clean: bool)
    requires ReplicatePass(log, replicas, primaries, clean)
    ensures ColdAtFull(log.seed.evs, replicas)
  {
    if !Waiting(log.before, replicas) && Live(log.detect.after) == {} {
      DetectKeepsCounts(log);
      forall k | 0 <= k < |log.seed.evs| ensures |Active(log.seed.evs[k].before)| == replicas {
        SeedingKeepsPods(Seeds(log), log.detect.after, log.seed.evs, log.seed.after, k);
      }
    }
  }

  /** In one pass: a primary start that finds no live primary happens only while
      exactly the wanted number of pods is online; and once a primary start has
      succeeded, no later primary start finds the cluster without a live primary. */
  lemma BootstrapSafety(log: ReplicateLog, replicas: nat, primaries: nat, clean: bool)
    requires ReplicatePass(log, replicas, primaries, clean) && Inv(log.before)
    ensures OneBootstrap(log.Events()) && ColdAtFull(log.Events(), replicas)
  {
    PassIsStaged(log, replicas, primaries, clean);
    SeedsAtFull(log, replicas, primaries, clean);
    StagesBootstrap(log, replicas, primaries);
  }

  lemma StagesBootstrap(log: ReplicateLog, replicas: nat, primaries: nat)
    requires Staged(log, replicas, primaries) && ColdAtFull(log.seed.evs, replicas)
    ensures OneBootstrap(log.Events()) && ColdAtFull(log.Events(), replicas)
  {
    var d, s, p, m, a, r := log.detect, log.seed, log.scale.promote, log.scale.demote, log.scale.assist, log.recover;
    DidNotCold(Detection, log.before, d);
    if s.evs != [] { SeedingFacts(Seeds(log), d.after, s.evs, s.after); }
    DidNotCold(Promotion(primaries), s.after, p);
    DidNotCold(Demotion(primaries), p.after, m);
    DidNotCold(Assistance(replicas), m.after, a);
    DidNotCold(Cleanup, a.after, r);
    BootstrapConcat(d.evs, s.evs, replicas);
    BootstrapConcat(d.evs + s.evs, p.evs, replicas);
    BootstrapConcat(d.evs + s.evs + p.evs, m.evs, replicas);
    BootstrapConcat(d.evs + s.evs + p.evs + m.evs, a.evs, replicas);
    BootstrapConcat(d.evs + s.evs + p.evs + m.evs + a.evs, r.evs, replicas);
  }

  lemma DetectKeepsCounts(log: ReplicateLog)
    requires Did(Detection, log.before, log.detect)
    ensures var v, w := log.before, log.detect.after;
      && Active(w) == Active(v) && Members(w) == Members(v) && Live(w) == Live(v)
      && Candidates(w) == Candidates(v) && Demotable(w) == Demotable(v) && (NoneFailed(v) ==> NoneFailed(w))
      && w.Keys == v.Keys && forall n | n in v :: w[n] == v[n].(sequence := w[n].sequence)
  {
    if Ran(Detection, log.before, log.detect) {
      DetectionFacts(log.before, log.detect.evs, log.detect.after);
      DetectionCounts(log.before, log.detect.evs, log.detect.after);
    }
  }

  lemma SeedingInOrder(v: View, order: seq<string>, s: Stage)
    requires SeedPass(v, order, s) && Live(v) == {}
    ensures Candidates(v) != {} <==> s.evs != []
    ensures s.evs != [] ==> PrimaryStart(s.evs[0]) && MostRecent(v, s.evs[0].target)
    ensures Live(s.after) == {} ==> forall n | MostRecent(v, n) :: StartFailed(s.evs, n)
  {
    var seeds := ScanSeeds(v, order);
    SeedsAreSound(v, order);
    SeedingCandidates(seeds, v, s.evs, s.after);
    if s.evs != [] { assert Obeys(Seeding(seeds), 0, s.evs[0]); }
    if Live(s.after) == {} { AllSeedsFailed(seeds, v, s.evs, s.after); }
  }

  ghost predicate StartFailed(evs: seq<Event>, n: string) {
    exists e :: e in evs && e.Started? && e.target == n && !e.ok
  }

  /** Without a live primary in the end, every seed that was tried has failed. */
  lemma AllSeedsFailed(seeds: seq<string>, v0: View, evs: seq<Event>, v: View)
    requires Phase(Seeding(seeds), v0, evs, v) && Live(v0) == {} && Live(v) == {}
    ensures forall i | 0 <= i < |evs| :: i < |seeds| && StartFailed(evs, seeds[i])
  {
    SeedingFacts(seeds, v0, evs, v);
    forall i | 0 <= i < |evs| ensures i < |seeds| && StartFailed(evs, seeds[i]) {
      assert Obeys(Seeding(seeds), i, evs[i]) && !Succeeded(evs[i]);
      assert evs[i] in evs;
    }
  }

  /** A pass that seeds sends its first start to a most recent candidate, and gives up
      only after every equally recent candidate has failed. */
  lemma SeedsMostRecentFirst(log: ReplicateLog, replicas: nat, primaries: nat, clean: bool)
    requires ReplicatePass(log, replicas, primaries, clean)
    requires Live(log.before) == {} && !Waiting(log.before, replicas)
    ensures var v := log.detect.after;
      && (Candidates(v) != {} <==> log.seed.evs != [])
      && (log.seed.evs != [] ==> PrimaryStart(log.seed.evs[0]) && MostRecent(v, log.seed.evs[0].target))
      && (Live(log.seed.after) == {} ==> forall n | MostRecent(v, n) :: StartFailed(log.seed.evs, n))
  {
    DetectKeepsCounts(log);
    SeedingInOrder(log.detect.after, log.order, log.seed);
  }

  // ---- the verdict ----

  /** An empty error list is a sound verdict: the wanted primaries are live, at least
      the wanted members run (exactly that many if there are no surplus pods), and
      every command after seeding succeeded.  A stopped cluster never gets it. */
  lemma VerdictIsSound(log: ReplicateLog, replicas: nat, primaries: nat)
    requires ReplicatePass(log, replicas, primaries, true) && Inv(log.before)
    ensures var v := log.recover.after;
      && replicas > 0 && |Live(v)| == primaries && |Members(v)| >= replicas
      && (|Active(v)| <= replicas ==> |Members(v)| == replicas)
    ensures AllOk(log.scale.promote.evs) && AllOk(log.scale.demote.evs) && AllOk(log.scale.assist.evs) && log.recover.evs == []
  {
    PassIsStaged(log, replicas, primaries, true);
    ReplicateHistory(log, replicas, primaries);
    DetectKeepsCounts(log);
    CountOrder(log.before);
    CountOrder(log.recover.after);
    DemotionFacts(primaries, log.scale.promote.after, log.scale.demote.evs, log.scale.demote.after);
    if log.scale.demoted { AssistFacts(replicas, log.scale.demote.after, log.scale.assist.evs, log.scale.assist.after); }
    if replicas == 0 { StoppedNeverSeeds(log, primaries, true); }
  }

  /** With zero replicas the pass never gets past seeding. */
  lemma StoppedNeverSeeds(log: ReplicateLog, primaries: nat, clean: bool)
    requires ReplicatePass(log, 0, primaries, clean) && Inv(log.before)
    ensures !clean && log.seed.evs == []
  {
    CountOrder(log.before);
    if !Waiting(log.before, 0) {
      DetectKeepsCounts(log);
      SeedsMostRecentFirst(log, 0, primaries, clean);
      assert Candidates(log.detect.after) <= Active(log.detect.after);
    }
  }

  lemma RecoveryFacts(v0: View, order: seq<string>, s: Stage)
    requires RecoverPass(v0, order, s)
    ensures s.after.Keys == v0.Keys && forall n | n in v0 :: RecoveredTo(v0[n], s.after[n]) && Answered(v0[n], s.after[n], n, s.evs)
    ensures CleanUpTo(order, |order|, v0, s.after) <==> forall n | n in v0 :: CleanedUp(v0[n], s.after[n])
    ensures NoneFailed(v0) ==> s.evs == [] && s.after == v0
  {
    forall n | n in v0
      ensures exists j | 0 <= j < |order| :: order[j] == n
    {
      assert n in order;
    }
    if s.evs != [] {
      LeadsPrefix(v0, s.evs, s.after, 0);
      assert Obeys(Cleanup, 0, s.evs[0]);
    }
  }

  // ---- failure containment ----

  /** A stopped primary does not become healthy again within the demotion phase. */
  lemma {:induction false} DemotableShrinks(primaries: nat, v0: View, evs: seq<Event>, v: View)
    requires Phase(Demotion(primaries), v0, evs, v) && Inv(v0)
    ensures Inv(v) && Demotable(v) <= Demotable(v0)
    ensures evs != [] ==> Demotable(v) != Demotable(v0)
    ensures v.Keys == v0.Keys && forall n | n in Demotable(v) :: v[n] == v0[n]
  {
    if evs != [] {
      var k := |evs| - 1;
      var e := evs[k];
      PhaseInit(Demotion(primaries), v0, evs, v);
      DemotableShrinks(primaries, v0, evs[..k], e.before);
      DemoteStep(e);
      EffectSound(e);
      assert e.target in Demotable(v0) && e.target !in Demotable(v);
    }
  }

  /** Healthy primaries are left as they were. */
  ghost predicate SparesHealthy(v: View, w: View) {
    w.Keys == v.Keys && forall n | n in Demotable(v) :: w[n] == v[n]
  }

  lemma TouchSpares(v: View, w: View)
    requires OnlyCandidatesTouched(v, w)
    ensures SparesHealthy(v, w)
  {
  }

  /** Seeding and promotion spare the healthy primaries. */
  lemma StartsSpare(log: ReplicateLog, replicas: nat, primaries: nat)
    requires Staged(log, replicas, primaries)
    ensures SparesHealthy(log.detect.after, log.seed.after) && SparesHealthy(log.seed.after, log.scale.promote.after)
  {
    var d, s, p := log.detect, log.seed, log.scale.promote;
    if s.evs != [] {
      SeedingCandidates(Seeds(log), d.after, s.evs, s.after);
      TouchSpares(d.after, s.after);
    }
    if Ran(Promotion(primaries), s.after, p) {
      PromotionFacts(primaries, s.after, p.evs, p.after);
      TouchSpares(s.after, p.after);
    }
  }

  /** Up to demotion, the healthy primaries of the table before are left as they were,
      but for their sequence numbers. */
  lemma HeadContains(log: ReplicateLog, replicas: nat, primaries: nat)
    requires Staged(log, replicas, primaries)
    ensures log.scale.promote.after.Keys == log.before.Keys
    ensures forall n | n in Demotable(log.before) ::
      var t := log.scale.promote.after[n]; t == log.before[n].(sequence := t.sequence)
  {
    DetectKeepsCounts(log);
    StartsSpare(log, replicas, primaries);
  }

  /** The healthy primaries of `v` are those of `w`, record for record. */
  ghost predicate SameHealthy(v: View, w: View) {
    v.Keys == w.Keys && Demotable(w) == Demotable(v) && forall n | n in Demotable(v) :: w[n] == v[n]
  }

  lemma AssistKeepsHealthy(target: nat, v: View, evs: seq<Event>, w: View)
    requires Phase(Assistance(target), v, evs, w) && Inv(v) && Inv(w)
    ensures SameHealthy(v, w)
  {
    AssistFacts(target, v, evs, w);
    forall n | n in Demotable(w) ensures n in Demotable(v) {
      assert Sound(w[n]);
      assert n in Live(v);
    }
  }

  lemma RecoverKeepsHealthy(v: View, order: seq<string>, s: Stage)
    requires RecoverPass(v, order, s)
    ensures SameHealthy(v, s.after)
  {
    RecoveryFacts(v, order, s);
    forall n | n in Demotable(s.after) ensures n in Demotable(v) {
      assert RecoveredTo(v[n], s.after[n]);
    }
  }

  /** After demotion the healthy primaries are exactly preserved, even by recovery. */
  lemma TailContains(log: ReplicateLog, replicas: nat, primaries: nat)
    requires Staged(log, replicas, primaries) && Inv(log.before)
    requires Skipped(log.scale.assist.after, log.recover) || RecoverPass(log.scale.assist.after, log.recoverOrder, log.recover)
    ensures SameHealthy(log.scale.demote.after, log.recover.after)
  {
    ReplicateHistory(log, replicas, primaries);
    if Ran(Assistance(replicas), log.scale.demote.after, log.scale.assist) {
      AssistKeepsHealthy(replicas, log.scale.demote.after, log.scale.assist.evs, log.scale.assist.after);
    }
    if !Skipped(log.scale.assist.after, log.recover) {
      RecoverKeepsHealthy(log.scale.assist.after, log.recoverOrder, log.recover);
    }
  }

  /** Every healthy primary of the table before is still a healthy primary after. */
  ghost predicate Contained(log: ReplicateLog) {
    forall n | n in Demotable(log.before) :: n in Demotable(log.recover.after)
  }

  lemma DidDemote(primaries: nat, v: View, s: Stage)
    requires Did(Demotion(primaries), v, s) && Inv(v)
    ensures s.after.Keys == v.Keys && Demotable(s.after) <= Demotable(v)
    ensures forall n | n in Demotable(s.after) :: s.after[n] == v[n]
    ensures |Live(v)| <= primaries ==> s.after == v
  {
    if Ran(Demotion(primaries), v, s) {
      DemotionFacts(primaries, v, s.evs, s.after);
      DemotableShrinks(primaries, v, s.evs, s.after);
    }
  }

  /** With a healthy primary there is no seeding, so promotion starts from the same primaries. */
  lemma HealthySkipsSeeding(log: ReplicateLog, replicas: nat, primaries: nat)
    requires Staged(log, replicas, primaries) && Inv(log.before) && Demotable(log.before) != {}
    ensures log.seed.after == log.detect.after && Live(log.seed.after) == Live(log.before)
    ensures |Live(log.before)| <= primaries ==> |Live(log.scale.promote.after)| <= primaries
    ensures |Live(log.before)| > primaries ==> log.scale.promote.evs == [] && log.scale.promote.after == log.detect.after
  {
    DetectKeepsCounts(log);
    var n :| n in Demotable(log.before);
    assert Sound(log.before[n]) && n in Live(log.before);
    if Ran(Promotion(primaries), log.seed.after, log.scale.promote) {
      PromotionFacts(primaries, log.seed.after, log.scale.promote.evs, log.scale.promote.after);
    }
  }

  lemma ContainedWithoutSurplus(log: ReplicateLog, replicas: nat, primaries: nat)
    requires Staged(log, replicas, primaries) && Inv(log.before) && Demotable(log.before) != {}
    requires |Live(log.before)| <= primaries && SameHealthy(log.scale.demote.after, log.recover.after)
    ensures Contained(log)
  {
    ReplicateHistory(log, replicas, primaries);
    HealthySkipsSeeding(log, replicas, primaries);
    HeadContains(log, replicas, primaries);
    DidDemote(primaries, log.scale.promote.after, log.scale.demote);
  }

  lemma SurplusStops(v: View, s: Stage, primaries: nat, clean: bool)
    requires DemotePass(v, s, primaries, clean) && Inv(v) && |Live(v)| > primaries && Demotable(v) != {}
    ensures Demotable(s.after) < Demotable(v)
  {
    DemotableShrinks(primaries, v, s.evs, s.after);
  }

  /** With surplus primaries the demotion phase always stops one. */
  lemma SurplusIsDemoted(log: ReplicateLog, replicas: nat, primaries: nat, clean: bool)
    requires ReplicatePass(log, replicas, primaries, clean) && Staged(log, replicas, primaries) && Inv(log.before)
    requires !Waiting(log.before, replicas) && |Live(log.before)| > primaries && Demotable(log.before) != {}
    ensures Demotable(log.scale.demote.after) < Demotable(log.before)
  {
    ReplicateHistory(log, replicas, primaries);
    HealthySkipsSeeding(log, replicas, primaries);
    DetectKeepsCounts(log);
    SurplusStops(log.scale.promote.after, log.scale.demote, primaries, log.scale.demoted);
  }

  /** Failures of other members never cost a healthy primary its role, whatever the
      commands and the final recovery do: all survive the pass exactly when the pass
      waits, or there are no more live primaries than wanted. */
  lemma FailureContainment(log: ReplicateLog, replicas: nat, primaries: nat, clean: bool)
    requires ReplicatePass(log, replicas, primaries, clean) && Inv(log.before)
    requires Demotable(log.before) != {}
    ensures Contained(log) <==> Waiting(log.before, replicas) || |Live(log.before)| <= primaries
  {
    PassIsStaged(log, replicas, primaries, clean);
    if !Waiting(log.before, replicas) {
      TailContains(log, replicas, primaries);
      if |Live(log.before)| <= primaries {
        ContainedWithoutSurplus(log, replicas, primaries);
      } else {
        SurplusIsDemoted(log, replicas, primaries, clean);
      }
    }
  }

  /** A surviving healthy primary keeps everything but its sequence number. */
  lemma SurvivorsUnchanged(log: ReplicateLog, replicas: nat, primaries: nat, clean: bool, n: string)
    requires ReplicatePass(log, replicas, primaries, clean) && Inv(log.before)
    requires n in Demotable(log.before) && n in Demotable(log.recover.after)
    ensures log.recover.after[n] == log.before[n].(sequence := log.recover.after[n].sequence)
  {
    PassIsStaged(log, replicas, primaries, clean);
    TailContains(log, replicas, primaries);
    ReplicateHistory(log, replicas, primaries);
    HeadContains(log, replicas, primaries);
    DidDemote(primaries, log.scale.promote.after, log.scale.demote);
  }
}
