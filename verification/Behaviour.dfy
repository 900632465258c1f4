/** What passes, ticks and updates do, said in fields, counts and numbers only: no lemma
    here states its result through the definition that the operator's code is held to. */
module Behaviour {
  import opened Views
  import opened MemberSets
  import opened Events
  import opened Selection
  import opened Phases
  import opened Passes
  import opened Guarantees
  import opened Convergence
  import opened Runs
  import opened Status
  import opened Inputs

  // ---- the table over whole runs ----

  /** Over every run from the empty table, now and at every command: a member that is
      offline has no role, no failure and no sequence number, and a primary is running. */
  lemma RecordsOverRuns(rounds: seq<Round>, v: View, i: nat, n: string)
    requires RunHolds(map[], rounds, v)
    ensures n in v && !v[n].online ==> !v[n].primary && !v[n].running && !v[n].failed && v[n].sequence == 0
    ensures n in v && v[n].primary ==> v[n].running
    ensures i < |Trace(rounds)| && n in Trace(rounds)[i].before ==>
      var s := Trace(rounds)[i].before[n];
      && (!s.online ==> !s.primary && !s.running && !s.failed && s.sequence == 0)
      && (s.primary ==> s.running)
  {
    WholeRun(map[], rounds, v);
    if i < |Trace(rounds)| { RunInvariant(map[], Trace(rounds), v); }
  }

  // ---- what a probe makes of a record ----

  /** Of every reconcile, clean or not: each healthy online member was probed, and the
      flags it had when recovery began are those its exit code dictates; nobody else was
      changed by probing. */
  lemma ProbesByExitCode(v: View, c: CheckLog, secondaries: bool, clean: bool, n: string)
    requires CheckPass(v, c, secondaries, clean) && n in v
    ensures n in c.probe.after
    ensures v[n].online && !v[n].failed ==>
      exists e :: e in c.probe.evs && e.Probed? && e.target == n && FlagsAfter(v[n], c.probe.after[n], e.rc, secondaries)
    ensures !v[n].online || v[n].failed ==> c.probe.after[n] == v[n]
  {
    ProbeFacts(v, c, secondaries);
    if v[n].online && !v[n].failed {
      assert Heard(c.probe.evs, n, CodeOf(c, n), secondaries);
      var e :| e in c.probe.evs && e.Probed? && e.target == n && e.secondaries == secondaries
               && Code(e.rc, secondaries) == CodeOf(c, n);
      FlagsByCode(v[n], c.probe.after[n], e.rc, secondaries);
    }
  }

  /** The code recorded for a member comes from the exit code in the log: zero becomes
      eight exactly without a `secondary` command, everything else stays. */
  lemma CodeFromExit(v: View, c: CheckLog, secondaries: bool, clean: bool, n: string)
    requires CheckPass(v, c, secondaries, clean) && n in v && v[n].online && !v[n].failed
    ensures n in c.probeOrder && |c.codes| == |c.probeOrder|
    ensures exists e :: e in c.probe.evs && e.Probed? && e.target == n && CodeOf(c, n) == (if e.rc == 0 && !secondaries then 8 else e.rc)
  {
    ReconcileVerdict(v, c, secondaries, clean);
  }

  /** After a clean reconcile the flags of every healthy online member follow its code,
      which is one of three. */
  lemma CleanFlags(v: View, c: CheckLog, secondaries: bool, n: string)
    requires CheckPass(v, c, secondaries, true) && n in v && v[n].online && !v[n].failed
    ensures n in c.probeOrder && |c.codes| == |c.probeOrder| && n in c.recover.after
    ensures var t, code := c.recover.after[n], CodeOf(c, n);
      && (code == 0 || code == 7 || code == 8) && (t.primary <==> code == 8) && (t.running <==> code != 7)
      && t.online && !t.failed && t.failures == v[n].failures && t.sequence == v[n].sequence
  {
    ReconcileVerdict(v, c, secondaries, true);
    assert Settled(v[n], c.recover.after[n], CodeOf(c, n));
  }

  /** The record and the code of a member that does not make the pass report an error. */
  predicate NoComplaint(s: State, t: State, code: int) {
    if s.failed then s.failures <= 1 && !t.failed && t.failures == s.failures && !t.running && !t.primary && t.online == s.online
    else s.online ==> code == 0 || (code == 7 && !s.running) || (code == 8 && (s.primary || !s.running))
  }

  lemma NoComplaintExact(s: State, mid: State, t: State, code: int)
    requires ProbedTo(s, mid, code) && RecoveredTo(mid, t) && Sound(s)
    ensures NoComplaint(s, t, code) <==> (Probeable(s) ==> Quiet(s, code)) && CleanedUp(mid, t)
  {
  }

  /** The verdict, in numbers: no error is reported if and only if each healthy online
      member answered zero, or seven and was not recorded as running, or eight and was
      recorded as a primary or as not running; and each failed one had at most one
      recorded failure and was stopped. */
  lemma VerdictByCode(v: View, c: CheckLog, secondaries: bool, clean: bool)
    requires CheckPass(v, c, secondaries, clean) && Inv(v)
    ensures c.recover.after.Keys == v.Keys && |c.codes| == |c.probeOrder| && forall n | n in v :: n in c.probeOrder
    ensures clean <==> forall n | n in v :: NoComplaint(v[n], c.recover.after[n], CodeOf(c, n))
  {
    ReconcileVerdict(v, c, secondaries, clean);
    ProbeFacts(v, c, secondaries);
    RecoveryFacts(c.probe.after, c.recoverOrder, c.recover);
    forall n | n in v
      ensures NoComplaint(v[n], c.recover.after[n], CodeOf(c, n)) <==> Settled(v[n], c.recover.after[n], CodeOf(c, n))
    {
      NoComplaintExact(v[n], c.probe.after[n], c.recover.after[n], CodeOf(c, n));
      SettledExact(v[n], c.probe.after[n], c.recover.after[n], CodeOf(c, n));
    }
  }

  // ---- what recovery makes of a record ----

  /** Recovery, record by record.  A healthy member is left alone.  A failed one with at
      most one recorded failure is sent a stop; if that fails, it has one more failure and
      its pod is deleted.  A failed one with two or more is sent a deletion. */
  lemma RecoveryByRecord(v: View, order: seq<string>, s: Stage, n: string)
    requires RecoverPass(v, order, s) && n in v
    ensures n in s.after && !v[n].failed ==> s.after[n] == v[n]
    ensures n in s.after && v[n].failed && v[n].failures <= 1 ==>
      var t := s.after[n];
      if t.failures == v[n].failures then
        StopSent(s.evs, n, true) && t == v[n].(primary := false, running := false, failed := false)
      else
        && StopSent(s.evs, n, false) && DeleteSent(s.evs, n, !t.failed)
        && t.failures == v[n].failures + 1 && Deletion(v[n].(failures := t.failures), t)
    ensures n in s.after && v[n].failed && v[n].failures >= 2 ==>
      DeleteSent(s.evs, n, !s.after[n].failed) && Deletion(v[n], s.after[n])
    ensures n in s.after
  {
    RecoveryFacts(v, order, s);
  }

  /** A deletion that fails leaves the record, one that succeeds takes it offline. */
  predicate Deletion(s: State, t: State) {
    if t.failed then t == s
    else !t.online && !t.primary && !t.running && t.failures == s.failures && t.sequence == 0
  }

  // ---- when a replicate pass acts ----

  /** With too many running members, or without a primary and with the wrong number of
      pods, a pass does nothing and reports an error. */
  lemma RefusesToAct(log: ReplicateLog, replicas: nat, primaries: nat, clean: bool)
    requires ReplicatePass(log, replicas, primaries, clean)
    requires |Members(log.before)| > replicas || (Live(log.before) == {} && |Active(log.before)| != replicas)
    ensures log.Events() == [] && log.recover.after == log.before && !clean
  {
  }

  /** Without a primary and with exactly the wanted pods, the first start, as a primary,
      goes to a most recent candidate, if there is one. */
  lemma SeedsIfItCan(log: ReplicateLog, replicas: nat, primaries: nat, clean: bool)
    requires ReplicatePass(log, replicas, primaries, clean)
    requires Live(log.before) == {} && |Active(log.before)| == replicas
    ensures log.seed.evs != [] <==> Candidates(log.before) != {}
    ensures log.seed.evs != [] ==>
      var e := log.seed.evs[0]; e.Started? && e.asPrimary && MostRecent(log.detect.after, e.target)
  {
    CountOrder(log.before);
    DetectKeepsCounts(log);
    SeedsMostRecentFirst(log, replicas, primaries, clean);
  }

  lemma NothingPromoted(v: View, s: Stage, primaries: nat, clean: bool)
    requires PromotePass(v, s, primaries, clean) && |Live(v)| >= primaries
    ensures s.evs == [] && s.after == v && clean
  {
    PromotionFacts(primaries, v, s.evs, s.after);
  }

  lemma NothingDemoted(v: View, s: Stage, primaries: nat, clean: bool)
    requires DemotePass(v, s, primaries, clean) && |Live(v)| <= primaries
    ensures s.evs == [] && s.after == v && clean
  {
    FirstObeys(Demotion(primaries), v, s);
  }

  lemma FirstObeys(rule: Rule, v: View, s: Stage)
    requires Ran(rule, v, s)
    ensures s.evs != [] ==> s.evs[0].before == v && Obeys(rule, 0, s.evs[0])
  {
    if s.evs != [] { LeadsPrefix(v, s.evs, s.after, 0); }
  }

  /** With more live primaries than wanted, and some healthy, one is stopped. */
  lemma DemotesIfItCan(log: ReplicateLog, replicas: nat, primaries: nat, clean: bool)
    requires ReplicatePass(log, replicas, primaries, clean) && |Members(log.before)| <= replicas
    requires |Live(log.before)| > primaries && Demotable(log.before) != {}
    ensures log.scale.promote.evs == [] && log.scale.demote.evs != []
  {
    DetectKeepsCounts(log);
    NothingPromoted(log.seed.after, log.scale.promote, primaries, log.scale.promoted);
  }

  /** With the wanted primaries live, too few members running and a candidate at hand, a
      secondary is started. */
  lemma AssistsIfItCan(log: ReplicateLog, replicas: nat, primaries: nat, clean: bool)
    requires ReplicatePass(log, replicas, primaries, clean)
    requires 0 < |Live(log.before)| == primaries && |Members(log.before)| < replicas && Candidates(log.before) != {}
    ensures log.scale.promote.evs == [] && log.scale.demote.evs == [] && log.scale.assist.evs != []
  {
    DetectKeepsCounts(log);
    NothingPromoted(log.seed.after, log.scale.promote, primaries, log.scale.promoted);
    NothingDemoted(log.scale.promote.after, log.scale.demote, primaries, log.scale.demoted);
  }

  /** Sequence numbers are asked for, of every online member, exactly when the number of
      live primaries or of running members is not the wanted one. */
  lemma AsksForSequences(log: ReplicateLog, replicas: nat, primaries: nat, clean: bool, n: string)
    requires ReplicatePass(log, replicas, primaries, clean) && n in log.before && log.before[n].online
    requires |Members(log.before)| <= replicas && (Live(log.before) != {} || |Active(log.before)| == replicas)
    ensures |Live(log.before)| == primaries && |Members(log.before)| == replicas ==> log.detect.evs == []
    ensures n in log.detect.after
    ensures |Live(log.before)| != primaries || |Members(log.before)| != replicas ==>
      exists e :: e in log.detect.evs && e.Sequenced? && e.target == n && log.detect.after[n] == log.before[n].(sequence := Reported(log.before[n].sequence, e.report))
  {
    if |Live(log.before)| != primaries || |Members(log.before)| != replicas {
      assert DetectedTo(log.before[n], log.detect.after[n], n, log.detect.evs);
    }
  }

  /** Every command of the three scaling phases: what it is, which counts allowed it, and
      whom it was sent to. */
  lemma ScalesByTheCounts(log: ReplicateLog, replicas: nat, primaries: nat, clean: bool, i: nat)
    requires ReplicatePass(log, replicas, primaries, clean)
    ensures i < |log.scale.promote.evs| ==>
      var e := log.scale.promote.evs[i];
      e.Started? && e.asPrimary && 0 < |Live(e.before)| < primaries && Choosable(e.before, e.target)
    ensures i < |log.scale.demote.evs| ==>
      var e := log.scale.demote.evs[i];
      e.Stopped? && |Live(e.before)| > primaries && LastNamed(e.target, Demotable(e.before))
    ensures i < |log.scale.assist.evs| ==>
      var e := log.scale.assist.evs[i];
      e.Started? && !e.asPrimary && |Members(e.before)| < replicas && Choosable(e.before, e.target)
  {
    PassIsStaged(log, replicas, primaries, clean);
    var p, d, a := log.scale.promote.evs, log.scale.demote.evs, log.scale.assist.evs;
    assert i < |p| ==> Obeys(Promotion(primaries), i, p[i]);
    assert i < |d| ==> Obeys(Demotion(primaries), i, d[i]);
    assert i < |a| ==> Obeys(Assistance(replicas), i, a[i]);
  }

  // ---- the verdict of a replicate pass ----

  predicate Refused(e: Event) { (e.Started? || e.Stopped? || e.Deleted?) && !e.ok }

  lemma {:induction false} AllOkExact(evs: seq<Event>)
    ensures AllOk(evs) <==> forall i | 0 <= i < |evs| :: !Refused(evs[i])
  {
    if evs != [] {
      var init := evs[..|evs| - 1];
      AllOkExact(init);
      assert evs == init + [evs[|evs| - 1]];
    }
  }

  /** A failed start, or too few primaries after promotion, ends the scaling: nobody is
      demoted and no secondary is started.  The same of demotion and secondaries. */
  lemma ErrorsEndScaling(log: ReplicateLog, replicas: nat, primaries: nat, clean: bool)
    requires ReplicatePass(log, replicas, primaries, clean)
    ensures (exists i | 0 <= i < |log.scale.promote.evs| :: Refused(log.scale.promote.evs[i])) ||
            |Live(log.scale.promote.after)| < primaries ==>
      log.scale.demote.evs == [] && log.scale.assist.evs == [] && !clean
    ensures (exists i | 0 <= i < |log.scale.demote.evs| :: Refused(log.scale.demote.evs[i])) ||
            |Live(log.scale.demote.after)| > primaries ==>
      log.scale.assist.evs == [] && !clean
  {
    AllOkExact(log.scale.promote.evs);
    AllOkExact(log.scale.demote.evs);
  }

  /** No command of the stage failed. */
  ghost predicate AllDone(s: Stage) {
    forall i | 0 <= i < |s.evs| :: !Refused(s.evs[i])
  }

  /** Scaling was complete: every command succeeded and every target was met. */
  ghost predicate Complete(s: ScaleLog, replicas: nat, primaries: nat) {
    && AllDone(s.promote) && |Live(s.promote.after)| >= primaries
    && AllDone(s.demote) && |Live(s.demote.after)| <= primaries
    && AllDone(s.assist) && |Members(s.assist.after)| >= replicas
  }

  lemma ScaledExact(v: View, s: ScaleLog, replicas: nat, primaries: nat)
    requires ScalePass(v, s, replicas, primaries) && s.done
    ensures s.scaled <==> Complete(s, replicas, primaries)
  {
    AllOkExact(s.promote.evs);
    AllOkExact(s.demote.evs);
    AllOkExact(s.assist.evs);
  }

  /** The verdict of replicate is exact: a pass that returns reports no error if and only
      if it did not refuse to start, there was a live primary after seeding, and scaling
      was complete.  If it reports one after scaling, every failed member is dealt with
      (see RecoveryByRecord), and otherwise recovery sends nothing. */
  lemma ReplicateVerdict(log: ReplicateLog, replicas: nat, primaries: nat, clean: bool)
    requires ReplicatePass(log, replicas, primaries, clean) && Inv(log.before) && log.scale.done
    ensures clean <==>
      && |Members(log.before)| <= replicas && (Live(log.before) != {} || |Active(log.before)| == replicas)
      && Live(log.seed.after) != {} && Complete(log.scale, replicas, primaries)
    ensures clean || Live(log.seed.after) == {} ==> log.recover.evs == []
    ensures !clean && Live(log.seed.after) != {} && |Members(log.before)| <= replicas
            && (Live(log.before) != {} || |Active(log.before)| == replicas) ==>
      RecoverPass(log.scale.assist.after, log.recoverOrder, log.recover)
  {
    if Live(log.seed.after) != {} && !Waiting(log.before, replicas) {
      ScaledExact(log.seed.after, log.scale, replicas, primaries);
      if replicas == 0 { StoppedIsUnclean(log, primaries, clean); }
    }
  }

  lemma StoppedIsUnclean(log: ReplicateLog, primaries: nat, clean: bool)
    requires ReplicatePass(log, 0, primaries, clean) && Inv(log.before) && Live(log.seed.after) != {}
    ensures Waiting(log.before, 0)
  {
    CountOrder(log.before);
    StoppedNeverSeeds(log, primaries, clean);
    DetectKeepsCounts(log);
  }

  // ---- rounds ----

  /** What the kind of a round says about it. */
  lemma RoundShape(r: Round, w: View)
    requires RoundHolds(r, w) && Inv(r.Start())
    ensures r.Replicated? && r.repl.scale.done ==>
      |Live(w)| == r.spec.NumPrimaries() && |Members(w)| >= r.spec.NumReplicas() > 0
    ensures r.Replicated? || r.Retried? ==>
      forall n | n in r.repl.before :: !r.repl.before[n].failed && (r.repl.before[n].online <==> n in r.first.pods)
    ensures r.Retried? ==> r.again.pods == r.first.pods && r.again.before == r.repl.recover.after
  {
    if r.Replicated? || r.Retried? {
      CleanReconcile(r.first, r.spec.UsesSecondaries());
      ReconcileHistory(r.first, r.spec.UsesSecondaries(), true);
      assert forall n | n in r.repl.before :: r.repl.before[n].online <==> n in Active(r.repl.before);
    }
    if r.Replicated? && r.repl.scale.done {
      VerdictIsSound(r.repl, r.spec.NumReplicas(), r.spec.NumPrimaries());
    }
  }

  // ---- inputs of the main loop ----

  /** An update, in numbers.  Nothing happens if size, pause and primaries stay the same.
      Otherwise, unless a call failed, the StatefulSet gets the wanted size and a pause
      ends; only an empty one whose wanted size is below the restore size carried by the
      event stays empty, and the cluster is paused. */
  lemma UpdateExactly(a: Control, spec: Spec, carried: Snapshot, b: Control)
    requires ControlStep(a, Modify(spec, carried), b)
    ensures b.spec == spec && b.restore == a.restore
    ensures spec.NumReplicas() == a.spec.NumReplicas() && spec.paused == a.spec.paused && spec.NumPrimaries() == a.spec.NumPrimaries() ==>
      b.size == a.size && b.phase == a.phase
    ensures (spec.NumReplicas() != a.spec.NumReplicas() || spec.paused != a.spec.paused || spec.NumPrimaries() != a.spec.NumPrimaries())
            && a.phase != Failed && b.phase != Failed ==>
      var n := spec.NumReplicas();
      if n == a.size then b.size == n && b.phase == a.phase
      else if a.size == 0 && n < carried.restoreReplicas then b.size == 0 && b.phase == Paused
      else b.size == n && b.phase == if a.phase == Paused then Running else a.phase
    ensures b.phase == Failed && a.phase != Failed ==> b.size == a.size
  {
  }

  /** In particular: whenever the wanted size of a running cluster changes, and no call
      fails, the StatefulSet gets that size. */
  lemma UpdateResizes(a: Control, spec: Spec, carried: Snapshot, b: Control)
    requires ControlStep(a, Modify(spec, carried), b) && a.phase != Failed && b.phase != Failed
    requires a.size > 0 && spec.NumReplicas() != a.spec.NumReplicas()
    ensures b.size == spec.NumReplicas()
  {
    UpdateExactly(a, spec, carried, b);
  }

  /** A tick, in numbers.  It does nothing if paused, if the poll failed or if pods are
      pending.  If nothing runs, the table is dropped, or taken offline if pods are
      wanted.  Otherwise the pods are reconciled as brand-new records.  The restore size
      is set exactly if all wanted pods, and some, are running. */
  lemma TickExactly(a: Control, poll: Poll, r: Round, b: Control)
    requires StepHolds(a, Tick(poll), r, b)
    ensures b.spec == a.spec && b.size == a.size && b.phase == a.phase
    ensures r.Idle? <==> a.spec.paused || poll.PollFailed? || poll.pending > 0
    ensures r.Cleared? <==> !a.spec.paused && poll.Polled? && poll.pending == 0 && poll.running == []
    ensures r.Cleared? ==> (r.e.Forget? <==> a.spec.NumReplicas() == 0)
    ensures !r.Idle? && !r.Cleared? ==>
      && r.spec == a.spec && (forall n :: n in r.first.pods <==> n in poll.running)
      && forall n | n in r.first.pods :: r.first.pods[n] == State(true, false, false, false, 0, 0)
    ensures b.restore ==
      if !a.spec.paused && poll.Polled? && poll.pending == 0 && |poll.running| == a.spec.NumReplicas() > 0
      then a.spec.NumReplicas() else a.restore
  {
  }

  /** Updates and stops touch no member. */
  lemma OnlyTicksAct(a: Control, input: Input, r: Round, b: Control)
    requires StepHolds(a, input, r, b) && !input.Tick?
    ensures r.Idle? && r.Events() == [] && b.restore == a.restore && (input.Stop? ==> b == a)
  {
  }

  /** The loop goes on exactly as long as nothing ends it: Stop, a failed update, or a pass
      that does not return. */
  lemma LoopGoesOn(inputs: seq<Input>, rounds: seq<Round>, controls: seq<Control>, i: nat)
    requires Served(inputs, rounds, controls) && i + 1 < |rounds|
    ensures !inputs[i].Stop? && controls[i + 1].phase != Failed && (rounds[i].Replicated? ==> rounds[i].repl.scale.done)
  {
    assert !Over(inputs[i], rounds[i], controls[i + 1]);
  }

  /** The last full poll, if any, gave the restore size, which is then positive. */
  lemma RestoreIsPositive(inputs: seq<Input>, rounds: seq<Round>, controls: seq<Control>, k: nat, i: nat)
    requires Served(inputs, rounds, controls) && LastFull(inputs, controls, k, i)
    ensures controls[i].restore == controls[k].spec.NumReplicas() > 0
  {
  }
}
