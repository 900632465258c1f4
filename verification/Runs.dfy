/** Whole runs of a cluster's main loop: rounds chained from the empty table on. */
module Runs {
  import opened Views
  import opened Events
  import opened Phases
  import opened Passes
  import opened Guarantees
  import opened Convergence

  /** What one turn of the main loop did to the member table. */
  datatype Round =
    | Idle(start: View)
    | Cleared(e: Event)
    | Reconciled(spec: Spec, first: ReconcileLog)
    | Replicated(spec: Spec, first: ReconcileLog, repl: ReplicateLog)
    | Retried(spec: Spec, first: ReconcileLog, repl: ReplicateLog, again: ReconcileLog)
  {
    function Start(): View {
      match this
      case Idle(v) => v
      case Cleared(e) => e.before
      case _ => first.before
    }

    /** The round did not return from its replicate pass. */
    predicate Hung() { Replicated? && !repl.scale.done }

    function Events(): seq<Event> {
      match this
      case Idle(_) => []
      case Cleared(e) => [e]
      case Reconciled(_, first) => first.Events()
      case Replicated(_, first, repl) => first.Events() + repl.Events()
      case Retried(_, first, repl, again) => first.Events() + repl.Events() + again.Events()
    }
  }

  /** Without running pods the table is dropped or taken offline; otherwise reconcile,
      then replicate if that was clean, then reconcile once more, with the same pod
      list, if replication was not. */
  ghost predicate RoundHolds(r: Round, w: View) {
    exists clean :: RoundWith(r, w, clean)
  }

  ghost predicate RoundWith(r: Round, w: View, clean: bool) {
    match r
    case Idle(v) => w == v
    case Cleared(e) => (e.Forget? || (e.Sync? && e.pods == map[])) && w == Effect(e)
    case Reconciled(spec, first) =>
      ReconcilePass(first, spec.UsesSecondaries(), false) && w == first.check.recover.after
    case Replicated(spec, first, repl) =>
      && ReconcilePass(first, spec.UsesSecondaries(), true)
      && repl.before == first.check.recover.after
      && ReplicatePass(repl, spec.NumReplicas(), spec.NumPrimaries(), repl.scale.done)
      && w == repl.recover.after
    case Retried(spec, first, repl, again) =>
      && ReconcilePass(first, spec.UsesSecondaries(), true)
      && repl.before == first.check.recover.after && repl.scale.done
      && ReplicatePass(repl, spec.NumReplicas(), spec.NumPrimaries(), false)
      && again.before == repl.recover.after && again.pods == first.pods
      && ReconcilePass(again, spec.UsesSecondaries(), clean)
      && w == again.check.recover.after
  }

  lemma IdleRound(v: View)
    ensures RoundHolds(Idle(v), v)
  {
    assert RoundWith(Idle(v), v, true);
  }

  lemma ClearedRound(e: Event)
    requires e.Forget? || (e.Sync? && e.pods == map[])
    ensures RoundHolds(Cleared(e), Effect(e))
  {
    assert RoundWith(Cleared(e), Effect(e), true);
  }

  lemma ReconciledRound(spec: Spec, first: ReconcileLog, clean: bool)
    requires !clean
    ensures Reconciled(spec, first).Start() == first.before
    ensures ReconcilePass(first, spec.UsesSecondaries(), clean) ==>
      RoundHolds(Reconciled(spec, first), first.check.recover.after)
  {
    if ReconcilePass(first, spec.UsesSecondaries(), clean) {
      assert RoundWith(Reconciled(spec, first), first.check.recover.after, clean);
    }
  }

  lemma ReplicatedRound(spec: Spec, first: ReconcileLog, repl: ReplicateLog)
    requires repl.before == first.check.recover.after
    ensures Replicated(spec, first, repl).Start() == first.before
    ensures (&& ReconcilePass(first, spec.UsesSecondaries(), true)
             && ReplicatePass(repl, spec.NumReplicas(), spec.NumPrimaries(), repl.scale.done)) ==>
      RoundHolds(Replicated(spec, first, repl), repl.recover.after)
  {
    if ReconcilePass(first, spec.UsesSecondaries(), true)
       && ReplicatePass(repl, spec.NumReplicas(), spec.NumPrimaries(), repl.scale.done) {
      assert RoundWith(Replicated(spec, first, repl), repl.recover.after, true);
    }
  }

  lemma RetriedRound(spec: Spec, first: ReconcileLog, repl: ReplicateLog, again: ReconcileLog, clean: bool)
    requires repl.before == first.check.recover.after && repl.scale.done
    requires again.before == repl.recover.after && again.pods == first.pods
    ensures Retried(spec, first, repl, again).Start() == first.before
    ensures (&& ReconcilePass(first, spec.UsesSecondaries(), true)
             && ReplicatePass(repl, spec.NumReplicas(), spec.NumPrimaries(), false)
             && ReconcilePass(again, spec.UsesSecondaries(), clean)) ==>
      RoundHolds(Retried(spec, first, repl, again), again.check.recover.after)
  {
    if ReconcilePass(first, spec.UsesSecondaries(), true)
       && ReplicatePass(repl, spec.NumReplicas(), spec.NumPrimaries(), false)
       && ReconcilePass(again, spec.UsesSecondaries(), clean) {
      assert RoundWith(Retried(spec, first, repl, again), again.check.recover.after, clean);
    }
  }

  lemma RoundHistory(r: Round, w: View)
    requires RoundHolds(r, w) && Inv(r.Start())
    ensures History(r.Start(), r.Events(), w)
  {
    match r {
      case Idle(v) =>
      case Cleared(e) =>
        EffectSound(e);
        LeadsStep(e.before, [], e.before, e);
        assert [] + [e] == [e];
      case Reconciled(spec, first) =>
        ReconcileHistory(first, spec.UsesSecondaries(), false);
      case Replicated(spec, first, repl) =>
        ReconcileHistory(first, spec.UsesSecondaries(), true);
        PassHistory(repl, spec.NumReplicas(), spec.NumPrimaries(), repl.scale.done);
        HistoryConcat(first.before, first.Events(), repl.before, repl.Events(), w);
      case Retried(spec, first, repl, again) =>
        ReconcileHistory(first, spec.UsesSecondaries(), true);
        PassHistory(repl, spec.NumReplicas(), spec.NumPrimaries(), false);
        var clean :| RoundWith(r, w, clean);
        HistoryConcat(first.before, first.Events(), repl.before, repl.Events(), again.before);
        ReconcileHistory(again, spec.UsesSecondaries(), clean);
        HistoryConcat(first.before, first.Events() + repl.Events(), again.before, again.Events(), w);
    }
  }

  lemma PassHistory(log: ReplicateLog, replicas: nat, primaries: nat, clean: bool)
    requires ReplicatePass(log, replicas, primaries, clean) && Inv(log.before)
    ensures History(log.before, log.Events(), log.recover.after)
  {
    PassIsStaged(log, replicas, primaries, clean);
    ReplicateHistory(log, replicas, primaries);
  }

  ghost predicate RunHolds(v0: View, rounds: seq<Round>, v: View) {
    if rounds == [] then v0 == v
    else
      var k := |rounds| - 1;
      RunHolds(v0, rounds[..k], rounds[k].Start()) && RoundHolds(rounds[k], v)
  }

  function Trace(rounds: seq<Round>): seq<Event> {
    if rounds == [] then [] else Trace(rounds[..|rounds| - 1]) + rounds[|rounds| - 1].Events()
  }

  lemma RunStep(v0: View, rounds: seq<Round>, r: Round, w: View)
    ensures RunHolds(v0, rounds, r.Start()) && RoundHolds(r, w) ==> RunHolds(v0, rounds + [r], w)
  {
    assert (rounds + [r])[..|rounds|] == rounds;
  }

  /** Only a replicate pass starts primaries. */
  lemma ReconcileStartsNobody(log: ReconcileLog, secondaries: bool, clean: bool)
    requires ReconcilePass(log, secondaries, clean)
    ensures NoPrimaryStart(log.Events())
  {
    var e, probe, recover := Sync(log.pods, log.before), log.check.probe.evs, log.check.recover.evs;
    DidNotCold(Probing, log.synced, log.check.probe);
    DidNotCold(Cleanup, log.check.probe.after, log.check.recover);
    NoStartConcat([e], probe);
    NoStartConcat([e] + probe, recover);
  }

  lemma NoStartConcat(a: seq<Event>, b: seq<Event>)
    requires NoPrimaryStart(a) && NoPrimaryStart(b)
    ensures NoPrimaryStart(a + b)
  {
  }

  ghost predicate SafeBootstrap(r: Round) {
    OneBootstrap(r.Events()) &&
    if r.Idle? || r.Cleared? then NoPrimaryStart(r.Events()) else ColdAtFull(r.Events(), r.spec.NumReplicas())
  }

  lemma RoundBootstrap(r: Round, w: View)
    requires RoundHolds(r, w) && Inv(r.Start())
    ensures SafeBootstrap(r)
  {
    if r.Reconciled? {
      ReconcileStartsNobody(r.first, r.spec.UsesSecondaries(), false);
    } else if r.Replicated? || r.Retried? {
      var clean := r.Replicated? && r.repl.scale.done;
      ReconcileStartsNobody(r.first, r.spec.UsesSecondaries(), true);
      ReconcileHistory(r.first, r.spec.UsesSecondaries(), true);
      BootstrapSafety(r.repl, r.spec.NumReplicas(), r.spec.NumPrimaries(), clean);
      BootstrapConcat(r.first.Events(), r.repl.Events(), r.spec.NumReplicas());
      if r.Retried? {
        var again :| RoundWith(r, w, again);
        ReconcileStartsNobody(r.again, r.spec.UsesSecondaries(), again);
        BootstrapConcat(r.first.Events() + r.repl.Events(), r.again.Events(), r.spec.NumReplicas());
      }
    }
  }

  /** Over every run, for any inputs, outcomes and map orders: the run invariant holds
      throughout and every command is lawful. */
  lemma {:induction false} WholeRun(v0: View, rounds: seq<Round>, v: View)
    requires RunHolds(v0, rounds, v) && Inv(v0)
    ensures History(v0, Trace(rounds), v)
  {
    if rounds != [] {
      var k := |rounds| - 1;
      var init, r := rounds[..k], rounds[k];
      WholeRun(v0, init, r.Start());
      RoundHistory(r, v);
      HistoryConcat(v0, Trace(init), r.Start(), r.Events(), v);
    }
  }

  /** Bootstrap safety over every run: in each round, a primary start that finds no live
      primary finds exactly the wanted pods online, and once a primary start of the round
      has succeeded no later one finds the cluster without a live primary. */
  lemma {:induction false} RunBootstrap(v0: View, rounds: seq<Round>, v: View, i: nat)
    requires RunHolds(v0, rounds, v) && Inv(v0) && i < |rounds|
    ensures SafeBootstrap(rounds[i])
  {
    var k := |rounds| - 1;
    var start := rounds[k].Start();
    if i == k {
      WholeRun(v0, rounds[..k], start);
      RoundBootstrap(rounds[k], v);
    } else {
      RunBootstrap(v0, rounds[..k], start, i);
    }
  }

  /** Every start command of every run: it goes to an online healthy member that is no
      primary, and its arguments name every live primary once and nobody else. */
  lemma RunStarts(v0: View, rounds: seq<Round>, v: View, i: nat)
    requires RunHolds(v0, rounds, v) && Inv(v0) && i < |Trace(rounds)| && Trace(rounds)[i].Started?
    ensures var e := Trace(rounds)[i];
      && e.target in Candidates(e.before) && e.target !in e.hosts
      && |e.hosts| == |Live(e.before)| && forall n :: n in e.hosts <==> n in Live(e.before)
  {
    WholeRun(v0, rounds, v);
    assert Lawful(Trace(rounds)[i]);
    StartHosts(Trace(rounds)[i]);
  }

  /** Escalation over every run from the empty table: Failures counts exactly the failed
      starts and stops since the table was last dropped; a pod is deleted only while
      failed and after at least one of them; after two, recovery stops trying to stop. */
  lemma RunEscalation(rounds: seq<Round>, v: View, trace: seq<Event>, i: nat)
    requires RunHolds(map[], rounds, v) && trace == Trace(rounds)
    ensures forall n | n in v :: v[n].failures == Strikes(trace, n)
    ensures i < |trace| && trace[i].Deleted? ==>
      var e := trace[i];
      e.target in e.before && e.before[e.target].failed && Strikes(trace[..i], e.target) >= 1
    ensures i < |trace| && trace[i].Stopped? && trace[i].cleanup ==> Strikes(trace[..i], trace[i].target) <= 1
  {
    WholeRun(map[], rounds, v);
    FailuresAreStrikes(trace, v);
    if i < |trace| { EscalationAt(trace, v, i); }
  }

  lemma EscalationAt(trace: seq<Event>, v: View, i: nat)
    requires Leads(map[], trace, v) && AllLawful(trace) && i < |trace|
    ensures trace[i].Deleted? ==>
      var e := trace[i];
      e.target in e.before && e.before[e.target].failed && Strikes(trace[..i], e.target) >= 1
    ensures trace[i].Stopped? && trace[i].cleanup ==> Strikes(trace[..i], trace[i].target) <= 1
  {
    assert Lawful(trace[i]);
    if IsCommand(trace[i]) { Escalation(trace, v, i, trace[i].target); }
  }

  ghost predicate PassesOver(r: Round, v: View) {
    && (r.Reconciled? || r.Replicated? || r.Retried?)
    && r.first.pods.Keys == Active(v)
    && forall n | n in Active(v) && n in r.first.check.probeOrder && |r.first.check.codes| == |r.first.check.probeOrder| ::
         CodeOf(r.first.check, n) == Expected(v[n])
  }

  /** Convergence and rest.  A replicate pass at full strength in which every command
      succeeds leaves a steady table; and as long as the same pods are polled and answer
      as recorded, the rounds that follow change no member and issue no command but
      probes. */
  lemma SteadyRound(r: Round, w: View)
    requires RoundHolds(r, w) && PassesOver(r, r.Start())
    requires Steady(r.Start(), r.spec.NumReplicas(), r.spec.NumPrimaries()) && r.spec.NumPrimaries() > 0
    ensures w == r.Start() && r.Replicated? && r.repl.scale.done && r.repl.Events() == []
    ensures r.first.check.recover.evs == []
  {
    var clean := !r.Reconciled?;
    ReconcileRests(r.first, r.spec.UsesSecondaries(), clean);
    var c := r.Replicated? && r.repl.scale.done;
    CountOrder(r.Start());
    ReplicateRests(r.repl, r.spec.NumReplicas(), r.spec.NumPrimaries(), c);
  }

  /** From any sound table: a round that polls exactly the wanted number of pods, whose
      first reconcile is clean, whose commands succeed and which returns ends steady. */
  lemma ConvergingRound(r: Round, w: View)
    requires RoundHolds(r, w) && Inv(r.Start()) && (r.Replicated? || r.Retried?) && !r.Hung()
    requires |r.first.pods| == r.spec.NumReplicas() > 0 && AllOk(r.repl.Events())
    ensures r.Replicated? && Steady(w, r.spec.NumReplicas(), r.spec.NumPrimaries())
  {
    CleanReconcile(r.first, r.spec.UsesSecondaries());
    ReconcileHistory(r.first, r.spec.UsesSecondaries(), true);
    assert |r.first.pods.Keys| == |r.first.pods|;
    ReplicateConverges(r.repl, r.spec.NumReplicas(), r.spec.NumPrimaries(), r.Replicated?);
  }

  // ---- self-stabilisation ----

  lemma PassHeals(log: ReconcileLog, secondaries: bool, clean: bool)
    requires ReconcilePass(log, secondaries, clean) && Inv(log.before) && AllOk(log.Events())
    ensures NoneFailed(log.check.recover.after) && Inv(log.check.recover.after)
  {
    AllOkConcat([Sync(log.pods, log.before)] + log.check.probe.evs, log.check.recover.evs);
    RecoveryHeals(log.check.probe.after, log.check.recoverOrder, log.check.recover);
    ReconcileHistory(log, secondaries, clean);
  }

  /** Whatever the poll and the probes say: a round with only successful commands leaves
      nobody failed. */
  lemma RoundHeals(r: Round, w: View)
    requires RoundHolds(r, w) && Inv(r.Start()) && !r.Idle? && !r.Cleared? && AllOk(r.Events())
    ensures NoneFailed(w) && Inv(w)
  {
    RoundHistory(r, w);
    if r.Reconciled? {
      PassHeals(r.first, r.spec.UsesSecondaries(), false);
    } else {
      var replicas, primaries := r.spec.NumReplicas(), r.spec.NumPrimaries();
      var early := r.first.Events() + r.repl.Events();
      if r.Retried? {
        AllOkConcat(early, r.again.Events());
        AllOkConcat(r.first.Events(), r.repl.Events());
        ReconcileHistory(r.first, r.spec.UsesSecondaries(), true);
        PassHistory(r.repl, replicas, primaries, false);
        var clean :| RoundWith(r, w, clean);
        PassHeals(r.again, r.spec.UsesSecondaries(), clean);
      } else {
        AllOkConcat(r.first.Events(), r.repl.Events());
        PassHeals(r.first, r.spec.UsesSecondaries(), true);
        ReplicateKeepsHealth(r.repl, replicas, primaries, r.repl.scale.done);
      }
    }
  }

  /** Everyone answers the first reconcile as the table, merged with the pods, has it. */
  ghost predicate AnswersAsRecorded(log: ReconcileLog) {
    forall n | n in Active(log.synced) && n in log.check.probeOrder && |log.check.codes| == |log.check.probeOrder| ::
      CodeOf(log.check, n) == Expected(log.synced[n])
  }

  /** Self-stabilisation.  From any sound table, whatever failures it records: after one
      round in which every command succeeds, whatever was polled and probed, one more such
      round that polls exactly the wanted number of pods, finds them as recorded and
      returns reaches the steady state. */
  lemma Stabilises(r: Round, mid: View, next: Round, w: View)
    requires RoundHolds(r, mid) && Inv(r.Start()) && !r.Idle? && !r.Cleared? && AllOk(r.Events())
    requires RoundHolds(next, w) && next.Start() == mid && !next.Idle? && !next.Cleared? && AllOk(next.Events())
    requires |next.first.pods| == next.spec.NumReplicas() > 0 && AnswersAsRecorded(next.first) && !next.Hung()
    ensures next.Replicated? && Steady(w, next.spec.NumReplicas(), next.spec.NumPrimaries())
  {
    RoundHeals(r, mid);
    QuietReconcile(next.first, next.spec.UsesSecondaries(), !next.Reconciled?);
    if next.Retried? {
      AllOkConcat(next.first.Events() + next.repl.Events(), next.again.Events());
    }
    AllOkConcat(next.first.Events(), next.repl.Events());
    ConvergingRound(next, w);
  }

  lemma QuietReconcile(log: ReconcileLog, secondaries: bool, clean: bool)
    requires ReconcilePass(log, secondaries, clean) && Inv(log.before) && NoneFailed(log.before) && AnswersAsRecorded(log)
    ensures clean
  {
    EffectSound(Sync(log.pods, log.before));
    assert NoneFailed(log.synced);
    CheckRests(log.synced, log.check, secondaries, clean);
  }
}
