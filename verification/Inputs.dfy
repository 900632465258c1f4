/** pkg/cluster/cluster.go, run and handleUpdateEvent: what each input of the main loop
    may do to the size of the StatefulSet, the phase and the recorded restore size. */
module Inputs {
  import opened Views
  import opened Passes
  import Witnesses
  import opened Runs
  import opened Status

  /** What a poll found: the names of the running pods and the number of pending ones. */
  datatype Poll = PollFailed | Polled(running: seq<string>, pending: nat)

  /** An update event carries some copy of the status along with the new spec. */
  datatype Input = Modify(spec: Spec, carried: Snapshot) | Tick(poll: Poll) | Stop

  /** `restore` is the restore size in the operator's own status, `stored` the one the
      API server holds. */
  datatype Control = Control(spec: Spec, size: nat, phase: ClusterPhase, restore: int, stored: int)

  /** isSpecEqual: only these three settings are acted upon. */
  predicate IsSpecEqual(a: Spec, b: Spec) {
    a.NumReplicas() == b.NumReplicas() && a.paused == b.paused && a.NumPrimaries() == b.NumPrimaries()
  }

  /** The tick goes on to the members. */
  predicate Proceeds(s: Spec, poll: Poll) {
    !s.paused && poll.Polled? && poll.pending == 0
  }

  /** All wanted pods, and there are some, are running. */
  predicate FullPoll(s: Spec, poll: Poll) {
    Proceeds(s, poll) && poll.running != [] && |poll.running| == s.NumReplicas()
  }

  /** The polled pods as brand-new records. */
  ghost function PodView(pods: seq<string>): View {
    map n | n in pods :: NEW_POD
  }

  /** A StatefulSet of size `a.size` is wanted at size `n`: an empty one stays empty, and
      the cluster is paused, while that is below `floor`. */
  ghost predicate Resized(a: Control, n: nat, floor: int, b: Control) {
    if n == a.size then b.size == a.size && b.phase == a.phase
    else if a.size == 0 && n < floor then b.size == a.size && b.phase == Paused
    else b.size == n && b.phase == if a.phase == Paused then Running else a.phase
  }

  /** An update of the spec, carrying the restore size `floor`.  If an API call fails the
      cluster fails, too. */
  ghost predicate UpdateStep(a: Control, spec: Spec, floor: int, b: Control) {
    if IsSpecEqual(spec, a.spec) then b.size == a.size && b.phase == a.phase
    else Resized(a, spec.NumReplicas(), floor, b) || (b.size == a.size && b.phase == Failed)
  }

  ghost predicate ControlStep(a: Control, input: Input, b: Control) {
    && (b.stored == a.stored || b.stored == a.restore || b.stored == b.restore)
    && match input
       case Stop => b == a
       case Modify(spec, carried) =>
         b.spec == spec && b.restore == a.restore && UpdateStep(a, spec, carried.restoreReplicas, b)
       case Tick(poll) =>
         && b.spec == a.spec && b.size == a.size && b.phase == a.phase
         && b.restore == if FullPoll(a.spec, poll) then |poll.running| else a.restore
  }

  /** The round that an input calls for. */
  ghost predicate RoundFor(s: Spec, input: Input, r: Round) {
    if input.Tick? && Proceeds(s, input.poll) then
      var pods := input.poll.running;
      if pods == [] then r.Cleared? && (r.e.Forget? <==> s.NumReplicas() == 0)
      else (r.Reconciled? || r.Replicated? || r.Retried?) && r.spec == s && r.first.pods == PodView(pods)
    else r.Idle?
  }

  /** The loop ends on Stop, after a failed update, or inside a pass that never returns. */
  ghost predicate Over(input: Input, r: Round, b: Control) {
    input.Stop? || r.Hung() || b.phase == Failed
  }

  ghost predicate StepHolds(a: Control, input: Input, r: Round, b: Control) {
    ControlStep(a, input, b) && RoundFor(a.spec, input, r)
  }

  /** Inputs are taken one by one, each by its own round, up to one that ends the loop. */
  ghost predicate Served(inputs: seq<Input>, rounds: seq<Round>, controls: seq<Control>) {
    && |controls| == |rounds| + 1 && |rounds| <= |inputs|
    && (forall i | 0 <= i < |rounds| :: StepHolds(controls[i], inputs[i], rounds[i], controls[i + 1]))
    && (forall i | 0 <= i < |rounds| - 1 :: !Over(inputs[i], rounds[i], controls[i + 1]))
  }

  lemma ServedStep(inputs: seq<Input>, rounds: seq<Round>, controls: seq<Control>, r: Round, b: Control)
    requires |controls| == |rounds| + 1 && |rounds| < |inputs|
    requires rounds != [] ==> !Over(inputs[|rounds| - 1], rounds[|rounds| - 1], controls[|rounds|])
    ensures Served(inputs, rounds, controls) && StepHolds(controls[|rounds|], inputs[|rounds|], r, b) ==>
      Served(inputs, rounds + [r], controls + [b])
  {
  }

  // ---- scaling up from zero ----

  /** A full poll, and nothing else, sets the restore size. */
  lemma RestoreStep(inputs: seq<Input>, rounds: seq<Round>, controls: seq<Control>, i: nat)
    requires Served(inputs, rounds, controls) && i < |rounds|
    ensures controls[i + 1].restore == if FullAt(inputs, controls, i) then controls[i].spec.NumReplicas() else controls[i].restore
  {
    assert StepHolds(controls[i], inputs[i], rounds[i], controls[i + 1]);
  }

  /** Over every run: the restore size is the initial one, or the size at the latest poll
      that found all wanted pods running. */
  lemma {:induction false} RestoreIsLastFull(inputs: seq<Input>, rounds: seq<Round>, controls: seq<Control>, i: nat)
    requires Served(inputs, rounds, controls) && i <= |rounds|
    ensures
      || (controls[i].restore == controls[0].restore && NoFullPoll(inputs, controls, 0, i))
      || exists k | 0 <= k < i :: LastFull(inputs, controls, k, i)
  {
    if i > 0 {
      RestoreIsLastFull(inputs, rounds, controls, i - 1);
      var a, input := controls[i - 1], inputs[i - 1];
      assert StepHolds(a, input, rounds[i - 1], controls[i - 1 + 1]);
      if FullAt(inputs, controls, i - 1) {
        assert LastFull(inputs, controls, i - 1, i);
      } else {
        var j := i - 1;
        if k :| 0 <= k < j && LastFull(inputs, controls, k, j) {
          assert LastFull(inputs, controls, k, i);
        }
      }
    }
  }

  /** Input `k` is a tick, not paused, whose poll succeeded, found nothing pending and
      exactly the wanted number of pods, and some, running. */
  ghost predicate FullAt(inputs: seq<Input>, controls: seq<Control>, k: nat) {
    && k < |inputs| && k < |controls| && inputs[k].Tick? && !controls[k].spec.paused
    && inputs[k].poll.Polled? && inputs[k].poll.pending == 0
    && |inputs[k].poll.running| == controls[k].spec.NumReplicas() > 0
  }

  ghost predicate NoFullPoll(inputs: seq<Input>, controls: seq<Control>, from: nat, to: nat) {
    forall k | from <= k < to :: !FullAt(inputs, controls, k)
  }

  /** Poll number `k` was the last full one before input `i`, and set the restore size. */
  ghost predicate LastFull(inputs: seq<Input>, controls: seq<Control>, k: nat, i: nat) {
    && FullAt(inputs, controls, k) && i < |controls|
    && controls[i].restore == controls[k].spec.NumReplicas() && NoFullPoll(inputs, controls, k + 1, i)
  }

  /** What the API server holds was once the restore size, if it was so initially. */
  lemma {:induction false} StoredWasRestore(inputs: seq<Input>, rounds: seq<Round>, controls: seq<Control>, i: nat)
    requires Served(inputs, rounds, controls) && controls[0].stored == controls[0].restore && i <= |rounds|
    ensures exists j | 0 <= j <= i :: controls[j].restore == controls[i].stored
  {
    if i > 0 {
      StoredWasRestore(inputs, rounds, controls, i - 1);
      assert StepHolds(controls[i - 1], inputs[i - 1], rounds[i - 1], controls[i - 1 + 1]);
    } else {
      assert controls[0].restore == controls[i].stored;
    }
  }

  /** Scale-from-zero safety over every run.  The StatefulSet leaves size zero only by an
      update, to the size that update wants, which is at least the restore size it
      carries.  If events carry the stored status, that is at least some earlier full
      size (or the initial restore size). */
  lemma ScaleFromZero(inputs: seq<Input>, rounds: seq<Round>, controls: seq<Control>, i: nat)
    requires Served(inputs, rounds, controls) && i < |rounds|
    requires controls[0].stored == controls[0].restore
    requires controls[i].size == 0 && controls[i + 1].size > 0
    ensures inputs[i].Modify? && controls[i + 1].size == inputs[i].spec.NumReplicas() >= inputs[i].carried.restoreReplicas
    ensures inputs[i].carried.restoreReplicas == controls[i].stored ==>
      exists j | 0 <= j <= i :: controls[j].restore <= controls[i + 1].size && controls[j].restore == controls[i].stored
  {
    assert StepHolds(controls[i], inputs[i], rounds[i], controls[i + 1]);
    StoredWasRestore(inputs, rounds, controls, i);
  }

  /** The guard trusts the copy of the status in the event.  An empty StatefulSet can be
      restarted below the last full size exactly when an update asks for such a size and
      carries a restore size no larger than that. */
  lemma UnsafeRise(a: Control, spec: Spec, carried: Snapshot)
    requires a.size == 0
    ensures (exists b: Control :: ControlStep(a, Modify(spec, carried), b) && 0 < b.size < a.restore)
       <==> !IsSpecEqual(spec, a.spec) && 0 < spec.NumReplicas() < a.restore
            && carried.restoreReplicas <= spec.NumReplicas()
  {
    var n := spec.NumReplicas();
    if !IsSpecEqual(spec, a.spec) && 0 < n < a.restore && carried.restoreReplicas <= n {
      var b := Control(spec, n, if a.phase == Paused then Running else a.phase, a.restore, a.stored);
      assert ControlStep(a, Modify(spec, carried), b);
    }
  }

  /** Over every run: if the update carries the status that the API server holds, a restart
      below the last full size means that the write of that size was lost. */
  lemma LowRiseNeedsLostWrite(inputs: seq<Input>, rounds: seq<Round>, controls: seq<Control>, i: nat)
    requires Served(inputs, rounds, controls) && i < |rounds|
    requires controls[i].size == 0 && 0 < controls[i + 1].size < controls[i].restore
    requires inputs[i].Modify? ==> inputs[i].carried.restoreReplicas == controls[i].stored
    ensures inputs[i].Modify? && controls[i].stored < controls[i].restore
  {
    assert StepHolds(controls[i], inputs[i], rounds[i], controls[i + 1]);
  }

  /** One more update, carrying the stored status, extends the run from `v0` to `v` and
      restarts the cluster below the last full size. */
  ghost predicate LowRise(inputs: seq<Input>, rounds: seq<Round>, controls: seq<Control>, v0: View, v: View,
                          spec: Spec, carried: Snapshot, r: Round, b: Control)
    requires controls != []
  {
    var a := controls[|controls| - 1];
    && carried.restoreReplicas == a.stored && 0 < b.size < a.restore
    && Served(inputs + [Modify(spec, carried)], rounds + [r], controls + [b]) && RunHolds(v0, rounds + [r], v)
  }

  lemma SomeLowRise(inputs: seq<Input>, rounds: seq<Round>, controls: seq<Control>, v0: View, v: View)
    returns (spec: Spec, carried: Snapshot, b: Control)
    requires Served(inputs, rounds, controls) && |rounds| == |inputs| && RunHolds(v0, rounds, v)
    requires rounds != [] ==> !Over(inputs[|rounds| - 1], rounds[|rounds| - 1], controls[|rounds|])
    requires var a := controls[|rounds|]; a.size == 0 && 3 < a.restore && a.stored < a.restore
    ensures LowRise(inputs, rounds, controls, v0, v, spec, carried, Idle(v), b)
  {
    var k := |rounds|;
    var a := controls[k];
    var n := if a.stored > 3 then a.stored else 3;
    spec := Spec(Some(n), None, !a.spec.paused, map[]);
    carried := Snapshot(Running, false, [], 0, a.stored);
    b := Control(spec, n, if a.phase == Paused then Running else a.phase, a.restore, a.stored);
    assert StepHolds(a, Modify(spec, carried), Idle(v), b);
    var more := inputs + [Modify(spec, carried)];
    assert forall i | 0 <= i < k :: more[i] == inputs[i];
    ServedStep(more, rounds, controls, Idle(v), b);
    IdleRound(v);
    RunStep(v0, rounds, Idle(v), v);
  }

  lemma LowRiseSizes(inputs: seq<Input>, rounds: seq<Round>, controls: seq<Control>, v0: View, v: View,
                     spec: Spec, carried: Snapshot, r: Round, b: Control)
    requires |rounds| == |inputs| == |controls| - 1 && controls[|rounds|].size == 0
    requires LowRise(inputs, rounds, controls, v0, v, spec, carried, r, b)
    ensures 3 < controls[|rounds|].restore && controls[|rounds|].stored < controls[|rounds|].restore
  {
    var k := |rounds|;
    var more, rs, cs := inputs + [Modify(spec, carried)], rounds + [r], controls + [b];
    assert StepHolds(cs[k], more[k], rs[k], cs[k + 1]);
  }

  /** And that is exact: after any run that has left the StatefulSet empty, some update that
      carries the stored status restarts it below the last full size if and only if a
      size of at least three and at least the stored restore size is below the last full
      size. */
  lemma LowRiseExact(inputs: seq<Input>, rounds: seq<Round>, controls: seq<Control>, v0: View, v: View)
    requires Served(inputs, rounds, controls) && |rounds| == |inputs| && RunHolds(v0, rounds, v)
    requires rounds != [] ==> !Over(inputs[|rounds| - 1], rounds[|rounds| - 1], controls[|rounds|])
    requires controls[|rounds|].size == 0
    ensures (exists spec, carried, r, b :: LowRise(inputs, rounds, controls, v0, v, spec, carried, r, b))
       <==> 3 < controls[|rounds|].restore && controls[|rounds|].stored < controls[|rounds|].restore
  {
    var a := controls[|rounds|];
    if 3 < a.restore && a.stored < a.restore {
      var spec, carried, b := SomeLowRise(inputs, rounds, controls, v0, v);
      assert LowRise(inputs, rounds, controls, v0, v, spec, carried, Idle(v), b);
    }
    forall spec, carried, r, b | LowRise(inputs, rounds, controls, v0, v, spec, carried, r, b)
      ensures 3 < a.restore && a.stored < a.restore
    {
      LowRiseSizes(inputs, rounds, controls, v0, v, spec, carried, r, b);
    }
  }

  /** The five pods come up, but every probe fails at first; then nothing else happens. */
  lemma FiveBroken(spec: Spec, pods: seq<string>) returns (rounds: seq<Round>, v: View)
    requires pods != []
    ensures |rounds| == 4 && RunHolds(map[], rounds, v)
    ensures rounds[0].Idle? && rounds[2].Idle? && rounds[3].Idle?
    ensures rounds[1].Reconciled? && rounds[1].spec == spec && rounds[1].first.pods == PodView(pods)
  {
    assert pods[0] in PodView(pods);
    var first := Witnesses.UncleanReconcile(PodView(pods), spec.UsesSecondaries());
    var none, r := Idle(map[]), Reconciled(spec, first);
    v := first.check.recover.after;
    IdleRound(map[]);
    ReconciledRound(spec, first, false);
    IdleRound(v);
    RunStep(map[], [], none, map[]);
    RunStep(map[], [] + [none], r, v);
    RunStep(map[], [] + [none] + [r], Idle(v), v);
    RunStep(map[], [] + [none] + [r] + [Idle(v)], Idle(v), v);
    rounds := [] + [none] + [r] + [Idle(v)] + [Idle(v)];
  }

  /** For instance: a cluster of three is scaled to five, all five run, but the write of
      the restore size is lost.  It is stopped, and then restarted with three, although
      every update carried the stored status. */
  lemma LostWriteUnderminesGuard(commands: map<string, seq<string>>)
    returns (inputs: seq<Input>, rounds: seq<Round>, controls: seq<Control>, v: View)
    ensures Served(inputs, rounds, controls) && |rounds| == |inputs| == 4 && RunHolds(map[], rounds, v)
    ensures controls[0].stored == controls[0].restore
    ensures forall i | 0 <= i < 4 && inputs[i].Modify? :: inputs[i].carried.restoreReplicas == controls[i].stored
    ensures controls[3].size == 0 && 0 < controls[4].size < controls[3].restore
  {
    var zero := Spec(Some(0), None, false, commands);
    var three, five := zero.(replicas := Some(3)), zero.(replicas := Some(5));
    var carried := Snapshot(Running, false, [], 3, 3);
    var pods := ["a", "b", "c", "d", "e"];
    inputs := [Modify(five, carried), Tick(Polled(pods, 0)), Modify(zero, carried), Modify(three, carried)];
    rounds, v := FiveBroken(five, pods);
    controls := [Control(three, 3, Running, 3, 3), Control(five, 5, Running, 3, 3), Control(five, 5, Running, 5, 3),
                 Control(zero, 0, Running, 5, 3), Control(three, 3, Running, 5, 3)];
    assert StepHolds(controls[0], inputs[0], rounds[0], controls[1]);
    assert StepHolds(controls[1], inputs[1], rounds[1], controls[2]);
    assert StepHolds(controls[2], inputs[2], rounds[2], controls[3]);
    assert StepHolds(controls[3], inputs[3], rounds[3], controls[4]);
  }

  /** Over every run the cluster is paused only while its StatefulSet is empty. */
  lemma {:induction false} PausedMeansEmpty(inputs: seq<Input>, rounds: seq<Round>, controls: seq<Control>, i: nat)
    requires Served(inputs, rounds, controls) && controls[0].phase == Running && i <= |rounds|
    ensures controls[i].phase == Paused ==> controls[i].size == 0
  {
    if i > 0 {
      PausedMeansEmpty(inputs, rounds, controls, i - 1);
      assert StepHolds(controls[i - 1], inputs[i - 1], rounds[i - 1], controls[i - 1 + 1]);
    }
  }
}
