/** A reconcile that every table of blank pods admits: all probes fail, and all clean-up
    stops succeed.  It shows that the runs used as instances do exist. */
module Witnesses {
  import opened Views
  import opened MemberSets
  import opened Events
  import opened Phases
  import opened Passes

  const BROKEN: int := 1

  // ---- all probes fail ----

  lemma FailProbe(v: View, n: string, secondaries: bool) returns (evs: seq<Event>, w: View)
    requires Inv(v) && n in v && Probeable(v[n])
    ensures w == v[n := AfterProbe(v[n], BROKEN)] && Inv(w) && Phase(Probing, v, evs, w)
    ensures Visited(v[n], w[n], n, BROKEN, evs, secondaries)
  {
    var e := Probed(n, BROKEN, secondaries, v);
    OneCommand(Probing, e);
    evs, w := [e], Effect(e);
    assert e in evs;
  }

  lemma FailNext(v0: View, order: seq<string>, codes: seq<int>, evs: seq<Event>, v: View, secondaries: bool)
    returns (all: seq<Event>, w: View)
    requires IsOrder(order, v0.Keys) && |codes| < |order| && forall n | n in v0 :: Probeable(v0[n])
    requires Phase(Probing, v0, evs, v) && Inv(v) && ProbedUpTo(order, codes, v0, v, evs, secondaries)
    ensures Phase(Probing, v0, all, w) && Inv(w) && ProbedUpTo(order, codes + [BROKEN], v0, w, all, secondaries)
  {
    var n := order[|codes|];
    assert n in order;
    assert v[n] == v0[n];
    var more, next := FailProbe(v, n, secondaries);
    ProbeTurn(order, codes, v0, v, next[n], BROKEN, evs, more, secondaries);
    PhaseConcat(Probing, v0, evs, v, more, next);
    all, w := evs + more, next;
  }

  lemma {:induction false} FailProbes(v0: View, order: seq<string>, i: nat, secondaries: bool)
    returns (evs: seq<Event>, codes: seq<int>, v: View)
    requires Inv(v0) && IsOrder(order, v0.Keys) && i <= |order| && forall n | n in v0 :: Probeable(v0[n])
    ensures Phase(Probing, v0, evs, v) && Inv(v) && ProbedUpTo(order, codes, v0, v, evs, secondaries)
    ensures |codes| == i && forall j | 0 <= j < i :: codes[j] == BROKEN
  {
    if i == 0 {
      evs, codes, v := [], [], v0;
    } else {
      var before, some, w := FailProbes(v0, order, i - 1, secondaries);
      evs, v := FailNext(v0, order, some, before, w, secondaries);
      codes := some + [BROKEN];
    }
  }

  /** Every record is online and failed for the first time. */
  ghost predicate AllBroken(v: View) {
    forall n | n in v :: v[n].online && v[n].failed && v[n].failures <= 1
  }

  lemma ProbesBreak(v0: View, order: seq<string>, secondaries: bool) returns (codes: seq<int>, s: Stage)
    requires Inv(v0) && IsOrder(order, v0.Keys) && order != []
    requires forall n | n in v0 :: Probeable(v0[n]) && v0[n].failures <= 1
    ensures ProbePass(v0, order, codes, s, secondaries) && !QuietUpTo(order, codes, v0) && Inv(s.after) && AllBroken(s.after)
  {
    var evs, answers, v := FailProbes(v0, order, |order|, secondaries);
    codes, s := answers, Stage(evs, v);
    assert order[0] in order && codes[0] == BROKEN;
    forall n | n in v ensures v[n].online && v[n].failed && v[n].failures <= 1 {
      assert n in order;
      var j :| 0 <= j < |order| && order[j] == n;
      assert ProbedTo(v0[n], v[n], codes[j]);
    }
  }

  // ---- all stops succeed ----

  lemma StopBroken(v: View, n: string) returns (evs: seq<Event>, w: View)
    requires Inv(v) && n in v && v[n].online && v[n].failed && v[n].failures <= 1
    ensures w == v[n := AfterStop(v[n], true)] && Inv(w) && Phase(Cleanup, v, evs, w)
    ensures RecoveredTo(v[n], w[n]) && Answered(v[n], w[n], n, evs)
  {
    var e := Stopped(n, true, true, v);
    OneCommand(Cleanup, e);
    evs, w := [e], Effect(e);
    assert e in evs;
  }

  lemma StopNext(v0: View, order: seq<string>, i: nat, evs: seq<Event>, v: View) returns (all: seq<Event>, w: View)
    requires IsOrder(order, v0.Keys) && i < |order| && AllBroken(v0)
    requires Phase(Cleanup, v0, evs, v) && Inv(v) && RecoveredUpTo(order, i, v0, v, evs)
    ensures Phase(Cleanup, v0, all, w) && Inv(w) && RecoveredUpTo(order, i + 1, v0, w, all)
  {
    var n := order[i];
    assert n in order;
    assert v[n] == v0[n];
    var more, next := StopBroken(v, n);
    RecoverTurn(order, i, v0, v, next[n], evs, more);
    PhaseConcat(Cleanup, v0, evs, v, more, next);
    all, w := evs + more, next;
  }

  lemma {:induction false} StopAllBroken(v0: View, order: seq<string>, i: nat) returns (evs: seq<Event>, v: View)
    requires Inv(v0) && IsOrder(order, v0.Keys) && i <= |order| && AllBroken(v0)
    ensures Phase(Cleanup, v0, evs, v) && Inv(v) && RecoveredUpTo(order, i, v0, v, evs)
  {
    if i == 0 {
      evs, v := [], v0;
    } else {
      var before, w := StopAllBroken(v0, order, i - 1);
      evs, v := StopNext(v0, order, i - 1, before, w);
    }
  }

  /** From the empty table, some reconcile over any pods reports an error. */
  lemma UncleanReconcile(pods: View, secondaries: bool) returns (log: ReconcileLog)
    requires pods != map[] && forall n | n in pods :: pods[n] == NEW_POD
    ensures ReconcilePass(log, secondaries, false) && log.before == map[] && log.pods == pods
  {
    var none: View := map[];
    var synced := Merge(none, pods);
    assert synced == pods;
    assert Inv(synced);
    var order := OrderExists(synced.Keys);
    OrderSize(order, synced.Keys);
    var codes, probe := ProbesBreak(synced, order, secondaries);
    var evs, v := StopAllBroken(probe.after, order, |order|);
    log := ReconcileLog(pods, none, synced, CheckLog(order, codes, probe, order, Stage(evs, v)));
  }
}
