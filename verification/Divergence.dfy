/** The secondary loop of replicate.go may choose a member that already runs, and
    starting it again changes nothing.  Here is exactly when the loop can go on forever. */
module Divergence {
  import opened Views
  import opened Events
  import opened Selection
  import opened Phases

  /** One turn of the loop, for some map order and some outcome of the start. */
  ghost predicate CanStep(v: View, w: View, replicas: nat) {
    exists e: Event :: e.before == v && Obeys(Assistance(replicas), 0, e) && w == Effect(e)
  }

  ghost predicate EndlessRun(f: nat -> View, replicas: nat) {
    forall i: nat :: CanStep(f(i), f(i + 1), replicas)
  }

  ghost predicate HasRunningCandidate(v: View) {
    exists r :: r in Candidates(v) && v[r].running
  }

  /** Readable off the table before the loop: members are missing, and a start can be
      wasted on a running one, either now or after one more success. */
  ghost predicate MayDiverge(v: View, replicas: nat) {
    && |Members(v)| < replicas
    && (HasRunningCandidate(v) || (Candidates(v) != {} && |Members(v)| + 1 < replicas))
  }

  // ---- otherwise it ends ----

  /** Starts still possible: one per candidate, none once enough members run. */
  ghost function Remaining(v: View, replicas: nat): nat {
    if |Members(v)| < replicas then |Candidates(v)| else 0
  }

  lemma SafeStep(e: Event, replicas: nat, k: nat)
    requires Obeys(Assistance(replicas), k, e) && !MayDiverge(e.before, replicas)
    ensures !MayDiverge(Effect(e), replicas)
    ensures Remaining(Effect(e), replicas) < Remaining(e.before, replicas)
  {
    StartStep(e);
    var v, w := e.before, Effect(e);
    assert !v[e.target].running;
    if e.ok {
      assert |Members(w)| == |Members(v)| + 1 by { assert e.target !in Members(v); }
    } else {
      forall r | r in Candidates(w) ensures r in Candidates(v) && w[r] == v[r] {
      }
    }
  }

  lemma {:induction false} NoEndlessRun(f: nat -> View, replicas: nat, i: nat)
    requires EndlessRun(f, replicas) && !MayDiverge(f(0), replicas)
    ensures !MayDiverge(f(i), replicas) && Remaining(f(i), replicas) + i <= Remaining(f(0), replicas)
  {
    if i > 0 {
      NoEndlessRun(f, replicas, i - 1);
      assert CanStep(f(i - 1), f(i - 1 + 1), replicas);
      var e: Event :| e.before == f(i - 1) && Obeys(Assistance(replicas), 0, e) && f(i) == Effect(e);
      SafeStep(e, replicas, 0);
    }
  }

  /** The loop itself then ends within one start per candidate. */
  lemma {:induction false} EndsWithin(replicas: nat, v0: View, evs: seq<Event>, v: View)
    requires Phase(Assistance(replicas), v0, evs, v) && !MayDiverge(v0, replicas)
    ensures !MayDiverge(v, replicas) && |evs| + Remaining(v, replicas) <= Remaining(v0, replicas)
  {
    if evs != [] {
      var k := |evs| - 1;
      PhaseInit(Assistance(replicas), v0, evs, v);
      EndsWithin(replicas, v0, evs[..k], evs[k].before);
      SafeStep(evs[k], replicas, k);
    }
  }

  lemma NotCutShort(replicas: nat, v0: View, evs: seq<Event>, v: View)
    ensures Phase(Assistance(replicas), v0, evs, v) && |evs| > |v0| ==> MayDiverge(v0, replicas)
  {
    CountOrder(v0);
    if Phase(Assistance(replicas), v0, evs, v) && !MayDiverge(v0, replicas) {
      EndsWithin(replicas, v0, evs, v);
    }
  }

  // ---- and this is how it does not ----

  /** Some start the loop may issue next, once succeeding and once failing. */
  lemma SomeStart(v: View, replicas: nat) returns (good: Event, bad: Event)
    requires |Members(v)| < replicas && Candidates(v) != {}
    ensures good.Started? && good.ok && good.before == v && Obeys(Assistance(replicas), 0, good)
    ensures bad.Started? && !bad.ok && bad.before == v && Obeys(Assistance(replicas), 0, bad)
    ensures bad.target == good.target
  {
    var order := OrderExists(v.Keys);
    var hosts := OrderExists(Live(v));
    var c :| c in Candidates(v);
    assert c in order && IsCandidate(v[c]);
    var t := ScanMember(v, order).value;
    assert Choosable(v, t);
    good := Started(t, PrimaryCommand, false, hosts, true, v);
    bad := Started(t, PrimaryCommand, false, hosts, false, v);
  }

  function Prepend(v: View, g: nat -> View): nat -> View {
    (i: nat) => if i == 0 then v else g(i - 1)
  }

  lemma PrependRun(v: View, g: nat -> View, replicas: nat)
    requires EndlessRun(g, replicas) && CanStep(v, g(0), replicas)
    ensures EndlessRun(Prepend(v, g), replicas)
  {
    var f := Prepend(v, g);
    forall i: nat ensures CanStep(f(i), f(i + 1), replicas) {
      if i > 0 { assert CanStep(g(i - 1), g(i - 1 + 1), replicas); }
    }
  }

  /** With a running candidate: fail every idle member the scan picks, and once it
      picks a running one, succeed forever. */
  lemma {:induction false} StuckOnRunning(v: View, replicas: nat) returns (f: nat -> View)
    requires |Members(v)| < replicas && HasRunningCandidate(v)
    ensures f(0) == v && EndlessRun(f, replicas)
    decreases |Candidates(v)|
  {
    var good, bad := SomeStart(v, replicas);
    if v[good.target].running {
      assert Effect(good) == v;
      assert CanStep(v, v, replicas);
      f := (i: nat) => v;
    } else {
      StartStep(bad);
      var r :| r in Candidates(v) && v[r].running;
      var w := Effect(bad);
      assert r in Candidates(w) && w[r].running;
      var g := StuckOnRunning(w, replicas);
      assert CanStep(v, w, replicas);
      PrependRun(v, g, replicas);
      f := Prepend(v, g);
    }
  }

  lemma Diverges(v: View, replicas: nat) returns (f: nat -> View)
    requires MayDiverge(v, replicas)
    ensures f(0) == v && EndlessRun(f, replicas)
  {
    if HasRunningCandidate(v) {
      f := StuckOnRunning(v, replicas);
    } else {
      var e, _ := SomeStart(v, replicas);
      StartStep(e);
      var w := Effect(e);
      assert e.target in Candidates(w) && w[e.target].running;
      var g := StuckOnRunning(w, replicas);
      assert CanStep(v, w, replicas);
      PrependRun(v, g, replicas);
      f := Prepend(v, g);
    }
  }

  /** The secondary loop can run forever if and only if `MayDiverge` holds where it starts. */
  lemma DivergenceExact(v: View, replicas: nat)
    ensures (exists f: nat -> View :: f(0) == v && EndlessRun(f, replicas)) <==> MayDiverge(v, replicas)
  {
    if MayDiverge(v, replicas) {
      var f := Diverges(v, replicas);
    }
    forall f: nat -> View | f(0) == v && EndlessRun(f, replicas)
      ensures MayDiverge(v, replicas)
    {
      if !MayDiverge(v, replicas) {
        NoEndlessRun(f, replicas, Remaining(v, replicas) + 1);
      }
    }
  }

  /** For instance: a is the primary, b a running secondary, c is idle and three members
      are wanted.  Starting b again and again goes on forever. */
  lemma RestartingForever()
    ensures var v: View := map["a" := State(true, true, true, false, 0, 0), "b" := State(true, false, true, false, 0, 0), "c" := NEW_POD];
      exists f: nat -> View :: f(0) == v && EndlessRun(f, 3)
  {
    var v: View := map["a" := State(true, true, true, false, 0, 0), "b" := State(true, false, true, false, 0, 0), "c" := NEW_POD];
    assert Members(v) == {"a", "b"};
    assert "b" in Candidates(v) && v["b"].running;
    DivergenceExact(v, 3);
  }
}
