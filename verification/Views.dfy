/** Values the operator reasons about: snapshots of the member table, the
    counts it takes over them, and the spec that sets its targets. */
module Views {

  datatype Option<+T> = None | Some(value: T)

  /** One record of the member table without its name, which is the table key. */
  datatype State = State(online: bool, primary: bool, running: bool, failed: bool,
                         failures: nat, sequence: nat)

  type View = map<string, State>

  const NEW_POD := State(true, false, false, false, 0, 0)

  /** What a successful pod deletion, or a vanished pod, leaves of a record. */
  function Offlined(s: State): State {
    State(false, false, false, false, s.failures, 0)
  }

  /** The run invariant, record by record. */
  predicate Sound(s: State) {
    && (!s.online ==> !s.primary && !s.running && !s.failed && s.sequence == 0)
    && (s.primary ==> s.running)
  }

  ghost predicate Inv(v: View) {
    forall n | n in v :: Sound(v[n])
  }

  /** The names whose record satisfies `p`; the operator's counts are sizes of such sets. */
  function Where(v: View, p: State -> bool): set<string> {
    set n | n in v && p(v[n])
  }

  predicate IsActive(s: State) { s.online }

  predicate IsMember(s: State) { s.online && s.running }

  predicate IsLive(s: State) { s.online && s.primary && s.running }

  /** Members named on a command line; the test omits `running`. */
  predicate IsAdvertised(s: State) { s.online && s.primary }

  predicate IsCandidate(s: State) { s.online && !s.failed && !s.primary }

  predicate IsDemotable(s: State) { s.primary && !s.failed }

  function Active(v: View): set<string> { Where(v, IsActive) }

  function Members(v: View): set<string> { Where(v, IsMember) }

  function Live(v: View): set<string> { Where(v, IsLive) }

  function Candidates(v: View): set<string> { Where(v, IsCandidate) }

  function Demotable(v: View): set<string> { Where(v, IsDemotable) }

  ghost predicate NoneFailed(v: View) {
    forall n | n in v :: !v[n].failed
  }

  /** `order` visits every key exactly once: one possible Go map iteration. */
  ghost predicate IsOrder(order: seq<string>, keys: set<string>) {
    && (forall i, j | 0 <= i < j < |order| :: order[i] != order[j])
    && (forall n :: n in order <==> n in keys)
  }

  lemma SubsetSize<T>(a: set<T>, b: set<T>)
    requires a <= b
    ensures |a| <= |b|
    ensures |a| == |b| ==> a == b
  {
    assert |b| == |a| + |b - a| by { assert b == a + (b - a); }
  }

  lemma {:induction false} OrderSize(order: seq<string>, keys: set<string>)
    requires IsOrder(order, keys)
    ensures |order| == |keys|
  {
    if order == [] {
      assert keys == {};
    } else {
      var k := |order| - 1;
      var init := order[..k];
      assert order == init + [order[k]];
      OrderSize(init, keys - {order[k]});
    }
  }

  lemma OrderExtend(order: seq<string>, keys: set<string>, n: string)
    requires IsOrder(order, keys) && n !in keys
    ensures IsOrder(order + [n], keys + {n})
  {
  }

  lemma OrderPrepend(order: seq<string>, keys: set<string>, x: string)
    requires IsOrder(order, keys) && x !in keys
    ensures IsOrder([x] + order, keys + {x})
  {
  }

  /** Every key set has an iteration order. */
  lemma {:induction false} OrderExists(keys: set<string>) returns (order: seq<string>)
    ensures IsOrder(order, keys)
  {
    if keys == {} {
      order := [];
    } else {
      var n :| n in keys;
      var rest := OrderExists(keys - {n});
      OrderExtend(rest, keys - {n}, n);
      assert keys - {n} + {n} == keys;
      order := rest + [n];
    }
  }

  /** Inclusions the operator's arithmetic on counts relies on. */
  lemma CountOrder(v: View)
    ensures |Live(v)| <= |Members(v)| <= |Active(v)| <= |v|
    ensures |Candidates(v)| + |Live(v)| <= |Active(v)|
    ensures Inv(v) ==> Where(v, IsAdvertised) == Live(v)
    ensures Inv(v) && NoneFailed(v) ==> |Candidates(v)| + |Live(v)| == |Active(v)|
  {
    SubsetSize(Live(v), Members(v));
    SubsetSize(Members(v), Active(v));
    SubsetSize(Active(v), v.Keys);
    assert |v.Keys| == |v|;
    CandidatesAndLive(v);
  }

  lemma CandidatesAndLive(v: View)
    ensures |Candidates(v)| + |Live(v)| <= |Active(v)|
    ensures Inv(v) && NoneFailed(v) ==> |Candidates(v)| + |Live(v)| == |Active(v)|
  {
    var both := Candidates(v) + Live(v);
    assert |both| == |Candidates(v)| + |Live(v)| by { assert Candidates(v) !! Live(v); }
    SubsetSize(both, Active(v));
    if Inv(v) && NoneFailed(v) {
      assert both == Active(v);
    }
  }

  /** pkg/apis ClusterSpec, reduced to what drives replication. */
  datatype Spec = Spec(replicas: Option<int>, primaries: Option<int>, paused: bool,
                       commands: map<string, seq<string>>)
  {
    /** Zero, or a size that can form a quorum. */
    function NumReplicas(): (r: nat)
      ensures r == 0 || r >= 3
      ensures r == 0 <==> replicas.Some? && replicas.value <= 0
      ensures replicas.Some? && (replicas.value == 0 || replicas.value >= 3) ==> r == replicas.value
      ensures replicas.None? || 0 < replicas.value < 3 ==> r == 3
    {
      match replicas
      case None => 3
      case Some(n) => if n < 0 then 0 else if 0 < n < 3 then 3 else n
    }

    /** The target never exceeds the size, except that a negative request on a
        stopped cluster still asks for one primary. */
    function NumPrimaries(): (r: nat)
      ensures r <= NumReplicas() <==> !(NumReplicas() == 0 && primaries.Some? && primaries.value < 0)
      ensures r > NumReplicas() ==> r == 1
      ensures primaries.Some? && 0 <= primaries.value <= NumReplicas() ==> r == primaries.value
      ensures primaries.None? || primaries.value > NumReplicas() ==> r == NumReplicas()
      ensures primaries.Some? && primaries.value < 0 ==> r == 1
      ensures r == 0 ==> NumReplicas() == 0 || primaries == Some(0)
    {
      match primaries
      case None => NumReplicas()
      case Some(n) => if n < 0 then 1 else if n > NumReplicas() then NumReplicas() else n
    }

    predicate UsesSecondaries() { SECONDARY in commands }
  }

  /** For instance: a stopped cluster with a negative request still asks for a primary. */
  lemma OnePrimaryWhileStopped()
    ensures var s := Spec(Some(0), Some(-1), false, map[]); s.NumReplicas() == 0 && s.NumPrimaries() == 1
  {
  }

  /** The names of the sets the operator counts. */
  lemma Vocabulary(v: View)
    ensures forall n :: n in Active(v) <==> n in v && v[n].online
    ensures forall n :: n in Members(v) <==> n in v && v[n].online && v[n].running
    ensures forall n :: n in Live(v) <==> n in v && v[n].online && v[n].running && v[n].primary
    ensures forall n :: n in Candidates(v) <==> n in v && v[n].online && !v[n].failed && !v[n].primary
    ensures forall n :: n in Demotable(v) <==> n in v && v[n].primary && !v[n].failed
  {
  }

  /** The names of the commands. */
  lemma CommandKeys(s: Spec)
    ensures STATUS == "status" && SEQUENCE == "sequence" && STOP == "stop"
    ensures SEED == "seed" && PRIMARY == "primary" && SECONDARY == "secondary"
    ensures s.UsesSecondaries() <==> "secondary" in s.commands
  {
  }

  const STATUS := "status"
  const SEQUENCE := "sequence"
  const STOP := "stop"
  const SEED := "seed"
  const PRIMARY := "primary"
  const SECONDARY := "secondary"
}
