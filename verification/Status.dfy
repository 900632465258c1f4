/** pkg/apis/clusterlabs/v1alpha1/status.go: the status record and its condition list. */
module Status {
  datatype ClusterPhase = NoPhase | Creating | Running | Paused | Failed

  datatype Kind = Available | Recovering | Scaling | Upgrading

  /** The reason and message texts the operator writes. */
  datatype Reason = ScalingUp | ScalingDown | DisasterRecovery | ClusterAvailable | ClusterUpgrading

  datatype Message = NoMessage | MajorityDown | SizeChange(from: nat, to: nat) | UpgradingTo(version: string)

  datatype ConditionStatus = True | False | Unknown

  datatype Condition = Condition(kind: Kind, status: ConditionStatus, updated: int, transitioned: int,
                                 reason: Reason, message: Message)

  /** newClusterCondition, as the operator uses it: the condition holds as of now. */
  function NewCondition(kind: Kind, reason: Reason, message: Message, now: int): Condition {
    Condition(kind, True, now, now, reason, message)
  }

  /** A copy of the status, as mirrored locally and as stored in the custom resource. */
  datatype Snapshot = Snapshot(phase: ClusterPhase, controlPaused: bool, conditions: seq<Condition>,
                               replicas: int, restoreReplicas: int)

  ghost predicate Distinct(cs: seq<Condition>) {
    forall i, j | 0 <= i < j < |cs| :: cs[i].kind != cs[j].kind
  }

  predicate Has(cs: seq<Condition>, k: Kind) {
    exists i | 0 <= i < |cs| :: cs[i].kind == k
  }

  /** Position of the first condition of kind `k`, or the length. */
  function Find(cs: seq<Condition>, k: Kind): (i: nat)
    ensures i <= |cs| && (i < |cs| ==> cs[i].kind == k) && forall j | 0 <= j < i :: cs[j].kind != k
  {
    if cs == [] || cs[0].kind == k then 0 else 1 + Find(cs[1..], k)
  }

  function Put(cs: seq<Condition>, c: Condition): seq<Condition> {
    var i := Find(cs, c.kind);
    if i == |cs| then cs + [c]
    else if cs[i].status == c.status && cs[i].reason == c.reason && cs[i].message == c.message then cs
    else cs[i := c]
  }

  function Drop(cs: seq<Condition>, k: Kind): seq<Condition> {
    var i := Find(cs, k);
    if i == |cs| then cs else cs[..i] + cs[i + 1..]
  }

  datatype Edit = Setting(c: Condition) | Clearing(k: Kind)

  function Touches(e: Edit): Kind {
    match e case Setting(c) => c.kind case Clearing(k) => k
  }

  function Apply(cs: seq<Condition>, e: Edit): seq<Condition> {
    match e case Setting(c) => Put(cs, c) case Clearing(k) => Drop(cs, k)
  }

  function ApplyAll(cs: seq<Condition>, edits: seq<Edit>): seq<Condition>
    decreases edits
  {
    if edits == [] then cs else ApplyAll(Apply(cs, edits[0]), edits[1..])
  }

  /** The conditions whose kind is outside `ks`, in order. */
  function Others(cs: seq<Condition>, ks: set<Kind>): seq<Condition> {
    if cs == [] then []
    else (if cs[0].kind in ks then [] else [cs[0]]) + Others(cs[1..], ks)
  }

  lemma {:induction false} OthersConcat(a: seq<Condition>, b: seq<Condition>, ks: set<Kind>)
    ensures Others(a + b, ks) == Others(a, ks) + Others(b, ks)
  {
    if a == [] {
      assert a + b == b;
    } else {
      assert (a + b)[1..] == a[1..] + b;
      OthersConcat(a[1..], b, ks);
    }
  }

  lemma OthersAround(a: seq<Condition>, x: seq<Condition>, b: seq<Condition>, ks: set<Kind>)
    requires x == [] || (|x| == 1 && x[0].kind in ks)
    ensures Others(a + x + b, ks) == Others(a, ks) + Others(b, ks)
  {
    OthersConcat(a + x, b, ks);
    OthersConcat(a, x, ks);
  }

  lemma OthersUntouched(cs: seq<Condition>, e: Edit, ks: set<Kind>)
    requires Touches(e) in ks
    ensures Others(Apply(cs, e), ks) == Others(cs, ks)
  {
    var i := Find(cs, Touches(e));
    if i < |cs| {
      var a, b := cs[..i], cs[i + 1..];
      assert cs == a + [cs[i]] + b;
      OthersAround(a, [cs[i]], b, ks);
      match e {
        case Setting(c) =>
          assert cs[i := c] == a + [c] + b;
          OthersAround(a, [c], b, ks);
        case Clearing(_) =>
          OthersConcat(a, b, ks);
      }
    } else if e.Setting? {
      OthersConcat(cs, [e.c], ks);
    }
  }

  /** Any sequence of edits keeps the kinds distinct, and keeps the conditions of
      every other kind with their contents and relative order. */
  lemma {:induction false} EditsKeepTheRest(cs: seq<Condition>, edits: seq<Edit>, ks: set<Kind>)
    requires Distinct(cs)
    requires forall i | 0 <= i < |edits| :: Touches(edits[i]) in ks
    ensures Distinct(ApplyAll(cs, edits))
    ensures Others(ApplyAll(cs, edits), ks) == Others(cs, ks)
    decreases edits
  {
    if edits != [] {
      OthersUntouched(cs, edits[0], ks);
      EditsKeepTheRest(Apply(cs, edits[0]), edits[1..], ks);
    }
  }

  lemma PutPresent(cs: seq<Condition>, c: Condition)
    ensures Has(Put(cs, c), c.kind)
  {
    assert Put(cs, c)[Find(cs, c.kind)].kind == c.kind;
  }

  /** Setting a condition changes its own entry only.  An entry with the same status, reason
      and message is kept as it is, with its old timestamps; any other is replaced. */
  lemma PutExact(cs: seq<Condition>, c: Condition, i: nat)
    requires Distinct(cs) && i < |cs|
    ensures |Put(cs, c)| >= |cs|
    ensures Put(cs, c)[i] ==
      if cs[i].kind == c.kind && (cs[i].status != c.status || cs[i].reason != c.reason || cs[i].message != c.message)
      then c else cs[i]
    ensures cs[i].kind == c.kind ==> |Put(cs, c)| == |cs|
  {
  }

  /** A kind that is not there yet is added at the end. */
  lemma PutNew(cs: seq<Condition>, c: Condition)
    requires !Has(cs, c.kind)
    ensures Put(cs, c) == cs + [c]
  {
  }

  /** What is said about a kind, by its entry. */
  ghost predicate Says(cs: seq<Condition>, kind: Kind, reason: Reason, message: Message) {
    exists i | 0 <= i < |cs| :: cs[i].kind == kind && cs[i].status == True && cs[i].reason == reason && cs[i].message == message
  }

  lemma PutSays(cs: seq<Condition>, kind: Kind, reason: Reason, message: Message, now: int)
    ensures Says(Put(cs, NewCondition(kind, reason, message, now)), kind, reason, message)
  {
    var c := NewCondition(kind, reason, message, now);
    var i := Find(cs, kind);
    assert Put(cs, c)[i].kind == kind;
  }

  /** What a reconcile reports: the two sizes and the direction while the pod count is off,
      else disaster recovery after errors, else availability. */
  lemma ReportedTexts(cs: seq<Condition>, active: nat, replicas: nat, clean: bool, now: int)
    ensures var after := ConditionsAfter(cs, active, replicas, clean, now);
      && (active > replicas ==> Says(after, Scaling, ScalingDown, SizeChange(active, replicas)))
      && (active < replicas ==> Says(after, Scaling, ScalingUp, SizeChange(active, replicas)))
      && (active == replicas && clean ==> Says(after, Available, ClusterAvailable, NoMessage))
      && (active == replicas && !clean ==> Says(after, Recovering, DisasterRecovery, MajorityDown))
  {
    PutSays(cs, Scaling, ScalingDown, SizeChange(active, replicas), now);
    PutSays(cs, Scaling, ScalingUp, SizeChange(active, replicas), now);
    PutSays(cs, Available, ClusterAvailable, NoMessage, now);
    PutSays(cs, Recovering, DisasterRecovery, MajorityDown, now);
    DropSays(Put(cs, NewCondition(Recovering, DisasterRecovery, MajorityDown, now)), Available, Recovering, DisasterRecovery, MajorityDown);
  }

  lemma DropSays(cs: seq<Condition>, k: Kind, kind: Kind, reason: Reason, message: Message)
    requires k != kind && Says(cs, kind, reason, message)
    ensures Says(Drop(cs, k), kind, reason, message)
  {
    var j :| 0 <= j < |cs| && cs[j].kind == kind && cs[j].status == True && cs[j].reason == reason && cs[j].message == message;
    var i, d := Find(cs, k), Drop(cs, k);
    if i < |cs| {
      var at := if j < i then j else j - 1;
      DropAt(cs, k, at);
      assert d[at] == cs[j];
    }
  }

  lemma DropAt(cs: seq<Condition>, k: Kind, j: nat)
    requires j < |Drop(cs, k)|
    ensures Drop(cs, k)[j] == if j < Find(cs, k) then cs[j] else cs[j + 1]
  {
  }

  /** Clearing removes one entry, so the kind is gone exactly when there was at most one. */
  lemma DropClears(cs: seq<Condition>, k: Kind)
    ensures !Has(Drop(cs, k), k) <==> forall j | Find(cs, k) < j < |cs| :: cs[j].kind != k
  {
    var i, d := Find(cs, k), Drop(cs, k);
    if Has(d, k) {
      var j :| 0 <= j < |d| && d[j].kind == k;
      DropAt(cs, k, j);
      assert i < j + 1 < |cs| && cs[j + 1].kind == k;
    } else {
      forall j | i < j < |cs| ensures cs[j].kind != k {
        DropAt(cs, k, j - 1);
        assert d[j - 1] == cs[j];
      }
    }
  }

  lemma DropKeeps(cs: seq<Condition>, k: Kind, other: Kind)
    requires k != other && Has(cs, other)
    ensures Has(Drop(cs, k), other)
  {
    var j :| 0 <= j < |cs| && cs[j].kind == other;
    var i, d := Find(cs, k), Drop(cs, k);
    if i < |cs| {
      var at := if j < i then j else j - 1;
      DropAt(cs, k, at);
      assert d[at] == cs[j];
    }
  }

  /** Recovering is set and Available cleared. */
  function Recover(cs: seq<Condition>, now: int): seq<Condition> {
    Drop(Put(cs, NewCondition(Recovering, DisasterRecovery, MajorityDown, now)),
         Available)
  }

  lemma RecoverExcludesAvailable(cs: seq<Condition>, now: int)
    ensures Has(Recover(cs, now), Recovering)
    ensures Distinct(cs) ==> Distinct(Recover(cs, now)) && !Has(Recover(cs, now), Available)
  {
    var c := NewCondition(Recovering, DisasterRecovery, MajorityDown, now);
    var mid := Put(cs, c);
    PutPresent(cs, c);
    DropKeeps(mid, Available, Recovering);
    if Distinct(cs) {
      PutDistinct(cs, c);
      DropDistinct(mid, Available);
      DropClears(mid, Available);
    }
  }

  /** The conditions a reconcile leaves: scaling while the pod count is off, else
      recovering after errors, else available. */
  function ConditionsAfter(cs: seq<Condition>, active: nat, replicas: nat, clean: bool, now: int): seq<Condition> {
    if active > replicas then Put(cs, NewCondition(Scaling, ScalingDown, SizeChange(active, replicas), now))
    else if active < replicas then Put(cs, NewCondition(Scaling, ScalingUp, SizeChange(active, replicas), now))
    else if !clean then Recover(cs, now)
    else Put(cs, NewCondition(Available, ClusterAvailable, NoMessage, now))
  }

  lemma PutDistinct(cs: seq<Condition>, c: Condition)
    requires Distinct(cs)
    ensures Distinct(Put(cs, c))
  {
  }

  lemma DropDistinct(cs: seq<Condition>, k: Kind)
    requires Distinct(cs)
    ensures Distinct(Drop(cs, k))
  {
  }

  /** Setting a scaling condition leaves the report on availability as it was. */
  lemma ScalingKeepsAvailable(cs: seq<Condition>, c: Condition)
    requires Distinct(cs) && c.kind == Scaling
    ensures Distinct(Put(cs, c)) && Has(Put(cs, c), Scaling) && (Has(Put(cs, c), Available) <==> Has(cs, Available))
  {
    PutDistinct(cs, c);
    PutPresent(cs, c);
    PutKeeps(cs, c, Available);
  }

  /** Reconciles keep the condition kinds distinct.  At the wanted size they report
      Available exactly when all is well; at another size they report scaling. */
  lemma ReportedHealth(cs: seq<Condition>, active: nat, replicas: nat, clean: bool, now: int)
    requires Distinct(cs)
    ensures Distinct(ConditionsAfter(cs, active, replicas, clean, now))
    ensures active == replicas ==> (Has(ConditionsAfter(cs, active, replicas, clean, now), Available) <==> clean)
    ensures active != replicas ==>
      var after := ConditionsAfter(cs, active, replicas, clean, now);
      Has(after, Scaling) && (Has(after, Available) <==> Has(cs, Available))
  {
    if active > replicas {
      ScalingKeepsAvailable(cs, NewCondition(Scaling, ScalingDown, SizeChange(active, replicas), now));
    } else if active < replicas {
      ScalingKeepsAvailable(cs, NewCondition(Scaling, ScalingUp, SizeChange(active, replicas), now));
    } else if clean {
      var c := NewCondition(Available, ClusterAvailable, NoMessage, now);
      PutDistinct(cs, c);
      PutPresent(cs, c);
    } else {
      RecoverExcludesAvailable(cs, now);
    }
  }

  lemma PutKeeps(cs: seq<Condition>, c: Condition, k: Kind)
    requires k != c.kind
    ensures Has(Put(cs, c), k) <==> Has(cs, k)
  {
    var after := Put(cs, c);
    if Has(cs, k) {
      var j :| 0 <= j < |cs| && cs[j].kind == k;
      assert after[j] == cs[j];
    }
    if Has(after, k) {
      var j :| 0 <= j < |after| && after[j].kind == k;
      assert j < |cs| && cs[j] == after[j];
    }
  }

  class ClusterStatus {
    var phase: ClusterPhase
    var controlPaused: bool
    var conditions: seq<Condition>
    var replicas: int
    var restoreReplicas: int

    constructor (s: Snapshot)
      ensures Value() == s
    {
      phase, controlPaused, conditions := s.phase, s.controlPaused, s.conditions;
      replicas, restoreReplicas := s.replicas, s.restoreReplicas;
    }

    function Value(): Snapshot
      reads this
    {
      Snapshot(phase, controlPaused, conditions, replicas, restoreReplicas)
    }

    method GetClusterCondition(k: Kind) returns (pos: int)
      ensures pos == if Find(conditions, k) == |conditions| then -1 else Find(conditions, k)
    {
      for i := 0 to |conditions|
        invariant forall j | 0 <= j < i :: conditions[j].kind != k
      {
        if conditions[i].kind == k { return i; }
      }
      return -1;
    }

    method SetClusterCondition(c: Condition)
      modifies this`conditions
      ensures conditions == Put(old(conditions), c)
    {
      var pos := GetClusterCondition(c.kind);
      if pos != -1 && conditions[pos].status == c.status
         && conditions[pos].reason == c.reason && conditions[pos].message == c.message {
        return;
      }
      if pos != -1 {
        conditions := conditions[pos := c];
      } else {
        conditions := conditions + [c];
      }
    }

    method ClearCondition(k: Kind)
      modifies this`conditions
      ensures conditions == Drop(old(conditions), k)
    {
      var pos := GetClusterCondition(k);
      if pos == -1 { return; }
      conditions := conditions[..pos] + conditions[pos + 1..];
    }

    method SetScalingUpCondition(from: nat, to: nat, now: int)
      modifies this`conditions
      ensures conditions == Put(old(conditions), NewCondition(Scaling, ScalingUp, SizeChange(from, to), now))
    {
      SetClusterCondition(NewCondition(Scaling, ScalingUp, SizeChange(from, to), now));
    }

    method SetScalingDownCondition(from: nat, to: nat, now: int)
      modifies this`conditions
      ensures conditions == Put(old(conditions), NewCondition(Scaling, ScalingDown, SizeChange(from, to), now))
    {
      SetClusterCondition(NewCondition(Scaling, ScalingDown, SizeChange(from, to), now));
    }

    method SetRecoveringCondition(now: int)
      modifies this`conditions
      ensures conditions == Recover(old(conditions), now)
    {
      SetClusterCondition(
        NewCondition(Recovering, DisasterRecovery, MajorityDown, now));
      ClearCondition(Available);
    }

    method SetReadyCondition(now: int)
      modifies this`conditions
      ensures conditions == Put(old(conditions), NewCondition(Available, ClusterAvailable, NoMessage, now))
    {
      SetClusterCondition(NewCondition(Available, ClusterAvailable, NoMessage, now));
    }
  }
}
