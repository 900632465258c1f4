/** pkg/controller: the table of clusters the operator runs, and its counters. */
module Controllers {

  datatype Kind = Added | Modified | Deleted

  /** A watch event, with what the handler asks of its object: is its status failed, is
      its spec valid. */
  datatype Event = Event(kind: Kind, name: string, failed: bool, valid: bool)

  /** The names in the table and the counters.  `orphans` counts the entries dropped by
      deletions of failed clusters, which the gauge `total` does not notice. */
  datatype Ledger = Ledger(names: set<string>, created: nat, modified: nat, deleted: nat,
                           failed: nat, total: int, orphans: nat)

  const EMPTY := Ledger({}, 0, 0, 0, 0, 0, 0)

  /** The bookkeeping of one event, and whether it was accepted. */
  function Step(l: Ledger, e: Event): (Ledger, bool) {
    var known := e.name in l.names;
    if e.failed then
      var l' := l.(failed := l.failed + 1);
      if e.kind == Deleted then
        (l'.(names := l.names - {e.name}, orphans := l.orphans + if known then 1 else 0), true)
      else (l', false)
    else if !e.valid then (l, false)
    else match e.kind
      case Added =>
        if known then (l, false)
        else (l.(names := l.names + {e.name}, created := l.created + 1, total := l.total + 1), true)
      case Modified =>
        if known then (l.(modified := l.modified + 1), true) else (l, false)
      case Deleted =>
        if known then (l.(names := l.names - {e.name}, deleted := l.deleted + 1, total := l.total - 1), true)
        else (l, false)
  }

  /** When an event is accepted, and what it counts as. */
  lemma StepExactly(l: Ledger, e: Event)
    ensures var (r, ok) := Step(l, e);
      var known := e.name in l.names;
      && (ok <==> if e.failed then e.kind == Deleted else e.valid && (known <==> e.kind != Added))
      && r.names == (if ok && e.kind == Added then l.names + {e.name}
                     else if ok && e.kind == Deleted then l.names - {e.name} else l.names)
      && r.failed == l.failed + (if e.failed then 1 else 0)
      && r.created == l.created + (if ok && e.kind == Added then 1 else 0)
      && r.modified == l.modified + (if ok && e.kind == Modified then 1 else 0)
      && r.deleted == l.deleted + (if ok && e.kind == Deleted && !e.failed then 1 else 0)
      && r.total == l.total + (r.created - l.created) - (r.deleted - l.deleted)
  {
  }

  function Replay(l: Ledger, events: seq<Event>): Ledger
    decreases events
  {
    if events == [] then l else Replay(Step(l, events[0]).0, events[1..])
  }

  /** The gauge is creations minus deletions, and exceeds the table by the orphans. */
  predicate Balanced(l: Ledger) {
    l.created - l.deleted == l.total == |l.names| + l.orphans
  }

  lemma {:induction false} Conservation(l: Ledger, events: seq<Event>)
    requires Balanced(l)
    ensures Balanced(Replay(l, events))
    decreases events
  {
    if events != [] {
      var e := events[0];
      assert e.name in l.names ==> |l.names - {e.name}| == |l.names| - 1;
      assert e.name !in l.names ==> l.names - {e.name} == l.names && |l.names + {e.name}| == |l.names| + 1;
      Conservation(Step(l, e).0, events[1..]);
    }
  }

  /** The event deletes a failed cluster that is in the table. */
  predicate Orphaning(l: Ledger, e: Event) {
    e.failed && e.kind == Deleted && e.name in l.names
  }

  ghost predicate NeverOrphaning(l: Ledger, events: seq<Event>) {
    forall i | 0 <= i < |events| :: !Orphaning(Replay(l, events[..i]), events[i])
  }

  lemma ReplayFirst(l: Ledger, events: seq<Event>, i: nat)
    requires 0 < i <= |events|
    ensures Replay(l, events[..i]) == Replay(Step(l, events[0]).0, events[1..][..i - 1])
  {
    assert events[..i][1..] == events[1..][..i - 1];
  }

  lemma {:induction false} OrphansExact(l: Ledger, events: seq<Event>)
    ensures Replay(l, events).orphans >= l.orphans
    ensures Replay(l, events).orphans == l.orphans <==> NeverOrphaning(l, events)
    decreases events
  {
    if events != [] {
      var next, rest := Step(l, events[0]).0, events[1..];
      OrphansExact(next, rest);
      assert Replay(l, events[..0]) == l;
      forall i | 0 < i < |events|
        ensures Orphaning(Replay(l, events[..i]), events[i]) <==> Orphaning(Replay(next, rest[..i - 1]), rest[i - 1])
      {
        ReplayFirst(l, events, i);
      }
      if NeverOrphaning(l, events) {
        forall i | 0 <= i < |rest| ensures !Orphaning(Replay(next, rest[..i]), rest[i]) {
          assert !Orphaning(Replay(l, events[..i + 1]), events[i + 1]);
        }
      }
    }
  }

  /** The gauge ends up equal to the size of the table if and only if no event of the run
      deleted a failed cluster that was in the table. */
  lemma {:induction false} GaugeIsRight(l: Ledger, events: seq<Event>)
    requires Balanced(l) && l.orphans == 0
    ensures var r := Replay(l, events); r.total == |r.names| <==> NeverOrphaning(l, events)
  {
    Conservation(l, events);
    OrphansExact(l, events);
  }

  /** The shortest way to go wrong: a cluster is added, fails and is deleted. */
  lemma GaugeDrifts(l: Ledger, name: string)
    requires Balanced(l) && name !in l.names
    ensures var r := Replay(l, [Event(Added, name, false, true), Event(Deleted, name, true, true)]);
      r.names == l.names && r.total == l.total + 1
  {
    var add, drop := Event(Added, name, false, true), Event(Deleted, name, true, true);
    var added := Step(l, add).0;
    assert Replay(l, [add, drop]) == Replay(added, [drop]) by { assert [add, drop][1..] == [drop]; }
    assert Replay(added, [drop]) == Step(added, drop).0 by { assert [drop][1..] == []; }
    assert l.names + {name} - {name} == l.names;
  }

  /** A running cluster, by its stop channel, which must not be closed twice, and the
      updates it has been sent. */
  class Handle {
    var closed: bool
    var updates: seq<Event>

    constructor ()
      ensures !closed && updates == []
    {
      closed, updates := false, [];
    }

    method Delete()
      requires !closed
      modifies this`closed
      ensures closed
    {
      closed := true;
    }

    method Update(e: Event)
      modifies this`updates
      ensures updates == old(updates) + [e]
    {
      updates := updates + [e];
    }
  }

  class Controller {
    var clusters: map<string, Handle>
    var created: nat
    var modified: nat
    var deleted: nat
    var failed: nat
    var total: int
    ghost var orphans: nat

    /** One handle per name, shared by no other name and not yet closed. */
    ghost predicate Valid()
      reads this, clusters.Values
    {
      && (forall n | n in clusters :: !clusters[n].closed)
      && (forall m, n | m in clusters && n in clusters && m != n :: clusters[m] != clusters[n])
    }

    ghost function Books(): Ledger
      reads this
    {
      Ledger(clusters.Keys, created, modified, deleted, failed, total, orphans)
    }

    constructor ()
      ensures Valid() && Books() == EMPTY && Balanced(Books()) && clusters == map[]
    {
      clusters := map[];
      created, modified, deleted, failed, total, orphans := 0, 0, 0, 0, 0, 0;
    }

    /** Handles one event.  A handle is closed only when its cluster is deleted, which
        also drops it from the table, so no handle is ever closed twice. */
    method HandleClusterEvent(e: Event) returns (ok: bool)
      requires Valid()
      modifies this, clusters.Values
      ensures Valid() && (Books(), ok) == Step(old(Books()), e)
      ensures forall n | n in clusters && n != e.name :: n in old(clusters) && clusters[n] == old(clusters[n])
      ensures e.name in clusters && e.name in old(clusters) ==> clusters[e.name] == old(clusters[e.name])
      ensures e.name in clusters && e.name !in old(clusters) ==> fresh(clusters[e.name])
      ensures forall n | n in old(clusters) ::
        old(clusters)[n].closed <==> n == e.name && e.kind == Deleted && !e.failed && e.valid
      ensures forall n | n in old(clusters) ::
        old(clusters)[n].updates == old(clusters[n].updates) +
          if n == e.name && e.kind == Modified && !e.failed && e.valid then [e] else []
    {
      if e.failed {
        failed := failed + 1;
        if e.kind == Deleted {
          if e.name in clusters { orphans := orphans + 1; }
          clusters := clusters - {e.name};
          assert clusters.Keys == old(clusters.Keys) - {e.name};
          return true;
        }
        return false;
      }
      if !e.valid { return false; }
      match e.kind {
        case Added =>
          if e.name in clusters { return false; }
          var nc := new Handle();
          clusters := clusters[e.name := nc];
          assert clusters.Keys == old(clusters.Keys) + {e.name};
          created := created + 1;
          total := total + 1;
        case Modified =>
          if e.name !in clusters { return false; }
          clusters[e.name].Update(e);
          modified := modified + 1;
        case Deleted =>
          if e.name !in clusters { return false; }
          clusters[e.name].Delete();
          clusters := clusters - {e.name};
          assert clusters.Keys == old(clusters.Keys) - {e.name};
          deleted := deleted + 1;
          total := total - 1;
      }
      ok := true;
    }

    /** syncEtcdClus: an add or update is Modified if the name is known, else Added, so
        it is never refused for being out of step with the table. */
    method Sync(name: string, failed: bool, valid: bool) returns (ok: bool)
      requires Valid()
      modifies this, clusters.Values
      ensures Valid() && Books() == Step(old(Books()), Event(if name in old(clusters) then Modified else Added, name, failed, valid)).0
      ensures ok <==> !failed && valid
    {
      var kind := if name in clusters then Modified else Added;
      ok := HandleClusterEvent(Event(kind, name, failed, valid));
    }

    /** Any sequence of events: the books follow the ledger and stay balanced. */
    method Run(events: seq<Event>)
      requires Valid() && Balanced(Books())
      modifies this, clusters.Values
      ensures Valid() && Books() == Replay(old(Books()), events) && Balanced(Books())
    {
      ghost var books := Books();
      for i := 0 to |events|
        invariant Valid() && Replay(Books(), events[i..]) == Replay(books, events)
        invariant forall n | n in clusters :: fresh(clusters[n]) || clusters[n] in old(clusters.Values)
      {
        assert events[i..][0] == events[i] && events[i..][1..] == events[i + 1..];
        var _ := HandleClusterEvent(events[i]);
      }
      Conservation(books, events);
    }
  }
}
