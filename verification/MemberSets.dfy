/** pkg/util/member.go: mutable member records, the name-keyed table that shares
    them, and the merge of that table with the running pods. */
module MemberSets {
  import opened Views

  class Member {
    const name: string
    var online: bool
    var primary: bool
    var running: bool
    var failed: bool
    var failures: nat
    var sequence: nat

    constructor (name: string, s: State)
      ensures this.name == name && Value() == s
    {
      this.name := name;
      online, primary, running, failed := s.online, s.primary, s.running, s.failed;
      failures, sequence := s.failures, s.sequence;
    }

    function Value(): State
      reads this
    {
      State(online, primary, running, failed, failures, sequence)
    }

    method Copy() returns (c: Member)
      ensures fresh(c) && c.name == name && c.Value() == Value()
    {
      c := new Member(name, Value());
    }

    method Offline()
      modifies this
      ensures Value() == Offlined(old(Value()))
    {
      online := false;
      primary := false;
      running := false;
      failed := false;
      sequence := 0;
    }

    method BringOnline()
      modifies this
      ensures Value() == old(Value()).(online := true)
    {
      online := true;
    }

    /** A start or stop command failed on this member. */
    method MarkFailed()
      modifies this
      ensures Value() == old(Value()).(failed := true, failures := old(failures) + 1)
    {
      failed := true;
      failures := failures + 1;
    }

    method MarkStarted(asPrimary: bool)
      modifies this
      ensures Value() == old(Value()).(primary := asPrimary, running := true, failed := false)
    {
      primary := asPrimary;
      running := true;
      failed := false;
    }

    method MarkStopped()
      modifies this
      ensures Value() == old(Value()).(primary := false, running := false, failed := false)
    {
      primary := false;
      running := false;
      failed := false;
    }
  }

  type MemberSet = map<string, Member>

  /** Every record is filed under its own name, so distinct keys hold distinct objects. */
  ghost predicate Keyed(ms: MemberSet) {
    forall n | n in ms :: ms[n].name == n
  }

  ghost function ViewOf(ms: MemberSet): (v: View)
    reads ms.Values
    ensures v.Keys == ms.Keys
  {
    map n | n in ms :: ms[n].Value()
  }

  lemma ViewIs(ms: MemberSet, v: View)
    requires v.Keys == ms.Keys && forall n | n in ms :: ms[n].Value() == v[n]
    ensures ViewOf(ms) == v
  {
  }

  lemma ViewSize(ms: MemberSet)
    ensures |ViewOf(ms)| == |ms|
  {
    assert |ViewOf(ms).Keys| == |ViewOf(ms)| && |ms.Keys| == |ms|;
  }

  /** Writing one record changes the table at its name only. */
  lemma OneChanged(ms: MemberSet, m: Member, before: View)
    requires before.Keys == ms.Keys && m.name in ms && ms[m.name] == m
    requires forall n | n in ms && n != m.name :: ms[n].Value() == before[n]
    ensures ViewOf(ms) == before[m.name := m.Value()]
  {
  }

  /** A Go `range` over a map: some order of its keys, nothing more is promised. */
  method Range(ms: MemberSet) returns (order: seq<string>)
    ensures IsOrder(order, ms.Keys)
  {
    order := [];
    var todo := ms.Keys;
    while todo != {}
      invariant todo <= ms.Keys && IsOrder(order, ms.Keys - todo)
      decreases todo
    {
      var n :| n in todo;
      OrderExtend(order, ms.Keys - todo, n);
      assert ms.Keys - todo + {n} == ms.Keys - (todo - {n});
      order := order + [n];
      todo := todo - {n};
    }
  }

  /** What merging the table `v` with the pods `r` must produce.  A name in both
      is online if either side says so; a name only in `v` goes offline. */
  ghost function Merge(v: View, r: View): View {
    map n | n in v.Keys + r.Keys ::
      if n !in r then Offlined(v[n])
      else if n !in v then r[n].(online := true)
      else v[n].(online := v[n].online || r[n].online)
  }

  /** Members of `ms` whose name `other` lacks. */
  method Diff(ms: MemberSet, other: MemberSet) returns (diff: MemberSet)
    ensures forall n :: n in diff <==> n in ms && n !in other
    ensures forall n | n in diff :: diff[n] == ms[n]
  {
    diff := map[];
    var todo := ms.Keys;
    while todo != {}
      invariant todo <= ms.Keys
      invariant forall n :: n in diff <==> n in ms && n !in todo && n !in other
      invariant forall n | n in diff :: diff[n] == ms[n]
      decreases todo
    {
      var n :| n in todo;
      todo := todo - {n};
      if n !in other { diff := diff[n := ms[n]]; }
    }
  }

  /** As `Diff`, and also the common names on whose Online flag the sides differ. */
  method DiffExtended(ms: MemberSet, other: MemberSet) returns (diff: MemberSet)
    ensures forall n :: n in diff <==> n in ms && (n !in other || other[n].online != ms[n].online)
    ensures forall n | n in diff :: diff[n] == ms[n]
  {
    diff := map[];
    var todo := ms.Keys;
    while todo != {}
      invariant todo <= ms.Keys
      invariant forall n :: n in diff <==> n in ms && n !in todo && (n !in other || other[n].online != ms[n].online)
      invariant forall n | n in diff :: diff[n] == ms[n]
      decreases todo
    {
      var n :| n in todo;
      todo := todo - {n};
      if n !in other {
        diff := diff[n := ms[n]];
      } else if other[n].online != ms[n].online {
        diff := diff[n := ms[n]];
      }
    }
  }

  /** A deep copy: equal values in objects nobody else holds. */
  method Copy(ms: MemberSet) returns (c: MemberSet)
    requires Keyed(ms)
    ensures Keyed(c) && (forall n | n in c :: fresh(c[n])) && ViewOf(c) == old(ViewOf(ms))
  {
    c := map[];
    var todo := ms.Keys;
    while todo != {}
      invariant todo <= ms.Keys
      invariant c.Keys == ms.Keys - todo
      invariant Keyed(c)
      invariant forall n | n in c :: fresh(c[n]) && c[n].Value() == ms[n].Value()
      decreases todo
    {
      var n :| n in todo;
      todo := todo - {n};
      var m := ms[n].Copy();
      c := c[n := m];
    }
  }

  /** Copies into `base` every member of `running` it lacks. */
  method Adopt(base: MemberSet, running: MemberSet) returns (r: MemberSet)
    requires Keyed(base) && Keyed(running)
    ensures Keyed(r) && forall n | n in r :: (n in base && r[n] == base[n]) || fresh(r[n])
    ensures ViewOf(r) == old(ViewOf(running) + ViewOf(base))
  {
    ghost var v, w := ViewOf(base), ViewOf(running);
    r := base;
    var todo := running.Keys;
    while todo != {}
      invariant todo <= running.Keys
      invariant forall n :: n in r <==> n in base || (n in running && n !in todo)
      invariant Keyed(r)
      invariant forall n | n in base :: r[n] == base[n]
      invariant forall n | n in r && n !in base :: fresh(r[n]) && r[n].Value() == w[n]
      decreases todo
    {
      var n :| n in todo;
      todo := todo - {n};
      if n !in r {
        var m := running[n].Copy();
        r := r[n := m];
      }
    }
    ViewIs(r, w + v);
  }

  /** Fresh copies of both tables, `ms` taking precedence. */
  method CopyBoth(ms: MemberSet, running: MemberSet) returns (r: MemberSet)
    requires Keyed(ms) && Keyed(running)
    ensures Keyed(r) && forall n | n in r :: fresh(r[n])
    ensures ViewOf(r) == old(ViewOf(running) + ViewOf(ms))
  {
    var base := Copy(ms);
    r := Adopt(base, running);
  }

  ghost function WithOnline(v: View, names: set<string>): View {
    map n | n in v :: if n in names then v[n].(online := true) else v[n]
  }

  ghost function WithOffline(v: View, names: set<string>): View {
    map n | n in v :: if n in names then Offlined(v[n]) else v[n]
  }

  method BringOnline(r: MemberSet, appeared: MemberSet)
    requires Keyed(r) && Keyed(appeared) && appeared.Keys <= r.Keys
    modifies r.Values
    ensures ViewOf(r) == WithOnline(old(ViewOf(r)), appeared.Keys)
  {
    ghost var v := ViewOf(r);
    var todo := appeared.Keys;
    while todo != {}
      invariant todo <= appeared.Keys
      invariant forall n | n in r ::
        r[n].Value() == if n in appeared && n !in todo then v[n].(online := true) else v[n]
      decreases todo
    {
      var n :| n in todo;
      todo := todo - {n};
      r[appeared[n].name].BringOnline();
    }
    ViewIs(r, WithOnline(v, appeared.Keys));
  }

  method TakeOffline(r: MemberSet, lost: MemberSet)
    requires Keyed(r) && Keyed(lost) && lost.Keys <= r.Keys
    modifies r.Values
    ensures ViewOf(r) == WithOffline(old(ViewOf(r)), lost.Keys)
  {
    ghost var v := ViewOf(r);
    var todo := lost.Keys;
    while todo != {}
      invariant todo <= lost.Keys
      invariant forall n | n in r ::
        r[n].Value() == if n in lost && n !in todo then Offlined(v[n]) else v[n]
      decreases todo
    {
      var n :| n in todo;
      todo := todo - {n};
      // The source's other branch asks for a lost name outside `r`, and there is none.
      r[lost[n].name].Offline();
    }
  }

  method Update(r: MemberSet, appeared: MemberSet, lost: MemberSet)
    requires Keyed(r) && Keyed(appeared) && Keyed(lost) && appeared.Keys <= r.Keys && lost.Keys <= r.Keys
    modifies r.Values
    ensures ViewOf(r) == WithOffline(WithOnline(old(ViewOf(r)), appeared.Keys), lost.Keys)
  {
    BringOnline(r, appeared);
    TakeOffline(r, lost);
  }

  lemma KeysOfParts(v: View, r: View, all: set<string>, appeared: set<string>, lost: set<string>)
    requires all == (r + v).Keys
    requires forall n :: n in appeared <==> n in r && (n !in v || v[n].online != r[n].online)
    requires forall n :: n in lost <==> n in all && n !in r
    ensures appeared <= all && lost <= all
    ensures WithOffline(WithOnline(r + v, appeared), lost) == Merge(v, r)
  {
  }

  /** The pods to bring online and the members to take offline. */
  method Changes(ms: MemberSet, running: MemberSet, all: MemberSet) returns (appeared: MemberSet, lost: MemberSet)
    requires Keyed(running) && Keyed(all) && all.Keys == (ViewOf(running) + ViewOf(ms)).Keys
    ensures Keyed(appeared) && Keyed(lost) && appeared.Keys <= all.Keys && lost.Keys <= all.Keys
    ensures var v, r := ViewOf(ms), ViewOf(running);
      WithOffline(WithOnline(r + v, appeared.Keys), lost.Keys) == Merge(v, r)
  {
    lost := Diff(all, running);
    appeared := DiffExtended(running, ms);
    KeysOfParts(ViewOf(ms), ViewOf(running), all.Keys, appeared.Keys, lost.Keys);
  }

  /** The table after a poll.  Neither argument is written, the result shares no
      object with them, and `max` plays no part. */
  method Reconcile(ms: MemberSet, running: MemberSet, max: int) returns (result: MemberSet)
    requires Keyed(ms) && Keyed(running)
    ensures Keyed(result) && forall n | n in result :: fresh(result[n])
    ensures ViewOf(result) == Merge(old(ViewOf(ms)), old(ViewOf(running)))
  {
    ghost var v, r := ViewOf(ms), ViewOf(running);
    result := CopyBoth(ms, running);
    var appeared, lost := Changes(ms, running, result);
    Update(result, appeared, lost);
  }

  /** With every pod online, the merge is: union of names, Online exactly for the
      pods, survivors untouched, the lost keep only their failure count, and a
      second merge with the same pods changes nothing. */
  lemma MergeLaws(v: View, r: View)
    requires forall n | n in r :: r[n].online
    ensures Merge(v, r).Keys == v.Keys + r.Keys
    ensures Active(Merge(v, r)) == r.Keys
    ensures forall n | n in v && n in r :: Merge(v, r)[n] == v[n].(online := true)
    ensures forall n | n in r && n !in v :: Merge(v, r)[n] == r[n]
    ensures forall n | n in v && n !in r :: Merge(v, r)[n] == Offlined(v[n])
    ensures forall n | n in v :: Merge(v, r)[n].failures == v[n].failures
    ensures Merge(Merge(v, r), r) == Merge(v, r)
  {
    var m := Merge(v, r);
    assert Active(m) == r.Keys;
    assert Merge(m, r).Keys == m.Keys;
    assert forall n | n in m :: Merge(m, r)[n] == m[n];
  }

  /** How many of the names visited so far satisfy `p`. */
  function Count(v: View, order: seq<string>, p: State -> bool): nat
    requires forall n | n in order :: n in v
  {
    if order == [] then 0
    else
      var k := |order| - 1;
      assert forall n | n in order[..k] :: n in order;
      Count(v, order[..k], p) + if p(v[order[k]]) then 1 else 0
  }

  lemma {:induction false} CountIsSize(v: View, order: seq<string>, p: State -> bool)
    requires forall n | n in order :: n in v
    requires forall i, j | 0 <= i < j < |order| :: order[i] != order[j]
    ensures Count(v, order, p) == |set n | n in order && p(v[n])|
  {
    var all := set n | n in order && p(v[n]);
    if order == [] {
      assert all == {};
    } else {
      var k := |order| - 1;
      var last, init := order[k], order[..k];
      assert order == init + [last];
      CountIsSize(v, init, p);
      var some := set n | n in init && p(v[n]);
      if p(v[last]) {
        assert all == some + {last} && last !in some;
      } else {
        assert all == some;
      }
    }
  }

  /** The counting loop shared by the counters: one visit per key, in any order. */
  method CountWhere(ms: MemberSet, p: State -> bool) returns (count: nat)
    ensures count == |Where(ViewOf(ms), p)|
  {
    count := 0;
    var order := Range(ms);
    ghost var v := ViewOf(ms);
    for i := 0 to |order|
      invariant count == Count(v, order[..i], p)
    {
      assert order[..i + 1][..i] == order[..i] && order[i] in order;
      if p(ms[order[i]].Value()) {
        count := count + 1;
      }
    }
    assert order[..|order|] == order;
    CountIsSize(v, order, p);
    assert (set n | n in order && p(v[n])) == Where(v, p);
  }

  method AppPrimaries(ms: MemberSet) returns (count: nat)
    ensures count == |Live(ViewOf(ms))|
  {
    count := CountWhere(ms, IsLive);
  }

  method AppMembers(ms: MemberSet) returns (count: nat)
    ensures count == |Members(ViewOf(ms))|
  {
    count := CountWhere(ms, IsMember);
  }

  method ActiveMembers(ms: MemberSet) returns (count: nat)
    ensures count == |Active(ViewOf(ms))|
  {
    count := CountWhere(ms, IsActive);
  }
}
