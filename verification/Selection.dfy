/** pkg/cluster/replicate.go, the three choose functions.  Each scans the member
    table in an order the Go runtime picks; `Scan...` is that scan over an explicit
    order, so "for every order" and "for some order" can be stated. */
module Selection {
  import opened Views
  import opened MemberSets

  /** strings.Compare(a, b) < 0 */
  predicate Less(a: string, b: string) {
    b != [] && (a == [] || a[0] < b[0] || (a[0] == b[0] && Less(a[1..], b[1..])))
  }

  lemma {:induction false} LessTotal(a: string, b: string)
    ensures a == b <==> !Less(a, b) && !Less(b, a)
    ensures !(Less(a, b) && Less(b, a))
  {
    if a != [] && b != [] && a[0] == b[0] {
      LessTotal(a[1..], b[1..]);
      assert a == [a[0]] + a[1..] && b == [b[0]] + b[1..];
    }
  }

  lemma {:induction false} LessTransitive(a: string, b: string, c: string)
    requires Less(a, b) && Less(b, c)
    ensures Less(a, c)
  {
    if a != [] && a[0] == b[0] == c[0] {
      LessTransitive(a[1..], b[1..], c[1..]);
    }
  }

  /** Some iteration order of `keys` visits `last` last. */
  lemma OrderEndingWith(keys: set<string>, last: string) returns (init: seq<string>, order: seq<string>)
    requires last in keys
    ensures IsOrder(init, keys - {last}) && IsOrder(order, keys)
    ensures order == init + [last] && order[..|init|] == init
  {
    init := OrderExists(keys - {last});
    OrderExtend(init, keys - {last}, last);
    assert keys - {last} + {last} == keys;
    order := init + [last];
  }

  // ---- chooseSeeds ----

  function ScanSeeds(v: View, order: seq<string>): (seeds: seq<string>)
    requires forall n | n in order :: n in v
    ensures forall n | n in seeds :: n in order && IsCandidate(v[n])
  {
    if order == [] then []
    else
      var k := |order| - 1;
      var m := order[k];
      assert forall n | n in order[..k] :: n in order;
      Enlist(v, ScanSeeds(v, order[..k]), m)
  }

  /** The seeds once `m` has been met, too. */
  function Enlist(v: View, best: seq<string>, m: string): seq<string>
    requires m in v && forall n | n in best :: n in v
  {
    if !IsCandidate(v[m]) then best
    else if best == [] then [m]
    else if v[m].sequence > v[best[0]].sequence then [m]
    else best + [m]
  }

  lemma ScanSeedsStep(v: View, order: seq<string>, i: nat)
    requires i < |order| && forall n | n in order :: n in v
    ensures ScanSeeds(v, order[..i + 1]) == Enlist(v, ScanSeeds(v, order[..i]), order[i])
  {
    assert order[..i + 1][..i] == order[..i];
  }

  ghost predicate MostRecent(v: View, n: string) {
    n in Candidates(v) && forall c | c in Candidates(v) :: v[c].sequence <= v[n].sequence
  }

  lemma {:induction false} SeedsInvariant(v: View, order: seq<string>)
    requires forall n | n in order :: n in v
    requires forall i, j | 0 <= i < j < |order| :: order[i] != order[j]
    ensures var seeds := ScanSeeds(v, order);
      && (forall i, j | 0 <= i < j < |seeds| :: seeds[i] != seeds[j])
      && (seeds == [] <==> forall n | n in order :: !IsCandidate(v[n]))
      && forall n | n in order && IsCandidate(v[n]) ::
           && v[n].sequence <= v[seeds[0]].sequence
           && (v[n].sequence == v[seeds[0]].sequence ==> n in seeds)
  {
    if order != [] {
      var k := |order| - 1;
      var init := order[..k];
      assert order == init + [order[k]];
      SeedsInvariant(v, init);
    }
  }

  /** For every map order: the seeds are distinct candidates, there are none only
      when there is no candidate, the first is a most recent copy and every equally
      recent copy is among them. */
  lemma SeedsAreSound(v: View, order: seq<string>)
    requires IsOrder(order, v.Keys)
    ensures var seeds := ScanSeeds(v, order);
      && (forall i, j | 0 <= i < j < |seeds| :: seeds[i] != seeds[j])
      && (forall n | n in seeds :: n in Candidates(v))
      && (seeds == [] <==> Candidates(v) == {})
      && (seeds != [] ==> MostRecent(v, seeds[0]))
      && forall n | MostRecent(v, n) :: n in seeds
  {
    SeedsInvariant(v, order);
  }

  /** doc/design/replication.md promises that only most recent copies are tried as
      seeds.  The scan also appends older ones, so the promise holds for every map
      order exactly when all candidates are equally recent. */
  lemma OnlyRecentSeeds(v: View)
    ensures (forall order | IsOrder(order, v.Keys) ::
               forall n | n in ScanSeeds(v, order) :: MostRecent(v, n))
        <==> (forall a, b | a in Candidates(v) && b in Candidates(v) :: v[a].sequence == v[b].sequence)
  {
    if a, b :| a in Candidates(v) && b in Candidates(v) && v[a].sequence < v[b].sequence {
      var init, order := OrderEndingWith(v.Keys, a);
      SeedsInvariant(v, init);
      assert b in init && IsCandidate(v[b]);
      assert ScanSeeds(v, order) == ScanSeeds(v, init) + [a];
      assert !MostRecent(v, a);
    }
    forall order, n | IsOrder(order, v.Keys) && n in ScanSeeds(v, order)
      ensures n in Candidates(v)
    {
    }
  }

  /** For instance: of two candidates the older one is listed, and tried, too. */
  lemma OlderSeedListed()
    ensures var v: View := map["a" := NEW_POD.(sequence := 1), "b" := NEW_POD.(sequence := 2)];
      IsOrder(["b", "a"], v.Keys) && ScanSeeds(v, ["b", "a"]) == ["b", "a"] && !MostRecent(v, "a")
  {
    var v: View := map["a" := NEW_POD.(sequence := 1), "b" := NEW_POD.(sequence := 2)];
    var order := ["b", "a"];
    assert order[..1] == ["b"] && order[..1][..0] == [];
    assert ScanSeeds(v, order[..1]) == ["b"];
    assert "b" in Candidates(v);
  }

  // ---- chooseMember ----

  predicate Beats(v: View, m: string, best: string)
    requires m in v && best in v
  {
    v[m].sequence > v[best].sequence || Less(m, best)
  }

  function ScanMember(v: View, order: seq<string>): (r: Option<string>)
    requires forall n | n in order :: n in v
    ensures r.Some? ==> r.value in order && IsCandidate(v[r.value])
    ensures r.None? <==> forall n | n in order :: !IsCandidate(v[n])
  {
    if order == [] then None
    else
      var k := |order| - 1;
      var m := order[k];
      assert order == order[..k] + [m];
      Prefer(v, ScanMember(v, order[..k]), m)
  }

  /** The choice once `m` has been met, too. */
  function Prefer(v: View, best: Option<string>, m: string): Option<string>
    requires m in v && (best.Some? ==> best.value in v)
  {
    if !IsCandidate(v[m]) then best
    else if best.None? then Some(m)
    else if Beats(v, m, best.value) then Some(m)
    else best
  }

  lemma ScanMemberStep(v: View, order: seq<string>, i: nat)
    requires i < |order| && forall n | n in order :: n in v
    ensures ScanMember(v, order[..i + 1]) == Prefer(v, ScanMember(v, order[..i]), order[i])
  {
    assert order[..i + 1][..i] == order[..i];
  }

  /** `t` is what chooseMember returns for some map order. */
  ghost predicate Choosable(v: View, t: string) {
    exists order :: IsOrder(order, v.Keys) && ScanMember(v, order) == Some(t)
  }

  /** `t` is at least as recent as, and named before, every other candidate. */
  ghost predicate Dominates(v: View, t: string) {
    && t in Candidates(v)
    && forall c | c in Candidates(v) && c != t :: v[c].sequence <= v[t].sequence && Less(t, c)
  }

  lemma {:induction false} DominantWins(v: View, order: seq<string>, t: string)
    requires forall n | n in order :: n in v
    requires Dominates(v, t) && t in order
    ensures ScanMember(v, order) == Some(t)
  {
    var k := |order| - 1;
    var init, m := order[..k], order[k];
    assert order == init + [m];
    if t in init {
      DominantWins(v, init, t);
      if m in Candidates(v) { LessTotal(m, t); }
    } else {
      var best := ScanMember(v, init);
      if best.Some? { assert best.value in Candidates(v); }
    }
  }

  /** chooseMember is not a maximum: its answer is independent of the map order
      exactly when one candidate is both most recent and first by name. */
  lemma ChoiceOrderIndependence(v: View, t: string)
    ensures (forall order | IsOrder(order, v.Keys) :: ScanMember(v, order) == Some(t)) <==> Dominates(v, t)
  {
    if Dominates(v, t) {
      forall order | IsOrder(order, v.Keys)
        ensures ScanMember(v, order) == Some(t)
      {
        DominantWins(v, order, t);
      }
    } else {
      var order := OrderExists(v.Keys);
      if ScanMember(v, order) == Some(t) {
        assert t in Candidates(v);
        var c :| c in Candidates(v) && c != t && !(v[c].sequence <= v[t].sequence && Less(t, c));
        LessTotal(c, t);
        var init, unlucky := OrderEndingWith(v.Keys, c);
        assert ScanMember(v, unlucky) != Some(t);
      }
    }
  }

  /** The documented choice: highest sequence, ties to the first name. */
  ghost predicate Documented(v: View, t: string) {
    MostRecent(v, t) && forall c | MostRecent(v, c) && c != t :: Less(t, c)
  }

  /** The code makes the documented choice for every map order exactly when no
      less recent candidate is named before it. */
  lemma DocumentedChoice(v: View, t: string)
    requires Documented(v, t)
    ensures (forall order | IsOrder(order, v.Keys) :: ScanMember(v, order) == Some(t))
        <==> forall c | c in Candidates(v) && v[c].sequence < v[t].sequence :: Less(t, c)
  {
    ChoiceOrderIndependence(v, t);
    forall c | c in Candidates(v) && c != t && v[c].sequence == v[t].sequence
      ensures Less(t, c)
    {
      assert MostRecent(v, c);
    }
    if Dominates(v, t) {
      forall c | c in Candidates(v) && v[c].sequence < v[t].sequence ensures Less(t, c) { assert c != t; }
    }
  }

  /** For instance, with the numbers 1, 3 and 2 for a, b and c: the map order b, a, c
      makes the code choose c, although b is both more recent and named before it. */
  lemma WorseMemberChosen()
    ensures var v: View := map["a" := NEW_POD.(sequence := 1), "b" := NEW_POD.(sequence := 3), "c" := NEW_POD.(sequence := 2)];
      IsOrder(["b", "a", "c"], v.Keys) && ScanMember(v, ["b", "a", "c"]) == Some("c") && Documented(v, "b") && Less("b", "c")
  {
    var v: View := map["a" := NEW_POD.(sequence := 1), "b" := NEW_POD.(sequence := 3), "c" := NEW_POD.(sequence := 2)];
    var order := ["b", "a", "c"];
    assert order[..2] == ["b", "a"] && order[..2][..1] == ["b"] && order[..2][..1][..0] == [];
    assert ScanMember(v, order[..2][..1]) == Some("b");
    assert ScanMember(v, order[..2]) == Some("a");
    assert Candidates(v) == {"a", "b", "c"};
  }

  // ---- chooseSeeds again: ties ----

  /** A most recent copy that is met first stays at the head of the list. */
  lemma {:induction false} HeadStays(v: View, order: seq<string>)
    requires order != [] && (forall n | n in order :: n in v) && MostRecent(v, order[0])
    ensures ScanSeeds(v, order) != [] && ScanSeeds(v, order)[0] == order[0]
  {
    var k := |order| - 1;
    var init, m := order[..k], order[k];
    assert order == init + [m];
    if init != [] {
      HeadStays(v, init);
      if IsCandidate(v[m]) { assert m in Candidates(v); }
    }
  }

  /** Exactly the most recent copies can come first, each in some map order. */
  lemma FirstSeedExact(v: View, t: string)
    ensures (exists order :: IsOrder(order, v.Keys) && ScanSeeds(v, order) != [] && ScanSeeds(v, order)[0] == t)
       <==> MostRecent(v, t)
  {
    if MostRecent(v, t) {
      var rest := OrderExists(v.Keys - {t});
      OrderPrepend(rest, v.Keys - {t}, t);
      assert v.Keys - {t} + {t} == v.Keys;
      var order := [t] + rest;
      assert IsOrder(order, v.Keys);
      HeadStays(v, order);
    }
    forall order | IsOrder(order, v.Keys) && ScanSeeds(v, order) != [] ensures MostRecent(v, ScanSeeds(v, order)[0]) {
      SeedsAreSound(v, order);
    }
  }

  /** doc/design/replication.md promises that ties between seeds go to the lowest index.
      The head of the list is the documented choice for every map order exactly when there
      is no tie to break. */
  lemma SeedTies(v: View)
    ensures (forall order | IsOrder(order, v.Keys) && ScanSeeds(v, order) != [] :: Documented(v, ScanSeeds(v, order)[0]))
       <==> (forall a, b | MostRecent(v, a) && MostRecent(v, b) :: a == b)
  {
    forall order | IsOrder(order, v.Keys) && ScanSeeds(v, order) != [] ensures MostRecent(v, ScanSeeds(v, order)[0]) {
      SeedsAreSound(v, order);
    }
    if a, b :| MostRecent(v, a) && MostRecent(v, b) && a != b {
      LessTotal(a, b);
      FirstSeedExact(v, a);
      FirstSeedExact(v, b);
    }
  }

  /** For instance: of two equally recent copies the later-named one is tried first if it
      is met first. */
  lemma TieGoesToFirstMet()
    ensures var v: View := map["a" := NEW_POD, "b" := NEW_POD];
      IsOrder(["b", "a"], v.Keys) && ScanSeeds(v, ["b", "a"]) == ["b", "a"] && Documented(v, "a")
  {
    var v: View := map["a" := NEW_POD, "b" := NEW_POD];
    var order := ["b", "a"];
    assert order[..1] == ["b"] && order[..1][..0] == [];
    assert ScanSeeds(v, order[..1]) == ["b"];
    assert Candidates(v) == {"a", "b"};
  }

  // ---- chooseCurrentPrimary ----

  function ScanPrimary(v: View, order: seq<string>): (r: Option<string>)
    requires forall n | n in order :: n in v
    ensures r.Some? ==> r.value in order && IsDemotable(v[r.value])
    ensures r.None? <==> forall n | n in order :: !IsDemotable(v[n])
  {
    if order == [] then None
    else
      var k := |order| - 1;
      var m := order[k];
      assert order == order[..k] + [m];
      PreferLast(v, ScanPrimary(v, order[..k]), m)
  }

  /** The choice once `m` has been met, too; an offline primary ends the scan. */
  function PreferLast(v: View, best: Option<string>, m: string): Option<string>
    requires m in v && (best.Some? ==> best.value in v)
  {
    if best.Some? && !v[best.value].online then best
    else if !IsDemotable(v[m]) then best
    else if !v[m].online then Some(m)
    else if best.None? then Some(m)
    else if Less(best.value, m) then Some(m)
    else best
  }

  lemma ScanPrimaryStep(v: View, order: seq<string>, i: nat)
    requires i < |order| && forall n | n in order :: n in v
    ensures ScanPrimary(v, order[..i + 1]) == PreferLast(v, ScanPrimary(v, order[..i]), order[i])
  {
    assert order[..i + 1][..i] == order[..i];
  }

  ghost predicate LastNamed(t: string, s: set<string>) {
    t in s && forall c | c in s && c != t :: Less(c, t)
  }

  lemma {:induction false} PrimaryInvariant(v: View, order: seq<string>)
    requires forall n | n in order :: n in v
    requires Inv(v)
    ensures var r := ScanPrimary(v, order);
      r.Some? ==> forall c | c in order && IsDemotable(v[c]) && c != r.value :: Less(c, r.value)
  {
    if order != [] {
      var k := |order| - 1;
      var init, m := order[..k], order[k];
      assert order == init + [m];
      PrimaryInvariant(v, init);
      var best := ScanPrimary(v, init);
      if best.Some? && IsDemotable(v[m]) {
        LessTotal(best.value, m);
        if Less(best.value, m) {
          forall c | c in init && IsDemotable(v[c]) && c != best.value ensures Less(c, m) {
            LessTransitive(c, best.value, m);
          }
        }
      }
    }
  }

  /** Under the run invariant the demoted primary does not depend on the map order:
      it is always the last-named healthy primary. */
  lemma DemotionIsDeterministic(v: View, order: seq<string>)
    requires Inv(v) && IsOrder(order, v.Keys)
    ensures match ScanPrimary(v, order)
            case None => Demotable(v) == {}
            case Some(t) => LastNamed(t, Demotable(v)) && t in Live(v)
  {
    PrimaryInvariant(v, order);
  }

  ghost predicate LeastRecent(v: View, t: string) {
    t in Demotable(v) && forall c | c in Demotable(v) :: v[t].sequence <= v[c].sequence
  }

  /** doc/design/replication.md promises to stop primaries with the lowest sequence number.
      The code never looks at it, so that is what happens exactly when the last-named
      healthy primary is also a least recent one. */
  lemma LowestSequenceStopped(v: View)
    requires Inv(v) && Demotable(v) != {}
    ensures (forall order | IsOrder(order, v.Keys) :: ScanPrimary(v, order).Some? && LeastRecent(v, ScanPrimary(v, order).value))
       <==> (forall t | LastNamed(t, Demotable(v)) :: LeastRecent(v, t))
  {
    forall order | IsOrder(order, v.Keys)
      ensures ScanPrimary(v, order).Some? && LastNamed(ScanPrimary(v, order).value, Demotable(v))
    {
      DemotionIsDeterministic(v, order);
    }
    var order := OrderExists(v.Keys);
    var s := ScanPrimary(v, order).value;
    forall t | LastNamed(t, Demotable(v)) ensures t == s { LessTotal(s, t); }
  }

  /** For instance: b is stopped before a, although b is the more recent copy. */
  lemma NewerPrimaryStopped(order: seq<string>)
    requires IsOrder(order, {"a", "b"})
    ensures var v: View := map["a" := State(true, true, true, false, 0, 1), "b" := State(true, true, true, false, 0, 2)];
      ScanPrimary(v, order) == Some("b") && !LeastRecent(v, "b")
  {
    var v: View := map["a" := State(true, true, true, false, 0, 1), "b" := State(true, true, true, false, 0, 2)];
    assert "a" in Demotable(v) && "b" in Demotable(v);
    DemotionIsDeterministic(v, order);
    LessTotal("a", "b");
  }

  // ---- the loops ----

  /** `best` is the record filed under the name `r`. */
  ghost predicate Named(peers: MemberSet, r: Option<string>, best: Option<Member>) {
    match r
    case None => best.None?
    case Some(n) => n in peers && best == Some(peers[n])
  }

  ghost predicate NamedAll(peers: MemberSet, names: seq<string>, best: seq<Member>) {
    |names| == |best| && forall i | 0 <= i < |best| :: names[i] in peers && best[i] == peers[names[i]]
  }

  method EnlistSeed(peers: MemberSet, n: string, best: seq<Member>, ghost v: View, ghost seeds: seq<string>)
    returns (more: seq<Member>)
    requires n in peers && v == ViewOf(peers) && NamedAll(peers, seeds, best) && forall s | s in seeds :: s in peers
    ensures NamedAll(peers, Enlist(v, seeds, n), more)
  {
    var m := peers[n];
    if !m.online || m.failed {
      more := best;
    } else if m.primary {
      more := best;
    } else if |best| == 0 {
      more := best + [m];
    } else if m.sequence > best[0].sequence {
      more := [m];
    } else {
      more := best + [m];
    }
  }

  method ChooseSeeds(peers: MemberSet) returns (best: seq<Member>, ghost order: seq<string>)
    requires Keyed(peers)
    ensures IsOrder(order, peers.Keys)
    ensures NamedAll(peers, ScanSeeds(ViewOf(peers), order), best)
    ensures best == [] <==> Candidates(ViewOf(peers)) == {}
    ensures best != [] ==> MostRecent(ViewOf(peers), best[0].name)
  {
    best := [];
    var names := Range(peers);
    order := names;
    ghost var v := ViewOf(peers);
    ghost var seeds := [];
    for i := 0 to |names|
      invariant seeds == ScanSeeds(v, order[..i]) && NamedAll(peers, seeds, best)
    {
      assert names[i] in names;
      best := EnlistSeed(peers, names[i], best, v, seeds);
      ScanSeedsStep(v, order, i);
      seeds := Enlist(v, seeds, names[i]);
    }
    assert order[..|names|] == order;
    SeedsAreSound(v, order);
  }

  method ChooseMember(peers: MemberSet) returns (best: Option<Member>, ghost order: seq<string>)
    requires Keyed(peers)
    ensures IsOrder(order, peers.Keys)
    ensures Named(peers, ScanMember(ViewOf(peers), order), best)
    ensures match best
            case None => Candidates(ViewOf(peers)) == {}
            case Some(m) => Choosable(ViewOf(peers), m.name)
  {
    best := None;
    var names := Range(peers);
    order := names;
    ghost var v := ViewOf(peers);
    for i := 0 to |names|
      invariant Named(peers, ScanMember(v, order[..i]), best)
    {
      assert names[i] in names;
      ScanMemberStep(v, order, i);
      var m := peers[names[i]];
      if !m.online || m.failed {
      } else if m.primary {
      } else if best.None? {
        best := Some(m);
      } else if m.sequence > best.value.sequence {
        best := Some(m);
      } else if Less(m.name, best.value.name) {
        best := Some(m);
      }
    }
    assert order[..|names|] == order;
    NamedChoosable(peers, order, best);
  }

  lemma NamedChoosable(peers: MemberSet, order: seq<string>, best: Option<Member>)
    requires Keyed(peers) && IsOrder(order, peers.Keys) && Named(peers, ScanMember(ViewOf(peers), order), best)
    ensures match best
            case None => Candidates(ViewOf(peers)) == {}
            case Some(m) => Choosable(ViewOf(peers), m.name)
  {
  }

  method ChooseCurrentPrimary(peers: MemberSet) returns (best: Option<Member>, ghost order: seq<string>)
    requires Keyed(peers)
    ensures IsOrder(order, peers.Keys)
    ensures Named(peers, ScanPrimary(ViewOf(peers), order), best)
    ensures Inv(ViewOf(peers)) ==>
      match best
      case None => Demotable(ViewOf(peers)) == {}
      case Some(m) => LastNamed(m.name, Demotable(ViewOf(peers)))
  {
    best := None;
    var names := Range(peers);
    order := names;
    ghost var v := ViewOf(peers);
    ghost var name := None;
    for i := 0 to |names|
      invariant name == ScanPrimary(v, order[..i]) && Named(peers, name, best) && (best.Some? ==> best.value.online)
    {
      assert names[i] in names;
      var m := peers[names[i]];
      ScanPrimaryStep(v, order, i);
      if !m.primary || m.failed {
      } else if !m.online {
        ScanPrimarySettled(v, order, i);
        best := Some(m);
        LastNamedPrimary(peers, order, best);
        return;
      } else if best.None? {
        best := Some(m);
      } else if Less(best.value.name, m.name) {
        best := Some(m);
      }
      name := PreferLast(v, name, names[i]);
    }
    assert order[..|names|] == order;
    LastNamedPrimary(peers, order, best);
  }

  lemma LastNamedPrimary(peers: MemberSet, order: seq<string>, best: Option<Member>)
    requires Keyed(peers) && IsOrder(order, peers.Keys) && Named(peers, ScanPrimary(ViewOf(peers), order), best)
    ensures Inv(ViewOf(peers)) ==>
      match best
      case None => Demotable(ViewOf(peers)) == {}
      case Some(m) => LastNamed(m.name, Demotable(ViewOf(peers)))
  {
    if Inv(ViewOf(peers)) { DemotionIsDeterministic(ViewOf(peers), order); }
  }

  /** Meeting an offline primary ends the scan. */
  lemma {:induction false} ScanPrimarySettled(v: View, order: seq<string>, i: nat)
    requires i < |order| && forall n | n in order :: n in v
    requires var r := ScanPrimary(v, order[..i]); r.Some? ==> v[r.value].online
    requires IsDemotable(v[order[i]]) && !v[order[i]].online
    ensures ScanPrimary(v, order) == Some(order[i])
  {
    var k := |order| - 1;
    ScanPrimaryStep(v, order, k);
    assert order[..k + 1] == order;
    if i < k {
      var init := order[..k];
      assert forall n | n in init :: n in order;
      assert init[..i] == order[..i];
      ScanPrimarySettled(v, init, i);
    }
  }
}
