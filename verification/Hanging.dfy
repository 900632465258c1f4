/** When a whole replicate pass need not return, read off the table it starts from.  What
    matters are five numbers: live primaries, healthy primaries, candidates, running members
    that are no candidates, and candidates that already run. */
module Hanging {
  import opened Views
  import opened Events
  import opened Selection
  import opened Phases
  import opened Passes
  import opened Divergence
  import opened Guarantees
  import Choices

  predicate IsBusy(s: State) { IsMember(s) && !IsCandidate(s) }

  predicate IsRestartable(s: State) { IsMember(s) && IsCandidate(s) }

  /** Running members that cannot be started again. */
  function Busy(v: View): set<string> { Where(v, IsBusy) }

  /** Running members that a start can be wasted on. */
  function Restartable(v: View): set<string> { Where(v, IsRestartable) }

  function Max(a: int, b: int): int { if a > b then a else b }

  lemma DivergesByCount(v: View, replicas: nat)
    ensures MayDiverge(v, replicas) <==> Candidates(v) != {} && |Busy(v)| + Max(1, |Restartable(v)|) < replicas
  {
    assert Members(v) == Busy(v) + Restartable(v) && Busy(v) !! Restartable(v);
    assert HasRunningCandidate(v) <==> Restartable(v) != {} by {
      if HasRunningCandidate(v) {
        var r :| r in Candidates(v) && v[r].running;
        assert r in Restartable(v);
      }
    }
  }

  /** The numbers of a table: live primaries, healthy primaries, candidates, running members
      that are no candidates, and candidates that run. */
  datatype Counts = Counts(live: nat, healthy: nat, candidates: nat, busy: nat, again: nat)
  {
    /** Promotion or demotion can succeed throughout and leave a table on which the
        secondary loop can diverge. */
    predicate ScalingRisk(replicas: nat, primaries: nat) {
      if live <= primaries then
        candidates > primaries - live && busy + Max(primaries - live + 1, again) < replicas
      else
        healthy >= live - primaries && busy - (live - primaries) + Max(1, again) < replicas
    }

    /** Without a live primary the pass has to seed one first, and if no primary is wanted
        it stops that one again. */
    predicate PassRisk(replicas: nat, primaries: nat) {
      if live == 0 && primaries == 0 then candidates > 0 && busy + Max(1, again - 1) < replicas
      else ScalingRisk(replicas, primaries)
    }
  }

  function CountsOf(v: View): Counts {
    Counts(|Live(v)|, |Demotable(v)|, |Candidates(v)|, |Busy(v)|, |Restartable(v)|)
  }

  ghost predicate ScalingMayHang(v: View, replicas: nat, primaries: nat) {
    CountsOf(v).ScalingRisk(replicas, primaries)
  }

  /** The pass may hang. */
  ghost predicate MayHang(v: View, replicas: nat, primaries: nat) {
    !Waiting(v, replicas) && CountsOf(v).PassRisk(replicas, primaries)
  }

  /** The stages of a pass before it starts secondaries. */
  datatype Lead = Lead(detect: Stage, order: seq<string>, seed: Stage, promote: Stage, demote: Stage)

  /** They lead from `v` to the secondary loop. */
  ghost predicate LeadsUp(v: View, l: Lead, replicas: nat, primaries: nat) {
    && !Waiting(v, replicas)
    && DetectPass(v, l.detect, replicas, primaries)
    && SeedPass(l.detect.after, l.order, l.seed) && Live(l.seed.after) != {}
    && PromotePass(l.seed.after, l.promote, primaries, true)
    && DemotePass(l.promote.after, l.demote, primaries, true)
  }

  /** A pass from `v` that goes on starting secondaries forever. */
  ghost predicate Hangs(v: View, l: Lead, f: nat -> View, replicas: nat, primaries: nat) {
    LeadsUp(v, l, replicas, primaries) && f(0) == l.demote.after && EndlessRun(f, replicas)
  }

  // ---- what each phase does to the numbers ----

  lemma PrimaryStartCounts(e: Event)
    requires PrimaryStart(e) && Lawful(e)
    ensures var v, w, t := e.before, Effect(e), e.target;
      && Candidates(w) == Candidates(v) - {t} && t in Candidates(v)
      && Restartable(w) == Restartable(v) - {t}
      && (t in Restartable(v) <==> v[t].running)
      && t !in Busy(v) && Busy(w) == (if e.ok || v[t].running then Busy(v) + {t} else Busy(v))
      && t !in Live(v) && Live(w) == (if e.ok then Live(v) + {t} else Live(v))
  {
    StartStep(e);
    assert forall n | n in e.before && n != e.target :: Effect(e)[n] == e.before[n];
  }

  lemma PrimaryStartSizes(e: Event)
    requires PrimaryStart(e) && Lawful(e)
    ensures var v, w := e.before, Effect(e);
      var ran, up := if v[e.target].running then 1 else 0, if e.ok then 1 else 0;
      && |Candidates(w)| == |Candidates(v)| - 1 && |Restartable(w)| == |Restartable(v)| - ran
      && |Busy(w)| == |Busy(v)| + Max(ran, up) && |Live(w)| == |Live(v)| + up
  {
    PrimaryStartCounts(e);
  }

  lemma {:induction false} PromotionCounts(target: nat, v0: View, evs: seq<Event>, v: View)
    requires Phase(Promotion(target), v0, evs, v) && AllOk(evs)
    ensures |Busy(v)| == |Busy(v0)| + |evs| && |Live(v)| == |Live(v0)| + |evs|
    ensures |Candidates(v)| == |Candidates(v0)| - |evs| && |Restartable(v)| >= |Restartable(v0)| - |evs|
  {
    if evs != [] {
      var k := |evs| - 1;
      PhaseInit(Promotion(target), v0, evs, v);
      PromotionCounts(target, v0, evs[..k], evs[k].before);
      PrimaryStartSizes(evs[k]);
    }
  }

  /** Failed seeds only make it worse for the secondary loop. */
  lemma {:induction false} SeedingCounts(seeds: seq<string>, v0: View, evs: seq<Event>, v: View)
    requires Phase(Seeding(seeds), v0, evs, v) && Live(v0) == {}
    ensures |Busy(v)| >= |Busy(v0)| + |Live(v)| && |Candidates(v)| == |Candidates(v0)| - |evs|
    ensures |Busy(v)| + |Restartable(v)| >= |Busy(v0)| + |Restartable(v0)|
    ensures |Live(v)| <= 1 && (Live(v) != {} ==> evs != [])
  {
    SeedingFacts(seeds, v0, evs, v);
    if evs != [] {
      var k := |evs| - 1;
      PhaseInit(Seeding(seeds), v0, evs, v);
      SeedingCounts(seeds, v0, evs[..k], evs[k].before);
      PrimaryStartSizes(evs[k]);
    }
  }

  lemma StopCounts(e: Event)
    requires e.Stopped? && !e.cleanup && e.ok && Lawful(e) && Inv(e.before)
    ensures var v, w, t := e.before, Effect(e), e.target;
      && Candidates(w) == Candidates(v) + {t} && t !in Candidates(v) && Restartable(w) == Restartable(v)
      && Busy(w) == Busy(v) - {t} && t in Busy(v)
      && Live(w) == Live(v) - {t} && t in Live(v)
      && Demotable(w) == Demotable(v) - {t} && t in Demotable(v)
  {
    DemoteStep(e);
    assert Sound(e.before[e.target]);
  }

  lemma {:induction false} DemotionCounts(target: nat, v0: View, evs: seq<Event>, v: View)
    requires Phase(Demotion(target), v0, evs, v) && AllOk(evs) && Inv(v0)
    ensures Inv(v) && Restartable(v) == Restartable(v0)
    ensures |Busy(v)| == |Busy(v0)| - |evs| && |Live(v)| == |Live(v0)| - |evs|
    ensures |Candidates(v)| == |Candidates(v0)| + |evs| && |Demotable(v)| == |Demotable(v0)| - |evs|
  {
    if evs != [] {
      var k := |evs| - 1;
      PhaseInit(Demotion(target), v0, evs, v);
      DemotionCounts(target, v0, evs[..k], evs[k].before);
      StopCounts(evs[k]);
      EffectSound(evs[k]);
    }
  }

  // ---- a pass that hangs started from such a table ----

  /** A clean promotion: as many starts as primaries were missing. */
  lemma CleanPromotion(v: View, s: Stage, primaries: nat)
    requires PromotePass(v, s, primaries, true) && Inv(v)
    ensures Inv(s.after) && var c, d, up := CountsOf(v), CountsOf(s.after), Max(0, primaries - |Live(v)|);
      && d.live == c.live + up && d.busy == c.busy + up && d.candidates == c.candidates - up && d.again >= c.again - up
    ensures |Live(v)| >= primaries ==> s.after == v
  {
    PhaseHistory(Promotion(primaries), v, s.evs, s.after);
    PromotionFacts(primaries, v, s.evs, s.after);
    PromotionCounts(primaries, v, s.evs, s.after);
  }

  /** A clean demotion: as many stops as there were surplus primaries. */
  lemma CleanDemotion(v: View, s: Stage, primaries: nat)
    requires DemotePass(v, s, primaries, true) && Inv(v) && |Live(v)| >= primaries
    ensures var c, d, down := CountsOf(v), CountsOf(s.after), |Live(v)| - primaries;
      d.busy == c.busy - down && d.again == c.again && d.candidates == c.candidates + down && c.healthy >= down
  {
    DemotionFacts(primaries, v, s.evs, s.after);
    DemotionCounts(primaries, v, s.evs, s.after);
  }

  lemma HungScaling(v: View, promote: Stage, demote: Stage, replicas: nat, primaries: nat)
    requires Inv(v) && PromotePass(v, promote, primaries, true) && DemotePass(promote.after, demote, primaries, true)
    requires MayDiverge(demote.after, replicas)
    ensures ScalingMayHang(v, replicas, primaries)
  {
    CleanPromotion(v, promote, primaries);
    CleanDemotion(promote.after, demote, primaries);
    DivergesByCount(demote.after, replicas);
    assert |Candidates(demote.after)| > 0;
  }

  /** No seeding creates a risk that was not there. */
  lemma SeedingAddsNoRisk(c: Counts, d: Counts, replicas: nat, primaries: nat)
    requires c.live == 0 && d.live == 1 && d.busy >= c.busy + 1 && d.candidates < c.candidates
    requires d.busy + d.again >= c.busy + c.again && d.ScalingRisk(replicas, primaries)
    ensures c.PassRisk(replicas, primaries)
  {
  }

  lemma HungSeeding(v: View, order: seq<string>, seed: Stage, replicas: nat, primaries: nat)
    requires SeedPass(v, order, seed) && Live(seed.after) != {} && ScalingMayHang(seed.after, replicas, primaries)
    ensures CountsOf(v).PassRisk(replicas, primaries)
  {
    if Live(v) == {} {
      var seeds := ScanSeeds(v, order);
      SeedingCounts(seeds, v, seed.evs, seed.after);
      assert |Live(seed.after)| == 1;
      SeedingAddsNoRisk(CountsOf(v), CountsOf(seed.after), replicas, primaries);
    } else {
      assert |Live(v)| > 0;
    }
  }

  lemma DetectionIrrelevant(v: View, detect: Stage, replicas: nat, primaries: nat)
    requires Did(Detection, v, detect)
    ensures MayHang(detect.after, replicas, primaries) <==> MayHang(v, replicas, primaries)
    ensures Waiting(detect.after, replicas) <==> Waiting(v, replicas)
    ensures Live(detect.after) == Live(v)
  {
    var idle := Stage([], detect.after);
    var log := ReplicateLog(v, detect, [], idle, ScaleLog(idle, false, idle, false, idle, true, false), [], idle);
    DetectKeepsCounts(log);
    BySets(v);
    BySets(detect.after);
  }

  lemma BySets(v: View)
    ensures Busy(v) == Members(v) - Candidates(v) && Restartable(v) == Members(v) * Candidates(v)
  {
  }

  lemma HungLead(v: View, l: Lead, replicas: nat, primaries: nat)
    requires Inv(v) && LeadsUp(v, l, replicas, primaries) && MayDiverge(l.demote.after, replicas)
    ensures MayHang(v, replicas, primaries)
  {
    DetectionIrrelevant(v, l.detect, replicas, primaries);
    DidHistory(Detection, v, l.detect);
    if Live(l.detect.after) == {} {
      DidHistory(Seeding(ScanSeeds(l.detect.after, l.order)), l.detect.after, l.seed);
    }
    HungScaling(l.seed.after, l.promote, l.demote, replicas, primaries);
    HungSeeding(l.detect.after, l.order, l.seed, replicas, primaries);
  }

  /** A pass that has not returned started from a table on which it may hang. */
  lemma HungPass(log: ReplicateLog, replicas: nat, primaries: nat, clean: bool)
    requires ReplicatePass(log, replicas, primaries, clean) && Inv(log.before) && !log.scale.done
    ensures MayHang(log.before, replicas, primaries)
  {
    var l := Lead(log.detect, log.order, log.seed, log.scale.promote, log.scale.demote);
    HungLead(log.before, l, replicas, primaries);
  }

  // ---- and from every such table some pass hangs ----

  /** Candidates that run have higher numbers than those that do not. */
  ghost predicate RunningFirst(v: View) {
    forall a, b | a in Candidates(v) && b in Candidates(v) && v[a].running && !v[b].running :: v[a].sequence > v[b].sequence
  }

  /** The candidate runs if some candidate does. */
  ghost predicate UsedFirst(v: View, t: string) { Restartable(v) != {} ==> t in Restartable(v) }

  /** The documented choice exists and is possible; it runs if some candidate does. */
  lemma Choice(v: View) returns (t: string)
    requires Candidates(v) != {} && RunningFirst(v)
    ensures MostRecent(v, t) && Choosable(v, t) && UsedFirst(v, t)
  {
    var order := OrderExists(v.Keys);
    SeedsAreSound(v, order);
    var best := set n | n in Candidates(v) && MostRecent(v, n);
    assert ScanSeeds(v, order)[0] in best;
    t := Choices.FirstName(best);
    var init, last := OrderEndingWith(v.Keys, t);
    LastIsChosen(v, init, t, best);
    assert ScanMember(v, last) == Some(t);
    if r :| r in Restartable(v) { assert v[r].sequence <= v[t].sequence; }
  }

  /** A most recent candidate that is named first among its equals wins if it is met last. */
  lemma LastIsChosen(v: View, init: seq<string>, t: string, best: set<string>)
    requires (forall n | n in init + [t] :: n in v) && t in best && t !in init
    requires forall n :: n in best <==> n in Candidates(v) && MostRecent(v, n)
    requires forall n | n in best :: !Less(n, t)
    ensures ScanMember(v, init + [t]) == Some(t)
  {
    assert (init + [t])[..|init|] == init;
    assert forall n | n in init :: n in init + [t];
    var r := ScanMember(v, init);
    if r.Some? {
      assert r.value in Candidates(v);
      LessTotal(r.value, t);
      if v[r.value].sequence == v[t].sequence { assert MostRecent(v, r.value); }
    }
  }

  // ---- detection ----

  /** The numbers that put running candidates first. */
  ghost function Ranked(s: State): State {
    if s.online then s.(sequence := if s.running then 1 else 0) else s
  }

  lemma OneAndZero(last: nat)
    ensures Reported(last, Some("1")) == 1 && Reported(last, Some("0")) == 0
  {
    assert "" + "1" + "" == "1" && "" + "0" + "" == "0";
    ReportRead(last, "", "1", "");
    ReportRead(last, "", "0", "");
  }

  /** Some detection of one member reports its rank. */
  lemma RankOne(v: View, n: string) returns (evs: seq<Event>)
    requires Inv(v) && n in v
    ensures Phase(Detection, v, evs, v[n := Ranked(v[n])]) && Inv(v[n := Ranked(v[n])])
    ensures DetectedTo(v[n], Ranked(v[n]), n, evs)
  {
    if v[n].online {
      var e := Sequenced(n, Some(if v[n].running then "1" else "0"), v);
      OneAndZero(v[n].sequence);
      OneCommand(Detection, e);
      evs := [e];
      assert e in evs;
    } else {
      evs := [];
      assert v[n := v[n]] == v;
    }
  }

  /** The first `i` members have been ranked. */
  ghost predicate RankedUpTo(order: seq<string>, i: nat, v0: View, v: View) {
    v.Keys == v0.Keys && forall j | 0 <= j < |order| && order[j] in v0 ::
      v[order[j]] == if j < i then Ranked(v0[order[j]]) else v0[order[j]]
  }

  lemma RankTurn(order: seq<string>, i: nat, v0: View, v: View)
    requires IsOrder(order, v0.Keys) && i < |order|
    ensures RankedUpTo(order, i, v0, v) ==> RankedUpTo(order, i + 1, v0, v[order[i] := Ranked(v0[order[i]])])
  {
    assert forall j | 0 <= j < |order| && j != i :: order[j] != order[i];
  }

  lemma {:induction false} RankUpTo(v0: View, order: seq<string>, i: nat) returns (evs: seq<Event>, v: View)
    requires Inv(v0) && IsOrder(order, v0.Keys) && i <= |order|
    ensures Phase(Detection, v0, evs, v) && Inv(v) && DetectedUpTo(order, i, v0, v, evs) && RankedUpTo(order, i, v0, v)
  {
    if i == 0 {
      evs, v := [], v0;
    } else {
      var k := i - 1;
      var before, w := RankUpTo(v0, order, k);
      var n := order[k];
      assert n in order;
      assert w[n] == v0[n];
      var more := RankOne(w, n);
      v := w[n := Ranked(w[n])];
      DetectTurn(order, k, v0, w, Ranked(w[n]), before, more);
      RankTurn(order, k, v0, w);
      PhaseConcat(Detection, v0, before, w, more, v);
      evs := before + more;
    }
  }

  /** Some detection puts running candidates first. */
  lemma RankAll(v: View, replicas: nat, primaries: nat) returns (s: Stage)
    requires Inv(v) && (|Live(v)| != primaries || |Members(v)| != replicas)
    ensures DetectPass(v, s, replicas, primaries) && Inv(s.after) && RunningFirst(s.after)
  {
    var order := OrderExists(v.Keys);
    var evs, w := RankUpTo(v, order, |order|);
    s := Stage(evs, w);
    forall n | n in v ensures n in w && w[n] == Ranked(v[n]) && DetectedTo(v[n], w[n], n, evs) {
      assert n in order;
    }
  }

  // ---- seeding ----

  lemma StillRunningFirst(v: View, w: View)
    requires OnlyCandidatesTouched(v, w) && RunningFirst(v) && Candidates(w) <= Candidates(v)
    requires forall n | n in Candidates(w) :: w[n] == v[n]
    ensures RunningFirst(w)
  {
  }

  lemma UsedSize(e: Event)
    requires PrimaryStart(e) && Lawful(e) && UsedFirst(e.before, e.target)
    ensures |Restartable(Effect(e))| == Max(0, |Restartable(e.before)| - 1)
  {
    PrimaryStartCounts(e);
  }

  /** A successful start of such a choice. */
  lemma GoodStart(e: Event)
    requires PrimaryStart(e) && e.ok && Lawful(e) && RunningFirst(e.before) && UsedFirst(e.before, e.target)
    ensures var v, w := e.before, Effect(e);
      && RunningFirst(w) && e.target in Demotable(w) && |Live(w)| == |Live(v)| + 1
      && |Busy(w)| == |Busy(v)| + 1 && |Candidates(w)| == |Candidates(v)| - 1
      && |Restartable(w)| == Max(0, |Restartable(v)| - 1)
  {
    PrimaryStartSizes(e);
    UsedSize(e);
    StartedIsHealthy(e);
    StartStep(e);
    StillRunningFirst(e.before, Effect(e));
  }

  lemma StartedIsHealthy(e: Event)
    requires PrimaryStart(e) && e.ok && Lawful(e)
    ensures e.target in Demotable(Effect(e))
  {
  }

  /** Some map order makes a most recent candidate the first seed. */
  lemma SeedFirst(v: View, t: string) returns (order: seq<string>)
    requires MostRecent(v, t)
    ensures IsOrder(order, v.Keys) && ScanSeeds(v, order) != [] && ScanSeeds(v, order)[0] == t
  {
    FirstSeedExact(v, t);
    order :| IsOrder(order, v.Keys) && ScanSeeds(v, order) != [] && ScanSeeds(v, order)[0] == t;
  }

  /** Some seeding starts a restartable member, if there is one, and succeeds at once. */
  lemma SeedOne(v: View) returns (order: seq<string>, s: Stage)
    requires Inv(v) && Live(v) == {} && Candidates(v) != {} && RunningFirst(v)
    ensures SeedPass(v, order, s) && Inv(s.after) && RunningFirst(s.after) && |Live(s.after)| == 1
    ensures |Busy(s.after)| == |Busy(v)| + 1 && |Candidates(s.after)| == |Candidates(v)| - 1
    ensures |Restartable(s.after)| == Max(0, |Restartable(v)| - 1) && |Demotable(s.after)| >= 1
  {
    var t := Choice(v);
    var e := Started(t, PrimaryCommand, true, [], true, v);
    s := Stage([e], Effect(e));
    assert |Live(v)| == 0;
    GoodStart(e);
    order := SeedFirst(v, t);
    SeedsWith(v, order, e);
  }

  lemma SeedsWith(v: View, order: seq<string>, e: Event)
    requires Inv(v) && Live(v) == {} && IsOrder(order, v.Keys) && ScanSeeds(v, order) != []
    requires e == Started(ScanSeeds(v, order)[0], PrimaryCommand, true, [], true, v) && Live(Effect(e)) != {}
    ensures SeedPass(v, order, Stage([e], Effect(e))) && Inv(Effect(e))
  {
    SeedsAreSound(v, order);
    OneCommand(Seeding(ScanSeeds(v, order)), e);
  }

  // ---- promotion and demotion ----

  /** One more successful promotion is possible, of a restartable member if there is one. */
  lemma PromoteOne(v: View, target: nat, k: nat) returns (e: Event, again: nat)
    requires Inv(v) && RunningFirst(v) && 0 < |Live(v)| < target && Candidates(v) != {}
    ensures e.before == v && Obeys(Promotion(target), k, e) && Succeeded(e) && RunningFirst(Effect(e))
    ensures again == |Restartable(Effect(e))| == Max(0, |Restartable(v)| - 1)
  {
    var t := Choice(v);
    var hosts := OrderExists(Live(v));
    e := Started(t, PrimaryCommand, true, hosts, true, v);
    GoodStart(e);
    again := |Restartable(Effect(e))|;
  }

  /** Some `k` successful promotions use up restartable members first. */
  lemma {:induction false} PromoteMany(v0: View, target: nat, k: nat) returns (evs: seq<Event>, v: View, again: nat)
    requires Inv(v0) && RunningFirst(v0) && Live(v0) != {} && |Live(v0)| + k <= target && k <= |Candidates(v0)|
    ensures Phase(Promotion(target), v0, evs, v) && |evs| == k && AllOk(evs) && Inv(v) && RunningFirst(v)
    ensures again == |Restartable(v)| && again == Max(0, |Restartable(v0)| - k)
  {
    if k == 0 {
      evs, v, again := [], v0, |Restartable(v0)|;
    } else {
      var before, w, left := PromoteMany(v0, target, k - 1);
      assert 0 < |Live(w)| < target && |Candidates(w)| > 0 by { PromotionCounts(target, v0, before, w); }
      var e, fewer := PromoteOne(w, target, |before|);
      Turn(Promotion(target), v0, before, w, e);
      evs, v, again := before + [e], Effect(e), fewer;
    }
  }

  /** Some `k` successful demotions. */
  lemma {:induction false} DemoteMany(v0: View, target: nat, k: nat) returns (evs: seq<Event>, v: View)
    requires Inv(v0) && target + k <= |Live(v0)| && k <= |Demotable(v0)|
    ensures Phase(Demotion(target), v0, evs, v) && |evs| == k && AllOk(evs)
  {
    if k == 0 {
      evs, v := [], v0;
    } else {
      var before, w := DemoteMany(v0, target, k - 1);
      DemotionCounts(target, v0, before, w);
      var order := OrderExists(w.Keys);
      DemotionIsDeterministic(w, order);
      var e := Stopped(ScanPrimary(w, order).value, false, true, w);
      Turn(Demotion(target), v0, before, w, e);
      evs, v := before + [e], Effect(e);
    }
  }

  /** Everything after seeding, up to a table on which the secondary loop can diverge. */
  lemma ScalingHangs(v: View, replicas: nat, primaries: nat) returns (promote: Stage, demote: Stage)
    requires Inv(v) && RunningFirst(v) && Live(v) != {} && ScalingMayHang(v, replicas, primaries)
    ensures PromotePass(v, promote, primaries, true) && DemotePass(promote.after, demote, primaries, true)
    ensures MayDiverge(demote.after, replicas)
  {
    var up, down := Max(0, primaries - |Live(v)|), Max(0, |Live(v)| - primaries);
    var pevs, p, _ := PromoteMany(v, Max(primaries, |Live(v)|), up);
    PromotionCounts(Max(primaries, |Live(v)|), v, pevs, p);
    var devs, d := DemoteMany(p, primaries, down);
    DemotionCounts(primaries, p, devs, d);
    promote, demote := Stage(pevs, p), Stage(devs, d);
    DivergesByCount(d, replicas);
    assert Ran(Promotion(primaries), v, promote) by {
      if up == 0 { assert pevs == []; }
    }
  }

  // ---- the whole pass ----

  lemma MembersBySize(v: View)
    ensures |Members(v)| == |Busy(v)| + |Restartable(v)|
  {
    assert Members(v) == Busy(v) + Restartable(v) && Busy(v) !! Restartable(v);
  }

  /** If the pass may hang without detecting first, everybody runs. */
  lemma AllRun(v: View, replicas: nat, primaries: nat)
    requires MayHang(v, replicas, primaries) && |Live(v)| == primaries && |Members(v)| == replicas
    ensures RunningFirst(v)
  {
    MembersBySize(v);
    assert Live(v) == {} && |Active(v)| == replicas;
    SubsetSize(Members(v), Active(v));
    assert Candidates(v) <= Members(v);
  }

  /** Some detection, or none if none is due, after which running candidates come first. */
  lemma DetectFirst(v: View, replicas: nat, primaries: nat) returns (s: Stage)
    requires Inv(v) && MayHang(v, replicas, primaries)
    ensures DetectPass(v, s, replicas, primaries) && Did(Detection, v, s) && Inv(s.after) && RunningFirst(s.after)
  {
    if |Live(v)| != primaries || |Members(v)| != replicas {
      s := RankAll(v, replicas, primaries);
    } else {
      AllRun(v, replicas, primaries);
      s := Stage([], v);
    }
  }

  /** A seeding that uses up a restartable member keeps the risk. */
  lemma GoodSeedKeepsRisk(c: Counts, d: Counts, replicas: nat, primaries: nat)
    requires c.PassRisk(replicas, primaries) && c.live == 0 && d.live == 1 && d.healthy >= 1
    requires d.busy == c.busy + 1 && d.candidates == c.candidates - 1 && d.again == Max(0, c.again - 1)
    ensures d.ScalingRisk(replicas, primaries)
  {
  }

  /** Some seeding, or none if none is due, that keeps the rest of the pass in danger. */
  lemma SeedNext(v: View, replicas: nat, primaries: nat) returns (order: seq<string>, s: Stage)
    requires Inv(v) && MayHang(v, replicas, primaries) && RunningFirst(v)
    ensures SeedPass(v, order, s) && Inv(s.after) && RunningFirst(s.after)
    ensures Live(s.after) != {} && ScalingMayHang(s.after, replicas, primaries)
  {
    if Live(v) == {} {
      assert |Live(v)| == 0;
      order, s := SeedOne(v);
      GoodSeedKeepsRisk(CountsOf(v), CountsOf(s.after), replicas, primaries);
    } else {
      assert |Live(v)| > 0;
      order, s := [], Stage([], v);
    }
  }

  lemma LeadExists(v: View, replicas: nat, primaries: nat) returns (l: Lead)
    requires Inv(v) && MayHang(v, replicas, primaries)
    ensures LeadsUp(v, l, replicas, primaries) && MayDiverge(l.demote.after, replicas)
  {
    var detect := DetectFirst(v, replicas, primaries);
    DetectionIrrelevant(v, detect, replicas, primaries);
    var order, seed := SeedNext(detect.after, replicas, primaries);
    var promote, demote := ScalingHangs(seed.after, replicas, primaries);
    l := Lead(detect, order, seed, promote, demote);
  }

  /** From a sound table, some replicate pass goes on forever if and only if `MayHang` holds
      of that table and the wanted numbers. */
  lemma HangExact(v: View, replicas: nat, primaries: nat)
    requires Inv(v)
    ensures (exists l: Lead, f: nat -> View :: Hangs(v, l, f, replicas, primaries)) <==> MayHang(v, replicas, primaries)
  {
    if MayHang(v, replicas, primaries) {
      var l := LeadExists(v, replicas, primaries);
      var f := Diverges(l.demote.after, replicas);
      assert Hangs(v, l, f, replicas, primaries);
    }
    forall l: Lead, f: nat -> View | Hangs(v, l, f, replicas, primaries) ensures MayHang(v, replicas, primaries) {
      DivergenceExact(l.demote.after, replicas);
      HungLead(v, l, replicas, primaries);
    }
  }

  /** If every replica is to be a primary, every pass returns. */
  lemma AllPrimariesReturn(v: View, replicas: nat)
    requires Inv(v)
    ensures !MayHang(v, replicas, replicas)
  {
    SubsetSize(Live(v), Busy(v));
    CountOrder(v);
  }
}
