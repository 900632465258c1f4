/** What each phase of a reconcile or replicate pass may do: which commands it may
    issue in which table, and what follows for the table it leaves behind. */
module Phases {
  import opened Views
  import opened Events
  import opened Selection

  predicate Succeeded(e: Event) {
    e.Started? || e.Stopped? || e.Deleted? ==> e.ok
  }

  predicate AllOk(evs: seq<Event>) {
    evs == [] || (AllOk(evs[..|evs| - 1]) && Succeeded(evs[|evs| - 1]))
  }

  lemma AllOkStep(evs: seq<Event>, e: Event)
    ensures AllOk(evs + [e]) <==> AllOk(evs) && Succeeded(e)
  {
    assert (evs + [e])[..|evs|] == evs;
  }

  lemma {:induction false} AllOkConcat(a: seq<Event>, b: seq<Event>)
    ensures AllOk(a + b) <==> AllOk(a) && AllOk(b)
  {
    if b == [] {
      assert a + b == a;
    } else {
      var k := |b| - 1;
      AllOkConcat(a, b[..k]);
      assert (a + b)[..|a + b| - 1] == a + b[..k];
    }
  }

  predicate PrimaryStart(e: Event) { e.Started? && e.asPrimary }

  /** A primary start that found no live primary. */
  predicate Cold(e: Event) { PrimaryStart(e) && Live(e.before) == {} }

  /** Once a primary start has succeeded no later one finds the cluster without a
      live primary; in particular at most one cold start succeeds. */
  ghost predicate OneBootstrap(evs: seq<Event>) {
    forall i, j | 0 <= i < j < |evs| && PrimaryStart(evs[i]) && evs[i].ok :: !Cold(evs[j])
  }

  /** A primary start that finds no live primary finds exactly the wanted pods online. */
  ghost predicate ColdAtFull(evs: seq<Event>, replicas: nat) {
    forall i | 0 <= i < |evs| && Cold(evs[i]) :: |Active(evs[i].before)| == replicas
  }

  ghost predicate NoneCold(evs: seq<Event>) {
    forall i | 0 <= i < |evs| :: !Cold(evs[i])
  }

  datatype Rule =
    | Detection
    | Seeding(seeds: seq<string>)
    | Promotion(target: nat)
    | Demotion(target: nat)
    | Assistance(target: nat)
    | Cleanup
    | Probing

  /** May the phase issue `e` as its command number `k`? */
  ghost predicate Obeys(rule: Rule, k: nat, e: Event) {
    Lawful(e) &&
    match rule
    case Detection => e.Sequenced?
    case Seeding(seeds) => Cold(e) && k < |seeds| && e.target == seeds[k]
    case Promotion(target) => PrimaryStart(e) && 0 < |Live(e.before)| < target && Choosable(e.before, e.target)
    case Demotion(target) =>
      e.Stopped? && !e.cleanup && |Live(e.before)| > target && LastNamed(e.target, Demotable(e.before))
    case Assistance(target) =>
      e.Started? && !e.asPrimary && |Members(e.before)| < target && Choosable(e.before, e.target)
    case Cleanup => (e.Stopped? && e.cleanup) || e.Deleted?
    case Probing => e.Probed?
  }

  /** `evs` is a history from `v0` to `v` in which every command obeys the rule. */
  ghost predicate Phase(rule: Rule, v0: View, evs: seq<Event>, v: View) {
    Leads(v0, evs, v) && forall i | 0 <= i < |evs| :: Obeys(rule, i, evs[i])
  }

  /** A lawful history between sound tables: what every phase produces. */
  ghost predicate History(v: View, evs: seq<Event>, w: View) {
    Leads(v, evs, w) && AllLawful(evs) && Inv(v) && Inv(w)
  }

  lemma HistoryConcat(v0: View, a: seq<Event>, v1: View, b: seq<Event>, v2: View)
    requires History(v0, a, v1) && History(v1, b, v2)
    ensures History(v0, a + b, v2)
  {
    LeadsConcat(v0, a, v1, b, v2);
    AllLawfulConcat(a, b);
  }

  lemma PhaseHistory(rule: Rule, v0: View, evs: seq<Event>, v: View)
    requires Phase(rule, v0, evs, v) && Inv(v0)
    ensures History(v0, evs, v)
  {
    assert forall i | 0 <= i < |evs| :: Obeys(rule, i, evs[i]);
    RunInvariant(v0, evs, v);
  }

  lemma PhaseInit(rule: Rule, v0: View, evs: seq<Event>, v: View)
    requires Phase(rule, v0, evs, v) && evs != []
    ensures var k := |evs| - 1;
      Phase(rule, v0, evs[..k], evs[k].before) && Obeys(rule, k, evs[k]) && v == Effect(evs[k])
  {
    var k := |evs| - 1;
    assert forall i | 0 <= i < k :: evs[i] == evs[..k][i];
  }

  lemma PhasePrefix(rule: Rule, v0: View, evs: seq<Event>, v: View, k: nat)
    requires Phase(rule, v0, evs, v) && k < |evs|
    ensures Phase(rule, v0, evs[..k], evs[k].before)
  {
    LeadsPrefix(v0, evs, v, k);
  }

  // ---- one command at a time ----

  ghost predicate SamePods(v: View, w: View) {
    v.Keys == w.Keys && forall n | n in v :: w[n].online == v[n].online
  }

  ghost predicate OnlyCandidatesTouched(v: View, w: View) {
    SamePods(v, w) && forall n | n in v && !IsCandidate(v[n]) :: w[n] == v[n]
  }

  lemma StartStep(e: Event)
    requires e.Started? && Lawful(e)
    ensures var v, w := e.before, Effect(e);
      && OnlyCandidatesTouched(v, w) && Active(w) == Active(v)
      && Live(w) == (if e.ok && e.asPrimary then Live(v) + {e.target} else Live(v))
      && e.target !in Live(v)
      && Members(w) == (if e.ok then Members(v) + {e.target} else Members(v))
      && Candidates(w) == (if e.ok && !e.asPrimary then Candidates(v) else Candidates(v) - {e.target})
      && e.target in Candidates(v)
      && (e.ok && NoneFailed(v) ==> NoneFailed(w))
  {
  }

  lemma DemoteStep(e: Event)
    requires e.Stopped? && !e.cleanup && Lawful(e) && Inv(e.before)
    ensures var v, w := e.before, Effect(e);
      && SamePods(v, w) && Active(w) == Active(v)
      && (forall n | n in v && n != e.target :: w[n] == v[n])
      && Live(w) == (if e.ok then Live(v) - {e.target} else Live(v))
      && e.target in Live(v)
      && Demotable(w) == Demotable(v) - {e.target}
      && e.target in Demotable(v)
      && (e.ok && NoneFailed(v) ==> NoneFailed(w))
  {
  }

  lemma PromotionUsesUp(e: Event)
    requires PrimaryStart(e) && Lawful(e) && Live(e.before) != {}
    ensures |Candidates(Effect(e))| < |Candidates(e.before)| && Live(Effect(e)) != {}
  {
    StartStep(e);
  }

  lemma DemotionUsesUp(e: Event)
    requires e.Stopped? && !e.cleanup && Lawful(e) && Inv(e.before)
    ensures |Demotable(Effect(e))| < |Demotable(e.before)|
  {
    DemoteStep(e);
  }

  /** One more command: the phase goes on, the table stays sound, and the measure of
      the promotion and demotion loops goes down. */
  lemma Turn(rule: Rule, v0: View, evs: seq<Event>, v: View, e: Event)
    ensures Phase(rule, v0, evs, v) && Inv(v) && e.before == v && Obeys(rule, |evs|, e) ==>
      && Phase(rule, v0, evs + [e], Effect(e)) && Inv(Effect(e))
      && (rule.Promotion? ==> |Candidates(Effect(e))| < |Candidates(v)| && Live(Effect(e)) != {})
      && (rule.Demotion? ==> |Demotable(Effect(e))| < |Demotable(v)|)
    ensures AllOk(evs + [e]) <==> AllOk(evs) && Succeeded(e)
  {
    AllOkStep(evs, e);
    if Phase(rule, v0, evs, v) && Inv(v) && e.before == v && Obeys(rule, |evs|, e) {
      LeadsStep(v0, evs, v, e);
      EffectSound(e);
      if rule.Promotion? { PromotionUsesUp(e); }
      if rule.Demotion? { DemotionUsesUp(e); }
    }
  }

  /** Except for seeding, what a command may do does not depend on its number. */
  lemma PhaseConcat(rule: Rule, v0: View, a: seq<Event>, v1: View, b: seq<Event>, v2: View)
    ensures !rule.Seeding? && Phase(rule, v0, a, v1) && Phase(rule, v1, b, v2) ==> Phase(rule, v0, a + b, v2)
  {
    if !rule.Seeding? && Phase(rule, v0, a, v1) && Phase(rule, v1, b, v2) {
      LeadsConcat(v0, a, v1, b, v2);
      forall i | 0 <= i < |a + b| ensures Obeys(rule, i, (a + b)[i]) {
        if i >= |a| { assert Obeys(rule, i - |a|, b[i - |a|]); }
      }
    }
  }

  lemma OneCommand(rule: Rule, e: Event)
    ensures Inv(e.before) && Obeys(rule, 0, e) ==> Phase(rule, e.before, [e], Effect(e)) && Inv(Effect(e))
  {
    Turn(rule, e.before, [], e.before, e);
    assert [] + [e] == [e];
  }

  lemma TwoCommands(rule: Rule, e: Event, f: Event)
    ensures Inv(e.before) && Obeys(rule, 0, e) && f.before == Effect(e) && Obeys(rule, 1, f) ==>
      Phase(rule, e.before, [e, f], Effect(f)) && Inv(Effect(f))
  {
    OneCommand(rule, e);
    Turn(rule, e.before, [e], f.before, f);
    assert [e] + [f] == [e, f];
  }

  // ---- detectMembers ----

  /** Detection rewrites sequence numbers and nothing else. */
  lemma {:induction false} DetectionFacts(v0: View, evs: seq<Event>, v: View)
    requires Phase(Detection, v0, evs, v)
    ensures SamePods(v0, v)
    ensures forall n | n in v0 :: v[n] == v0[n].(sequence := v[n].sequence)
    ensures NoneCold(evs) && AllOk(evs)
  {
    if evs != [] {
      var k := |evs| - 1;
      PhaseInit(Detection, v0, evs, v);
      DetectionFacts(v0, evs[..k], evs[k].before);
    }
  }

  /** Every online member is asked, and takes over the number it reports. */
  ghost predicate DetectedTo(s: State, t: State, n: string, evs: seq<Event>) {
    if !s.online then t == s
    else exists e :: e in evs && e.Sequenced? && e.target == n && t == s.(sequence := Reported(s.sequence, e.report))
  }

  /** The first `i` members in the order have been asked, the others not yet touched. */
  ghost predicate DetectedUpTo(order: seq<string>, i: nat, v0: View, v: View, evs: seq<Event>) {
    v.Keys == v0.Keys && forall j | 0 <= j < |order| && order[j] in v0 ::
      if j < i then DetectedTo(v0[order[j]], v[order[j]], order[j], evs) else v[order[j]] == v0[order[j]]
  }

  lemma DetectedMore(s: State, t: State, n: string, a: seq<Event>, b: seq<Event>)
    ensures DetectedTo(s, t, n, a) || DetectedTo(s, t, n, b) ==> DetectedTo(s, t, n, a + b)
  {
  }

  lemma DetectTurn(order: seq<string>, i: nat, v0: View, v: View, t: State, evs: seq<Event>, more: seq<Event>)
    requires IsOrder(order, v0.Keys) && i < |order|
    ensures DetectedUpTo(order, i, v0, v, evs) && DetectedTo(v[order[i]], t, order[i], more) ==>
      DetectedUpTo(order, i + 1, v0, v[order[i] := t], evs + more)
  {
    var w := v[order[i] := t];
    if DetectedUpTo(order, i, v0, v, evs) && DetectedTo(v[order[i]], t, order[i], more) {
      forall j | 0 <= j < |order|
        ensures if j < i + 1 then DetectedTo(v0[order[j]], w[order[j]], order[j], evs + more) else w[order[j]] == v0[order[j]]
      {
        assert j != i ==> order[j] != order[i];
        DetectedMore(v0[order[j]], w[order[j]], order[j], evs, more);
      }
    }
  }

  lemma DetectionCounts(v: View, evs: seq<Event>, w: View)
    ensures Phase(Detection, v, evs, w) ==>
      && Active(w) == Active(v) && Members(w) == Members(v) && Live(w) == Live(v)
      && Candidates(w) == Candidates(v) && (NoneFailed(v) ==> NoneFailed(w))
  {
    if Phase(Detection, v, evs, w) { DetectionFacts(v, evs, w); }
  }

  // ---- seeding ----

  /** Each seed tried drops out of the candidates, and nobody else does. */
  lemma {:induction false} SeedingCandidates(seeds: seq<string>, v0: View, evs: seq<Event>, v: View)
    requires Phase(Seeding(seeds), v0, evs, v)
    ensures |evs| <= |seeds| && OnlyCandidatesTouched(v0, v)
    ensures forall n | n in Candidates(v0) :: n in Candidates(v) <==> n !in seeds[..|evs|]
  {
    if evs != [] {
      var k := |evs| - 1;
      PhaseInit(Seeding(seeds), v0, evs, v);
      SeedingCandidates(seeds, v0, evs[..k], evs[k].before);
      StartStep(evs[k]);
      TakeNext(seeds, k);
    }
  }

  /** Every seed is tried with the same pods online. */
  lemma SeedingKeepsPods(seeds: seq<string>, v0: View, evs: seq<Event>, v: View, k: nat)
    requires Phase(Seeding(seeds), v0, evs, v) && k < |evs|
    ensures Active(evs[k].before) == Active(v0)
  {
    PhasePrefix(Seeding(seeds), v0, evs, v, k);
    SeedingCandidates(seeds, v0, evs[..k], evs[k].before);
  }

  lemma TakeNext(s: seq<string>, k: nat)
    requires k < |s|
    ensures s[..k + 1] == s[..k] + [s[k]]
  {
  }

  lemma ColdStep(e: Event)
    requires Cold(e) && Lawful(e)
    ensures |Live(Effect(e))| == if e.ok then 1 else 0
    ensures e.ok && NoneFailed(e.before) ==> NoneFailed(Effect(e))
  {
    StartStep(e);
    if e.ok { assert Live(Effect(e)) == {e.target}; }
  }

  /** Seeds are tried in the listed order; all but the last have failed, and the last
      succeeded exactly when there is now a live primary. */
  lemma {:induction false} SeedingFacts(seeds: seq<string>, v0: View, evs: seq<Event>, v: View)
    requires Phase(Seeding(seeds), v0, evs, v) && Live(v0) == {}
    ensures |Live(v)| == if evs != [] && Succeeded(evs[|evs| - 1]) then 1 else 0
    ensures NoneFailed(v0) && AllOk(evs) ==> NoneFailed(v)
    ensures forall i | 0 <= i < |evs| - 1 :: !Succeeded(evs[i])
  {
    if evs != [] {
      var k := |evs| - 1;
      var e := evs[k];
      PhaseInit(Seeding(seeds), v0, evs, v);
      SeedingFacts(seeds, v0, evs[..k], e.before);
      ColdStep(e);
      if k > 0 { assert !Succeeded(evs[..k][k - 1]); }
      assert forall i | 0 <= i < k :: evs[i] == evs[..k][i];
    }
  }

  /** The next seed on the list is still a candidate. */
  lemma NextSeed(seeds: seq<string>, v0: View, evs: seq<Event>, v: View)
    requires forall i, j | 0 <= i < j < |seeds| :: seeds[i] != seeds[j]
    requires forall n | n in seeds :: n in Candidates(v0)
    ensures Phase(Seeding(seeds), v0, evs, v) && Live(v0) == {} && |evs| < |seeds| ==>
      seeds[|evs|] in Candidates(v)
  {
    if Phase(Seeding(seeds), v0, evs, v) && Live(v0) == {} && |evs| < |seeds| {
      SeedingCandidates(seeds, v0, evs, v);
    }
  }

  // ---- promotion ----

  /** Promotion only ever adds primaries, never exceeds its target, and touches
      nobody but candidates. */
  lemma {:induction false} PromotionFacts(target: nat, v0: View, evs: seq<Event>, v: View)
    requires Phase(Promotion(target), v0, evs, v)
    ensures OnlyCandidatesTouched(v0, v) && Active(v) == Active(v0)
    ensures Live(v0) <= Live(v)
    ensures |Live(v0)| >= target ==> evs == []
    ensures |Live(v0)| <= target ==> |Live(v)| <= target
    ensures NoneFailed(v0) && AllOk(evs) ==> NoneFailed(v)
  {
    if evs != [] {
      var k := |evs| - 1;
      var e := evs[k];
      PhaseInit(Promotion(target), v0, evs, v);
      PromotionFacts(target, v0, evs[..k], e.before);
      StartStep(e);
      if |Live(v0)| >= target { SubsetSize(Live(v0), Live(e.before)); }
    }
  }

  // ---- demotion ----

  /** Demotion never drops below its target and touches nobody but live primaries. */
  lemma {:induction false} DemotionFacts(target: nat, v0: View, evs: seq<Event>, v: View)
    requires Phase(Demotion(target), v0, evs, v) && Inv(v0)
    ensures Inv(v) && SamePods(v0, v) && Active(v) == Active(v0)
    ensures forall n | n in v0 && n !in Live(v0) :: v[n] == v0[n]
    ensures Live(v) <= Live(v0)
    ensures |Live(v0)| <= target ==> evs == []
    ensures |Live(v0)| >= target ==> |Live(v)| >= target
    ensures NoneFailed(v0) && AllOk(evs) ==> NoneFailed(v)
  {
    if evs != [] {
      var k := |evs| - 1;
      var e := evs[k];
      PhaseInit(Demotion(target), v0, evs, v);
      DemotionFacts(target, v0, evs[..k], e.before);
      DemoteStep(e);
      EffectSound(e);
      SubsetSize(Live(e.before), Live(v0));
    }
  }

  // ---- secondaries ----

  /** Secondary starts leave the primaries alone and never overshoot. */
  lemma {:induction false} AssistFacts(target: nat, v0: View, evs: seq<Event>, v: View)
    requires Phase(Assistance(target), v0, evs, v)
    ensures OnlyCandidatesTouched(v0, v) && Active(v) == Active(v0)
    ensures Live(v) == Live(v0) && Members(v0) <= Members(v)
    ensures |Members(v0)| >= target ==> evs == []
    ensures |Members(v0)| <= target ==> |Members(v)| <= target
    ensures NoneFailed(v0) && AllOk(evs) ==> NoneFailed(v)
  {
    if evs != [] {
      var k := |evs| - 1;
      var e := evs[k];
      PhaseInit(Assistance(target), v0, evs, v);
      AssistFacts(target, v0, evs[..k], e.before);
      StartStep(e);
      if |Members(v0)| >= target { SubsetSize(Members(v0), Members(e.before)); }
    }
  }

  // ---- recovery ----

  /** What recovery may make of one record. */
  predicate RecoveredTo(s: State, t: State) {
    if !s.failed then t == s
    else if s.failures > 1 then t == s || t == Offlined(s)
    else t == AfterStop(s, true) || t == Failing(s) || t == Offlined(Failing(s))
  }

  predicate CleanedUp(s: State, t: State) {
    s.failed ==> s.failures <= 1 && t == AfterStop(s, true)
  }

  ghost predicate StopSent(evs: seq<Event>, n: string, ok: bool) {
    exists e :: e in evs && e.Stopped? && e.target == n && e.ok == ok
  }

  ghost predicate DeleteSent(evs: seq<Event>, n: string, ok: bool) {
    exists e :: e in evs && e.Deleted? && e.target == n && e.ok == ok
  }

  /** A failed member is stopped, and deleted if that fails; after repeated failures it is
      deleted at once.  The record `t` it ends up with tells the outcomes apart. */
  ghost predicate Answered(s: State, t: State, n: string, evs: seq<Event>) {
    s.failed ==>
      if s.failures > 1 then DeleteSent(evs, n, !t.failed)
      else if t.failures == s.failures then StopSent(evs, n, true)
      else StopSent(evs, n, false) && DeleteSent(evs, n, !t.failed)
  }

  lemma AnsweredMore(s: State, t: State, n: string, a: seq<Event>, b: seq<Event>)
    ensures Answered(s, t, n, a) || Answered(s, t, n, b) ==> Answered(s, t, n, a + b)
  {
  }

  /** The first `i` records in the order have been recovered, the others not yet touched. */
  ghost predicate RecoveredUpTo(order: seq<string>, i: nat, v0: View, v: View, evs: seq<Event>) {
    v.Keys == v0.Keys && forall j | 0 <= j < |order| && order[j] in v0 ::
      if j < i then RecoveredTo(v0[order[j]], v[order[j]]) && Answered(v0[order[j]], v[order[j]], order[j], evs)
      else v[order[j]] == v0[order[j]]
  }

  ghost predicate CleanUpTo(order: seq<string>, i: nat, v0: View, v: View) {
    forall j | 0 <= j < i && j < |order| && order[j] in v0 && order[j] in v ::
      CleanedUp(v0[order[j]], v[order[j]])
  }

  lemma RecoverTurn(order: seq<string>, i: nat, v0: View, v: View, t: State, evs: seq<Event>, more: seq<Event>)
    requires IsOrder(order, v0.Keys) && i < |order|
    ensures RecoveredUpTo(order, i, v0, v, evs) && RecoveredTo(v[order[i]], t) && Answered(v[order[i]], t, order[i], more) ==>
      && RecoveredUpTo(order, i + 1, v0, v[order[i] := t], evs + more)
      && (CleanUpTo(order, i + 1, v0, v[order[i] := t]) <==>
            CleanUpTo(order, i, v0, v) && CleanedUp(v0[order[i]], t))
  {
    var w := v[order[i] := t];
    if RecoveredUpTo(order, i, v0, v, evs) && RecoveredTo(v[order[i]], t) && Answered(v[order[i]], t, order[i], more) {
      assert forall j | 0 <= j < |order| && j != i :: order[j] != order[i];
      assert forall j | 0 <= j < |order| && j != i :: w[order[j]] == v[order[j]];
      forall j | 0 <= j < i + 1 ensures Answered(v0[order[j]], w[order[j]], order[j], evs + more) {
        AnsweredMore(v0[order[j]], w[order[j]], order[j], evs, more);
      }
    }
  }

  // ---- probing ----

  /** The probe confirms what was recorded, or finds an application nobody had recorded. */
  predicate Quiet(s: State, code: int) {
    code == 0 || (code == 7 && !s.running) || (code == 8 && (s.running ==> s.primary))
  }

  /** Offline and failed members are not probed. */
  predicate Probeable(s: State) { s.online && !s.failed }

  predicate ProbedTo(s: State, t: State, code: int) {
    t == if Probeable(s) then AfterProbe(s, code) else s
  }

  /** The flags of a healthy online member after a probe that exited with `rc`.  An exit
      code of zero means a secondary, or a primary if there is no `secondary` command. */
  predicate FlagsAfter(s: State, t: State, rc: int, secondaries: bool) {
    && t.online == s.online && t.failures == s.failures && t.sequence == s.sequence
    && (t.running <==> rc != 7)
    && (t.failed <==> rc != 0 && rc != 7 && rc != 8)
    && (rc == 8 || (rc == 0 && !secondaries) ==> t.primary)
    && (rc == 7 || (rc == 0 && secondaries) ==> !t.primary)
    && (t.failed ==> t.primary == s.primary)
  }

  lemma FlagsByCode(s: State, t: State, rc: int, secondaries: bool)
    requires ProbedTo(s, t, Code(rc, secondaries)) && Probeable(s)
    ensures FlagsAfter(s, t, rc, secondaries)
  {
  }

  /** The member was probed and answered `code`. */
  ghost predicate Heard(evs: seq<Event>, n: string, code: int, secondaries: bool) {
    exists e :: e in evs && e.Probed? && e.target == n && e.secondaries == secondaries && Code(e.rc, secondaries) == code
  }

  /** The first members in the order have answered `codes`, the others are still untouched. */
  ghost predicate ProbedUpTo(order: seq<string>, codes: seq<int>, v0: View, v: View, evs: seq<Event>, secondaries: bool) {
    v.Keys == v0.Keys && forall j | 0 <= j < |order| && order[j] in v0 ::
      if j < |codes| then
        && ProbedTo(v0[order[j]], v[order[j]], codes[j]) && (codes[j] == 0 ==> secondaries)
        && (Probeable(v0[order[j]]) ==> Heard(evs, order[j], codes[j], secondaries))
      else v[order[j]] == v0[order[j]]
  }

  ghost predicate QuietUpTo(order: seq<string>, codes: seq<int>, v0: View) {
    forall j | 0 <= j < |codes| && j < |order| && order[j] in v0 ::
      Probeable(v0[order[j]]) ==> Quiet(v0[order[j]], codes[j])
  }

  /** Member `n`, last seen as `s`, has answered `code` in `evs`. */
  ghost predicate Visited(s: State, t: State, n: string, code: int, evs: seq<Event>, secondaries: bool) {
    ProbedTo(s, t, code) && (code == 0 ==> secondaries) && (Probeable(s) ==> Heard(evs, n, code, secondaries))
  }

  lemma ProbeTurn(order: seq<string>, codes: seq<int>, v0: View, v: View, t: State, code: int,
                  evs: seq<Event>, more: seq<Event>, secondaries: bool)
    requires IsOrder(order, v0.Keys) && |codes| < |order|
    ensures var n := order[|codes|];
      ProbedUpTo(order, codes, v0, v, evs, secondaries) && Visited(v[n], t, n, code, more, secondaries) ==>
      && v[n] == v0[n]
      && ProbedUpTo(order, codes + [code], v0, v[n := t], evs + more, secondaries)
      && (QuietUpTo(order, codes + [code], v0) <==>
            QuietUpTo(order, codes, v0) && (Probeable(v0[n]) ==> Quiet(v0[n], code)))
  {
    var i := |codes|;
    var n, w := order[i], v[order[i] := t];
    var all := codes + [code];
    if ProbedUpTo(order, codes, v0, v, evs, secondaries) && Visited(v[n], t, n, code, more, secondaries) {
      assert forall j | 0 <= j < |order| && j != i :: order[j] != n;
      assert forall j | 0 <= j < |order| && j != i :: w[order[j]] == v[order[j]];
      assert forall j | 0 <= j < i :: all[j] == codes[j];
      if QuietUpTo(order, all, v0) {
        assert all[i] == code;
      }
    }
  }
}
