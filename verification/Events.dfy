/** The history of a cluster: every command the operator issues, with the table it
    saw and the outcome it got.  Outcomes are the environment's choice. */
module Events {
  import opened Views
  import opened MemberSets
  import Decimal

  datatype Command = SeedCommand | PrimaryCommand | SecondaryCommand

  datatype Event =
    | Sync(pods: View, before: View)
    | Forget(before: View)
    | Sequenced(target: string, report: Option<string>, before: View)
    | Probed(target: string, rc: int, secondaries: bool, before: View)
    | Started(target: string, command: Command, asPrimary: bool, hosts: seq<string>, ok: bool, before: View)
    | Stopped(target: string, cleanup: bool, ok: bool, before: View)
    | Deleted(target: string, ok: bool, before: View)

  /** The sequence number after the `sequence` command printed `report`, or failed.
      Nothing printed keeps the old number; unreadable output still overwrites it. */
  function Reported(last: nat, report: Option<string>): nat {
    if report.None? || Decimal.TrimSpace(report.value) == "" then last
    else Decimal.ParseUint(Decimal.TrimSpace(report.value)).value
  }

  /** A number is read, whatever white space surrounds it; blank output is ignored, and so
      is a failed command. */
  lemma ReportRead(last: nat, a: string, d: string, b: string)
    requires Decimal.AllSpace(a) && Decimal.AllSpace(b) && Decimal.AllDigits(d)
    ensures Reported(last, Some(a + d + b)) ==
      if d == [] then last
      else if Decimal.ValueOf(d) <= Decimal.MAX_UINT64 then Decimal.ValueOf(d) else Decimal.MAX_UINT64
    ensures Reported(last, None) == last
  {
    assert forall i | 0 <= i < |d| :: Decimal.IsDigit(d[i]) && !Decimal.IsSpace(d[i]);
    Decimal.TrimInverts(a, d, b);
    if d != [] { Decimal.DigitsParse(d); }
  }

  /** Without a `secondary` command every running application counts as a primary. */
  function Code(rc: int, secondaries: bool): int {
    if rc == 0 && !secondaries then 8 else rc
  }

  /** What a status code says about a member that was thought healthy. */
  function AfterProbe(s: State, code: int): State {
    match code
    case 0 => s.(running := true, primary := false)
    case 7 => s.(running := false, primary := false)
    case 8 => s.(running := true, primary := true)
    case _ => s.(running := true, failed := true)
  }

  function Failing(s: State): State {
    s.(failed := true, failures := s.failures + 1)
  }

  function AfterStart(s: State, asPrimary: bool, ok: bool): State {
    if ok then s.(primary := asPrimary, running := true, failed := false) else Failing(s)
  }

  function AfterStop(s: State, ok: bool): State {
    if ok then s.(primary := false, running := false, failed := false) else Failing(s)
  }

  function AfterDelete(s: State, ok: bool): State {
    if ok then Offlined(s) else s
  }

  predicate IsCommand(e: Event) { !e.Sync? && !e.Forget? }

  /** The record of the command's target once the command has returned. */
  function TargetAfter(e: Event): State
    requires IsCommand(e) && e.target in e.before
  {
    var s := e.before[e.target];
    match e
    case Sequenced(_, report, _) => s.(sequence := Reported(s.sequence, report))
    case Probed(_, rc, secondaries, _) => AfterProbe(s, Code(rc, secondaries))
    case Started(_, _, asPrimary, _, ok, _) => AfterStart(s, asPrimary, ok)
    case Stopped(_, _, ok, _) => AfterStop(s, ok)
    case Deleted(_, ok, _) => AfterDelete(s, ok)
  }

  /** The table after an event. */
  ghost function Effect(e: Event): View {
    if e.Sync? then Merge(e.before, e.pods)
    else if e.Forget? then map[]
    else if e.target !in e.before then e.before
    else e.before[e.target := TargetAfter(e)]
  }

  /** `evs` is a history from table `v0` to table `v1`. */
  ghost predicate Leads(v0: View, evs: seq<Event>, v1: View) {
    if evs == [] then v0 == v1
    else
      var k := |evs| - 1;
      Leads(v0, evs[..k], evs[k].before) && v1 == Effect(evs[k])
  }

  lemma LeadsStep(v0: View, evs: seq<Event>, v: View, e: Event)
    requires Leads(v0, evs, v) && e.before == v
    ensures Leads(v0, evs + [e], Effect(e))
  {
    assert (evs + [e])[..|evs|] == evs;
  }

  lemma {:induction false} LeadsConcat(v0: View, a: seq<Event>, v1: View, b: seq<Event>, v2: View)
    requires Leads(v0, a, v1) && Leads(v1, b, v2)
    ensures Leads(v0, a + b, v2)
  {
    if b == [] {
      assert a + b == a;
    } else {
      var k := |b| - 1;
      LeadsConcat(v0, a, v1, b[..k], b[k].before);
      assert (a + b)[..|a + b| - 1] == a + b[..k];
    }
  }

  lemma {:induction false} LeadsPrefix(v0: View, evs: seq<Event>, v1: View, i: nat)
    requires Leads(v0, evs, v1) && i < |evs|
    ensures Leads(v0, evs[..i], evs[i].before)
  {
    var k := |evs| - 1;
    if i < k {
      LeadsPrefix(v0, evs[..k], evs[k].before, i);
      assert evs[..k][..i] == evs[..i];
    }
  }

  /** The rules every command obeys, whichever pass issued it. */
  ghost predicate Lawful(e: Event) {
    if e.Sync? then forall n | n in e.pods :: e.pods[n] == NEW_POD
    else if e.Forget? then true
    else e.target in e.before && LawfulOn(e, e.before[e.target])
  }

  ghost predicate LawfulOn(e: Event, s: State)
    requires IsCommand(e)
  {
    match e
    case Sequenced(_, _, _) => s.online
    case Probed(_, _, _, _) => s.online && !s.failed
    // A start goes to an online, healthy non-primary and names exactly the live primaries.
    case Started(_, command, asPrimary, hosts, _, before) =>
      && IsCandidate(s)
      && IsOrder(hosts, Live(before))
      && (command == SeedCommand ==> asPrimary && Live(before) == {})
      && (command == SecondaryCommand ==> !asPrimary)
    // Clean-up stops are for failed members with at most one recorded failure;
    // other stops demote healthy primaries.
    case Stopped(_, cleanup, _, _) =>
      s.online && if cleanup then s.failed && s.failures <= 1 else s.primary && !s.failed
    case Deleted(_, _, _) => s.failed && s.failures >= 1
  }

  ghost predicate AllLawful(evs: seq<Event>) {
    forall i | 0 <= i < |evs| :: Lawful(evs[i])
  }

  lemma AllLawfulConcat(a: seq<Event>, b: seq<Event>)
    requires AllLawful(a) && AllLawful(b)
    ensures AllLawful(a + b)
  {
  }

  /** One lawful event keeps every record sound. */
  lemma EffectSound(e: Event)
    requires Inv(e.before) && Lawful(e)
    ensures Inv(Effect(e))
  {
  }

  /** Whatever the outcomes, a lawful history never leaves the run invariant. */
  lemma {:induction false} RunInvariant(v0: View, evs: seq<Event>, v1: View)
    requires Inv(v0) && Leads(v0, evs, v1) && AllLawful(evs)
    ensures Inv(v1)
    ensures forall i | 0 <= i < |evs| :: Inv(evs[i].before)
  {
    if evs != [] {
      var k := |evs| - 1;
      RunInvariant(v0, evs[..k], evs[k].before);
      EffectSound(evs[k]);
      assert forall i | 0 <= i < k :: evs[..k][i] == evs[i];
    }
  }

  predicate FailedCommand(e: Event, n: string) {
    (e.Started? || e.Stopped?) && e.target == n && !e.ok
  }

  /** Failed start and stop commands on `n` since its record was created. */
  function Strikes(evs: seq<Event>, n: string): nat {
    if evs == [] then 0
    else
      var k := |evs| - 1;
      if evs[k].Forget? then 0
      else Strikes(evs[..k], n) + if FailedCommand(evs[k], n) then 1 else 0
  }

  /** Over a whole run the Failures field is exactly the number of failed start and
      stop commands: pod loss, return, deletion and clean-up never reset it. */
  lemma {:induction false} FailuresAreStrikes(evs: seq<Event>, v: View)
    requires Leads(map[], evs, v) && AllLawful(evs)
    ensures forall n | n in v :: v[n].failures == Strikes(evs, n)
    ensures forall n | n !in v :: Strikes(evs, n) == 0
  {
    if evs != [] {
      var k := |evs| - 1;
      var init, e := evs[..k], evs[k];
      assert forall i | 0 <= i < k :: init[i] == evs[i];
      FailuresAreStrikes(init, e.before);
      assert Lawful(e);
      forall n
        ensures n in v ==> v[n].failures == Strikes(evs, n)
        ensures n !in v ==> Strikes(evs, n) == 0
      {
        if IsCommand(e) && e.target != n { assert n in v <==> n in e.before; }
      }
    }
  }

  lemma {:induction false} StrikesMonotone(evs: seq<Event>, i: nat, n: string)
    requires i <= |evs|
    requires forall j | i <= j < |evs| :: !evs[j].Forget?
    ensures Strikes(evs[..i], n) <= Strikes(evs, n)
  {
    if i == |evs| {
      assert evs[..i] == evs;
    } else {
      var k := |evs| - 1;
      StrikesMonotone(evs[..k], i, n);
      assert evs[..k][..i] == evs[..i];
    }
  }

  /** Escalation over whole runs.  A pod is deleted only while failed and after at
      least one of its own start or stop commands failed; and once two have failed,
      recovery never again tries to stop it. */
  lemma Escalation(evs: seq<Event>, v: View, i: nat, n: string)
    requires Leads(map[], evs, v) && AllLawful(evs) && i < |evs|
    requires IsCommand(evs[i]) && evs[i].target == n
    ensures evs[i].Deleted? ==> evs[i].before[n].failed && Strikes(evs[..i], n) >= 1
    ensures evs[i].Stopped? && evs[i].cleanup ==>
      forall j | 0 <= j <= i && (forall k | j <= k < i :: !evs[k].Forget?) :: Strikes(evs[..j], n) <= 1
  {
    LeadsPrefix(map[], evs, v, i);
    var past := evs[..i];
    assert forall k | 0 <= k < i :: past[k] == evs[k];
    FailuresAreStrikes(past, evs[i].before);
    assert Lawful(evs[i]);
    if evs[i].Stopped? && evs[i].cleanup {
      forall j | 0 <= j <= i && (forall k | j <= k < i :: !evs[k].Forget?)
        ensures Strikes(evs[..j], n) <= 1
      {
        StrikesMonotone(past, j, n);
        assert past[..j] == evs[..j];
      }
    }
  }

  /** The host list of every start is the live primaries, once each, without the
      target; it is empty exactly when the start would create the first primary. */
  lemma StartHosts(e: Event)
    requires e.Started? && Lawful(e)
    ensures |e.hosts| == |Live(e.before)|
    ensures e.target !in e.hosts
    ensures forall n :: n in e.hosts <==> n in Live(e.before)
    ensures e.hosts == [] <==> Live(e.before) == {}
  {
    OrderSize(e.hosts, Live(e.before));
  }
}
