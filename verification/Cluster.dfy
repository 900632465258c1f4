/** pkg/cluster: one cluster's reconcile and replicate passes over its member table.
    The outcome of every command, pod deletion and API write is the environment's
    choice, so each contract holds for all outcomes and all map orders. */
module Clusters {
  import opened Views
  import opened MemberSets
  import opened Events
  import opened Selection
  import opened Phases
  import opened Passes
  import opened Runs
  import Divergence
  import opened Status
  import opened Inputs
  import Decimal

  datatype Error =
    | TooManyMembers(excess: int)
    | MissingPods(missing: int)
    | NoSeeds
    | SeedsFailed(tried: nat)
    | NoCandidate
    | NoPrimary
    | CommandFailed(command: string, pod: string)
    | UnexpectedCode(pod: string, code: int)
    | Escalated(pod: string, failures: nat)
    | CleanupFailed(pod: string)
    | DeleteFailed(pod: string)

  /** appendNonNil */
  function Append(errors: seq<Error>, err: Option<Error>): (r: seq<Error>)
    ensures r == [] <==> errors == [] && err.None?
  {
    if err.Some? then errors + [err.value] else errors
  }

  function Key(c: Command): string {
    match c
    case SeedCommand => SEED
    case PrimaryCommand => PRIMARY
    case SecondaryCommand => SECONDARY
  }

  /** A seed or secondary command is used where it applies and is configured. */
  function StartCommand(spec: Spec, asPrimary: bool, primaries: nat): (c: Command)
    ensures c == SeedCommand <==> asPrimary && primaries == 0 && SEED in spec.commands
    ensures c == SecondaryCommand <==> !asPrimary && SECONDARY in spec.commands
  {
    if asPrimary && primaries == 0 then
      if SEED in spec.commands then SeedCommand else PrimaryCommand
    else if !asPrimary then
      if SECONDARY in spec.commands then SecondaryCommand else PrimaryCommand
    else PrimaryCommand
  }

  /** A command line run on a pod. */
  datatype Call = Call(pod: string, argv: seq<string>)

  /** Which of the configured commands a start runs. */
  lemma StartKey(spec: Spec, asPrimary: bool, live: nat)
    ensures Key(StartCommand(spec, asPrimary, live)) ==
      if asPrimary && live == 0 && "seed" in spec.commands then "seed"
      else if !asPrimary && "secondary" in spec.commands then "secondary"
      else "primary"
  {
  }

  function HostName(service: string, name: string): string {
    name + "." + service
  }

  function HostNames(service: string, names: seq<string>): seq<string> {
    seq(|names|, i requires 0 <= i < |names| => HostName(service, names[i]))
  }

  /** Distinct members have distinct host names, so the argument list repeats nobody. */
  lemma HostNamesDistinct(service: string, names: seq<string>)
    requires forall i, j | 0 <= i < j < |names| :: names[i] != names[j]
    ensures var hs := HostNames(service, names);
      && |hs| == |names| && (forall i | 0 <= i < |hs| :: hs[i] == names[i] + "." + service)
      && forall i, j | 0 <= i < j < |hs| :: hs[i] != hs[j]
  {
    var hs := HostNames(service, names);
    forall i, j | 0 <= i < j < |hs| ensures hs[i] != hs[j] {
      var a, b := names[i], names[j];
      if |a| != |b| {
        assert |hs[i]| != |hs[j]|;
      } else {
        assert hs[i][..|a|] == a && hs[j][..|b|] == b;
      }
    }
  }

  /** The advertised names met so far. */
  ghost function Advertise(v: View, order: seq<string>): (names: seq<string>)
    requires forall n | n in order :: n in v
  {
    if order == [] then []
    else
      var k := |order| - 1;
      assert forall n | n in order[..k] :: n in order;
      Advertise(v, order[..k]) + if IsAdvertised(v[order[k]]) then [order[k]] else []
  }

  lemma {:induction false} AdvertiseIsOrder(v: View, order: seq<string>)
    requires forall n | n in order :: n in v
    requires forall i, j | 0 <= i < j < |order| :: order[i] != order[j]
    ensures var names := Advertise(v, order);
      && (forall i, j | 0 <= i < j < |names| :: names[i] != names[j])
      && (forall n :: n in names <==> n in order && IsAdvertised(v[n]))
  {
    if order != [] {
      var init := order[..|order| - 1];
      assert order == init + [order[|order| - 1]];
      AdvertiseIsOrder(v, init);
    }
  }

  lemma AdvertiseAll(v: View, order: seq<string>)
    requires IsOrder(order, v.Keys)
    ensures IsOrder(Advertise(v, order), Where(v, IsAdvertised))
    ensures |Advertise(v, order)| == |Where(v, IsAdvertised)|
  {
    AdvertiseIsOrder(v, order);
    OrderSize(Advertise(v, order), Where(v, IsAdvertised));
  }

  lemma MergeSound(v: View, pods: seq<string>)
    ensures Inv(v) ==> Inv(Merge(v, PodView(pods)))
  {
    if Inv(v) { EffectSound(Sync(PodView(pods), v)); }
  }

  method PodsToMemberSet(pods: seq<string>) returns (r: MemberSet)
    ensures Keyed(r) && (forall n | n in r :: fresh(r[n])) && ViewOf(r) == PodView(pods)
    ensures forall n :: n in r <==> n in pods
    ensures forall n | n in r :: r[n].Value() == State(true, false, false, false, 0, 0)
  {
    r := map[];
    for i := 0 to |pods|
      invariant r.Keys == set n | n in pods[..i]
      invariant Keyed(r) && forall n | n in r :: fresh(r[n]) && r[n].Value() == NEW_POD
    {
      var m := new Member(pods[i], NEW_POD);
      r := r[m.name := m];
      assert pods[..i + 1] == pods[..i] + [pods[i]];
    }
    assert pods[..|pods|] == pods;
    ViewIs(r, PodView(pods));
  }

  class Cluster {
    var peers: MemberSet
    var spec: Spec
    const service: string
    const status: ClusterStatus
    /** The status in the local copy of the custom resource. */
    var mirror: Snapshot
    /** The status the API server holds. */
    ghost var stored: Snapshot
    /** The size of the StatefulSet. */
    var sts: nat

    ghost predicate Valid()
      reads this, peers.Values
    {
      Keyed(peers) && Inv(ViewOf(peers))
    }

    ghost function Now(): Control
      reads this`spec, this`sts, this`stored, status
    {
      Control(spec, sts, status.phase, status.restoreReplicas, stored.restoreReplicas)
    }

    /** No condition kind is reported twice. */
    ghost predicate Tidy()
      reads status
    {
      Distinct(status.conditions)
    }

    /** The API server holds the restore size it held, or the current one. */
    ghost predicate StoredFrom(was: int)
      reads this`stored, status
    {
      stored.restoreReplicas == was || stored.restoreReplicas == status.restoreReplicas
    }

    ghost function Argv(action: string, names: seq<string>): seq<string>
      reads this`spec
    {
      (if action in spec.commands then spec.commands[action] else []) + HostNames(service, names)
    }

    /** The command configured for `action` was run on `pod` with every live primary as argument. */
    ghost predicate Called(action: string, pod: string, call: Call)
      reads this, peers.Values
    {
      exists names :: IsOrder(names, Live(ViewOf(peers))) && call == Call(pod, Argv(action, names))
    }

    ghost predicate Holds(m: Member)
      reads this
    {
      m.name in peers && peers[m.name] == m
    }

    constructor (spec: Spec, service: string, initial: Snapshot, sts: nat)
      ensures peers == map[] && this.spec == spec && this.service == service && Valid() && this.sts == sts
      ensures fresh(status) && status.Value() == mirror == stored == initial
    {
      this.spec, this.service, this.sts, peers := spec, service, sts, map[];
      status := new ClusterStatus(initial);
      mirror, stored := initial, initial;
    }

    /** The base command followed by the host name of every advertised primary. */
    method AppendPrimaries(cmd: seq<string>) returns (argv: seq<string>, ghost names: seq<string>)
      requires Keyed(peers)
      ensures IsOrder(names, Where(ViewOf(peers), IsAdvertised))
      ensures argv == cmd + HostNames(service, names)
      ensures cmd <= argv && |argv| == |cmd| + |Where(ViewOf(peers), IsAdvertised)|
    {
      argv := cmd;
      var order := Range(peers);
      ghost var v := ViewOf(peers);
      names := [];
      for i := 0 to |order|
        invariant names == Advertise(v, order[..i])
        invariant argv == cmd + HostNames(service, names)
      {
        assert order[..i + 1][..i] == order[..i] && order[i] in order;
        var m := peers[order[i]];
        if m.online && m.primary {
          argv := argv + [HostName(service, m.name)];
          names := names + [m.name];
        }
      }
      assert order[..|order|] == order;
      AdvertiseAll(v, order);
    }

    /** Runs a command on a pod.  Without an error the code is zero; with one it is
        whatever the error text says.  `names` are the primaries on the command line. */
    method Execute(action: string, pod: string)
      returns (call: Call, stdout: string, err: bool, rc: int, ghost names: seq<string>)
      requires Valid()
      ensures !err ==> rc == 0
      ensures IsOrder(names, Live(ViewOf(peers)))
      ensures call == Call(pod, Argv(action, names)) && Called(action, pod, call)
      ensures action in spec.commands ==> spec.commands[action] <= call.argv
    {
      var argv, hosts := AppendPrimaries(if action in spec.commands then spec.commands[action] else []);
      call, names := Call(pod, argv), hosts;
      CountOrder(ViewOf(peers));
      stdout, err, rc := *, *, *;
      if !err { rc := 0; }
    }

    method StartAppMember(m: Member, asPrimary: bool)
      returns (err: Option<Error>, ghost call: Call, ghost e: Event)
      requires Valid() && Holds(m)
      modifies m
      ensures e.Started? && e.target == m.name && e.asPrimary == asPrimary && e.before == old(ViewOf(peers))
      ensures e.command == StartCommand(spec, asPrimary, |Live(e.before)|)
      ensures call == Call(m.name, Argv(Key(e.command), e.hosts))
      ensures IsOrder(e.hosts, Live(e.before))
      ensures e.ok <==> err.None?
      ensures ViewOf(peers) == Effect(e)
    {
      ghost var v := ViewOf(peers);
      var live := AppPrimaries(peers);
      var action := StartCommand(spec, asPrimary, live);
      var call', _, failed, _, hosts := Execute(Key(action), m.name);
      call := call';
      e := Started(m.name, action, asPrimary, hosts, !failed, v);
      if failed {
        m.MarkFailed();
        err := Some(CommandFailed(Key(action), m.name));
      } else {
        m.MarkStarted(asPrimary);
        err := None;
      }
      assert m.Value() == AfterStart(v[m.name], asPrimary, !failed);
      OneChanged(peers, m, v);
    }

    method StopAppMember(m: Member, ghost cleanup: bool)
      returns (err: Option<Error>, ghost call: Call, ghost e: Event)
      requires Valid() && Holds(m)
      modifies m
      ensures e.Stopped? && e.target == m.name && e.cleanup == cleanup && e.before == old(ViewOf(peers))
      ensures (e.ok <==> err.None?) && old(Called("stop", m.name, call))
      ensures ViewOf(peers) == Effect(e) && m.Value() == AfterStop(old(m.Value()), e.ok)
    {
      ghost var v := ViewOf(peers);
      var call', _, failed, _, _ := Execute(STOP, m.name);
      call := call';
      e := Stopped(m.name, cleanup, !failed, v);
      if failed {
        m.MarkFailed();
        err := Some(CommandFailed(STOP, m.name));
      } else {
        m.MarkStopped();
        err := None;
      }
      assert m.Value() == AfterStop(v[m.name], !failed);
      OneChanged(peers, m, v);
    }

    method DeleteMember(m: Member) returns (err: Option<Error>, ghost e: Event)
      requires Keyed(peers) && Holds(m)
      modifies m
      ensures e == Deleted(m.name, err.None?, old(ViewOf(peers)))
      ensures ViewOf(peers) == Effect(e) && m.Value() == AfterDelete(old(m.Value()), e.ok)
    {
      ghost var v := ViewOf(peers);
      var failed: bool := *;
      e := Deleted(m.name, !failed, v);
      if failed {
        err := Some(DeleteFailed(m.name));
      } else {
        m.Offline();
        err := None;
      }
      OneChanged(peers, m, v);
    }

    /** One turn of the promotion and secondary loops: start the chosen member. */
    method StartChosen(asPrimary: bool, ghost rule: Rule, ghost k: nat)
      returns (err: Option<Error>, found: bool, ghost e: Event)
      requires Valid()
      requires if asPrimary then rule.Promotion? && 0 < |Live(ViewOf(peers))| < rule.target
               else rule.Assistance? && |Members(ViewOf(peers))| < rule.target
      modifies peers.Values
      ensures !found ==> err.Some? && Candidates(ViewOf(peers)) == {} && ViewOf(peers) == old(ViewOf(peers))
      ensures found ==> e.before == old(ViewOf(peers)) && Obeys(rule, k, e) && (Succeeded(e) <==> err.None?)
      ensures found ==> ViewOf(peers) == Effect(e)
    {
      ghost var v := ViewOf(peers);
      var seed, order := ChooseMember(peers);
      if seed.None? {
        e := Forget(v);
        return Some(NoCandidate), false, e;
      }
      assert Choosable(v, seed.value.name);
      var err', _, e' := StartAppMember(seed.value, asPrimary);
      err, e := err', e';
      found := true;
    }

    /** One more start continues the phase; a promotion uses up a candidate. */
    method StartNext(asPrimary: bool, ghost rule: Rule, ghost v0: View, ghost evs: seq<Event>)
      returns (err: Option<Error>, found: bool, ghost all: seq<Event>)
      requires Valid() && Phase(rule, v0, evs, ViewOf(peers))
      requires if asPrimary then rule.Promotion? && 0 < |Live(ViewOf(peers))| < rule.target
               else rule.Assistance? && |Members(ViewOf(peers))| < rule.target
      modifies peers.Values
      ensures Valid() && Phase(rule, v0, all, ViewOf(peers))
      ensures if found then |all| == |evs| + 1 && (AllOk(all) <==> AllOk(evs) && err.None?)
              else all == evs && err.Some? && Candidates(ViewOf(peers)) == {} && ViewOf(peers) == old(ViewOf(peers))
      ensures found && asPrimary ==>
        Live(ViewOf(peers)) != {} && |Candidates(ViewOf(peers))| < |Candidates(old(ViewOf(peers)))|
    {
      ghost var v := ViewOf(peers);
      all := evs;
      var err', found', e := StartChosen(asPrimary, rule, |evs|);
      err, found := err', found';
      if found {
        Turn(rule, v0, evs, v, e);
        all := evs + [e];
      }
    }

    /** Starts primaries until there are `primaries` of them or no candidate is left. */
    method Promote(primaries: nat) returns (errors: seq<Error>, ghost evs: seq<Event>)
      requires Valid() && Live(ViewOf(peers)) != {}
      modifies peers.Values
      ensures Valid()
      ensures Phase(Promotion(primaries), old(ViewOf(peers)), evs, ViewOf(peers))
      ensures |Live(ViewOf(peers))| >= primaries || Candidates(ViewOf(peers)) == {}
      ensures errors == [] <==> AllOk(evs) && |Live(ViewOf(peers))| >= primaries
    {
      errors, evs := [], [];
      ghost var rule, v0 := Promotion(primaries), ViewOf(peers);
      ghost var v := v0;
      var live := AppPrimaries(peers);
      while live < primaries
        invariant Inv(v) && v == ViewOf(peers) && live == |Live(v)| > 0
        invariant Phase(rule, v0, evs, v)
        invariant errors == [] <==> AllOk(evs)
        decreases |Candidates(v)|
      {
        var err, found, all := StartNext(true, rule, v0, evs);
        errors := Append(errors, err);
        if !found { break; }
        evs, v := all, ViewOf(peers);
        live := AppPrimaries(peers);
        ViewIs(peers, v);
        if live == 0 { break; }
      }
    }

    method StopChosen(primaries: nat, ghost k: nat) returns (err: Option<Error>, found: bool, ghost e: Event)
      requires Valid() && |Live(ViewOf(peers))| > primaries
      modifies peers.Values
      ensures !found ==> err.Some? && Demotable(ViewOf(peers)) == {} && ViewOf(peers) == old(ViewOf(peers))
      ensures found ==> e.before == old(ViewOf(peers)) && Obeys(Demotion(primaries), k, e)
      ensures found ==> (Succeeded(e) <==> err.None?) && ViewOf(peers) == Effect(e)
    {
      ghost var v := ViewOf(peers);
      var seed, order := ChooseCurrentPrimary(peers);
      DemotionIsDeterministic(v, order);
      if seed.None? {
        e := Forget(v);
        return Some(NoPrimary), false, e;
      }
      var err', _, e' := StopAppMember(seed.value, false);
      err, e := err', e';
      found := true;
    }

    /** One more stop continues the phase and uses up a healthy primary. */
    method StopNext(primaries: nat, ghost v0: View, ghost evs: seq<Event>)
      returns (err: Option<Error>, found: bool, ghost all: seq<Event>)
      requires Valid() && Phase(Demotion(primaries), v0, evs, ViewOf(peers)) && |Live(ViewOf(peers))| > primaries
      modifies peers.Values
      ensures Valid() && Phase(Demotion(primaries), v0, all, ViewOf(peers))
      ensures if found then |Demotable(ViewOf(peers))| < |Demotable(old(ViewOf(peers)))| && (AllOk(all) <==> AllOk(evs) && err.None?)
              else all == evs && err.Some? && Demotable(ViewOf(peers)) == {} && ViewOf(peers) == old(ViewOf(peers))
    {
      ghost var v := ViewOf(peers);
      all := evs;
      var err', found', e := StopChosen(primaries, |evs|);
      err, found := err', found';
      if found {
        Turn(Demotion(primaries), v0, evs, v, e);
        all := evs + [e];
      }
    }

    /** Stops primaries until there are `primaries` of them or all that remain have failed. */
    method Demote(primaries: nat) returns (errors: seq<Error>, ghost evs: seq<Event>)
      requires Valid()
      modifies peers.Values
      ensures Valid()
      ensures Phase(Demotion(primaries), old(ViewOf(peers)), evs, ViewOf(peers))
      ensures |Live(ViewOf(peers))| <= primaries || Demotable(ViewOf(peers)) == {}
      ensures errors == [] <==> AllOk(evs) && |Live(ViewOf(peers))| <= primaries
    {
      errors, evs := [], [];
      ghost var rule, v0 := Demotion(primaries), ViewOf(peers);
      ghost var v := v0;
      var live := AppPrimaries(peers);
      while live > primaries
        invariant Inv(v) && v == ViewOf(peers) && live == |Live(v)|
        invariant Phase(rule, v0, evs, v)
        invariant errors == [] <==> AllOk(evs)
        decreases |Demotable(v)|
      {
        var err, found, all := StopNext(primaries, v0, evs);
        errors := Append(errors, err);
        if !found { break; }
        evs, v := all, ViewOf(peers);
        live := AppPrimaries(peers);
        ViewIs(peers, v);
      }
    }

    /** Starts secondaries until `replicas` members run or no candidate is left.  The
        source loop need not end, so it is cut once it has started more members than
        there are, and `patience` more; that happens only where it can diverge. */
    method Assist(replicas: nat, patience: nat) returns (errors: seq<Error>, done: bool, ghost evs: seq<Event>)
      requires Valid()
      modifies peers.Values
      ensures Valid()
      ensures Phase(Assistance(replicas), old(ViewOf(peers)), evs, ViewOf(peers))
      ensures done ==> |Members(ViewOf(peers))| >= replicas || Candidates(ViewOf(peers)) == {}
      ensures done ==> (errors == [] <==> AllOk(evs) && |Members(ViewOf(peers))| >= replicas)
      ensures !done ==> Divergence.MayDiverge(old(ViewOf(peers)), replicas)
      ensures !done ==> |evs| > patience && |Members(ViewOf(peers))| < replicas
    {
      errors, evs := [], [];
      ghost var rule, v0 := Assistance(replicas), ViewOf(peers);
      ghost var v := v0;
      var running := AppMembers(peers);
      ViewIs(peers, v);
      var left: nat := |peers| + patience + 1;
      ViewSize(peers);
      while running < replicas
        invariant Inv(v) && v == ViewOf(peers) && running == |Members(v)|
        invariant Phase(rule, v0, evs, v)
        invariant errors == [] <==> AllOk(evs)
        invariant |evs| + left == |v0| + patience + 1
        decreases left
      {
        if left == 0 {
          Divergence.NotCutShort(replicas, v0, evs, v);
          return errors, false, evs;
        }
        var err, found, all := StartNext(false, rule, v0, evs);
        errors := Append(errors, err);
        if !found { break; }
        evs, v, left := all, ViewOf(peers), left - 1;
        running := AppMembers(peers);
        ViewIs(peers, v);
      }
      done := true;
    }

    /** Asks the member for its sequence number if it is online. */
    method DetectMember(m: Member) returns (ghost call: Call, ghost evs: seq<Event>)
      requires Valid() && Holds(m)
      modifies m
      ensures Valid() && Phase(Detection, old(ViewOf(peers)), evs, ViewOf(peers))
      ensures ViewOf(peers) == old(ViewOf(peers))[m.name := m.Value()]
      ensures DetectedTo(old(m.Value()), m.Value(), m.name, evs)
      ensures evs != [] ==> old(Called("sequence", m.name, call))
    {
      call, evs := Call(m.name, []), [];
      if !m.online { return; }
      ghost var v := ViewOf(peers);
      var call', stdout, err, _, _ := Execute(SEQUENCE, m.name);
      call := call';
      ghost var e := Sequenced(m.name, if err then None else Some(stdout), v);
      if !err {
        var number := Decimal.TrimSpace(stdout);
        if number != "" {
          m.sequence := Decimal.ParseUint(number).value;
        }
      }
      assert m.Value() == TargetAfter(e);
      OneChanged(peers, m, v);
      OneCommand(Detection, e);
      evs := [e];
      assert e in evs;
    }

    /** Refreshes the sequence number of every online member that reports one. */
    method DetectMembers() returns (ghost evs: seq<Event>)
      requires Valid()
      modifies peers.Values
      ensures Valid()
      ensures Phase(Detection, old(ViewOf(peers)), evs, ViewOf(peers))
      ensures forall n | n in peers :: DetectedTo(old(ViewOf(peers))[n], ViewOf(peers)[n], n, evs)
    {
      evs := [];
      ghost var v0 := ViewOf(peers);
      ghost var v := v0;
      var order := Range(peers);
      for i := 0 to |order|
        invariant Inv(v) && v == ViewOf(peers) && Phase(Detection, v0, evs, v)
        invariant DetectedUpTo(order, i, v0, v, evs)
      {
        assert order[i] in order;
        var m := peers[order[i]];
        var _, more := DetectMember(m);
        DetectTurn(order, i, v0, v, m.Value(), evs, more);
        PhaseConcat(Detection, v0, evs, v, more, ViewOf(peers));
        evs, v := evs + more, ViewOf(peers);
      }
    }

    /** Tries the next seed on the list. */
    method TrySeed(m: Member, ghost seeds: seq<string>, ghost v0: View, ghost evs: seq<Event>)
      returns (live: nat, ghost e: Event)
      requires Valid() && Holds(m) && |evs| < |seeds| && m.name == seeds[|evs|]
      requires Live(v0) == {} && Live(ViewOf(peers)) == {}
      requires forall i, j | 0 <= i < j < |seeds| :: seeds[i] != seeds[j]
      requires forall n | n in seeds :: n in Candidates(v0)
      requires Phase(Seeding(seeds), v0, evs, ViewOf(peers))
      modifies m
      ensures Inv(ViewOf(peers)) && live == |Live(ViewOf(peers))|
      ensures Phase(Seeding(seeds), v0, evs + [e], ViewOf(peers))
    {
      ghost var v := ViewOf(peers);
      NextSeed(seeds, v0, evs, v);
      var _, _, event := StartAppMember(m, true);
      e := event;
      Turn(Seeding(seeds), v0, evs, v, e);
      v := ViewOf(peers);
      live := AppPrimaries(peers);
      ViewIs(peers, v);
    }

    /** Tries the seeds in turn until one becomes the first primary. */
    method TrySeeds(seeds: seq<Member>, ghost names: seq<string>, ghost v0: View)
      returns (errors: seq<Error>, ghost evs: seq<Event>)
      requires Valid() && v0 == ViewOf(peers) && Live(v0) == {} && NamedAll(peers, names, seeds)
      requires forall i, j | 0 <= i < j < |names| :: names[i] != names[j]
      requires forall n | n in names :: n in Candidates(v0)
      modifies peers.Values
      ensures Valid() && Phase(Seeding(names), v0, evs, ViewOf(peers))
      ensures errors == [] <==> Live(ViewOf(peers)) != {}
      ensures errors != [] ==> |evs| == |names|
    {
      evs := [];
      ghost var v := v0;
      for i := 0 to |seeds|
        invariant Inv(v) && v == ViewOf(peers) && Live(v) == {} && |evs| == i
        invariant Phase(Seeding(names), v0, evs, v)
      {
        var live, e := TrySeed(seeds[i], names, v0, evs);
        evs, v := evs + [e], ViewOf(peers);
        if live != 0 { return [], evs; }
      }
      errors := [SeedsFailed(|seeds|)];
    }

    /** Makes one of the seeds, if there are any, the first primary. */
    method Seed() returns (errors: seq<Error>, ghost evs: seq<Event>, ghost order: seq<string>)
      requires Valid() && Live(ViewOf(peers)) == {}
      modifies peers.Values
      ensures Valid() && IsOrder(order, peers.Keys)
      ensures Phase(Seeding(ScanSeeds(old(ViewOf(peers)), order)), old(ViewOf(peers)), evs, ViewOf(peers))
      ensures errors == [] <==> Live(ViewOf(peers)) != {}
      ensures errors != [] ==> |evs| == |ScanSeeds(old(ViewOf(peers)), order)|
    {
      ghost var v := ViewOf(peers);
      var seeds;
      seeds, order := ChooseSeeds(peers);
      ViewIs(peers, v);
      SeedsAreSound(v, order);
      evs := [];
      if seeds == [] { return [NoSeeds], evs, order; }
      errors, evs := TrySeeds(seeds, ScanSeeds(v, order), v);
    }

    /** A member with repeated failures is deleted; that is always reported. */
    method Escalate(m: Member) returns (errors: seq<Error>, ghost evs: seq<Event>)
      requires Valid() && Holds(m) && m.failed && m.failures > 1
      modifies m
      ensures Valid() && Phase(Cleanup, old(ViewOf(peers)), evs, ViewOf(peers))
      ensures ViewOf(peers) == old(ViewOf(peers))[m.name := m.Value()]
      ensures RecoveredTo(old(m.Value()), m.Value()) && errors != [] && DeleteSent(evs, m.name, !m.failed)
    {
      ghost var v := ViewOf(peers);
      var err, e := DeleteMember(m);
      errors := Append([Escalated(m.name, m.failures)], err);
      OneCommand(Cleanup, e);
      evs := [e];
      assert e in evs;
      OneChanged(peers, m, v);
    }

    /** The stop `e` failed, too: delete the pod, and report it. */
    method Discard(m: Member, ghost e: Event) returns (errors: seq<Error>, ghost evs: seq<Event>)
      requires Keyed(peers) && Holds(m) && ViewOf(peers) == Effect(e) && Inv(e.before)
      requires Obeys(Cleanup, 0, e)
      requires e.Stopped? && !e.ok && e.target == m.name
      modifies m
      ensures Valid() && Phase(Cleanup, e.before, evs, ViewOf(peers)) && errors != []
      ensures ViewOf(peers) == e.before[m.name := m.Value()]
      ensures m.Value() == old(m.Value()) || m.Value() == Offlined(old(m.Value()))
      ensures StopSent(evs, m.name, false) && DeleteSent(evs, m.name, !m.failed)
    {
      var err, f := DeleteMember(m);
      errors := Append([CleanupFailed(m.name)], err);
      TwoCommands(Cleanup, e, f);
      evs := [e, f];
      assert e in evs && f in evs;
      OneChanged(peers, m, e.before);
    }

    /** A first failure is answered by a stop, and by a deletion if the stop fails too. */
    method CleanUp(m: Member) returns (errors: seq<Error>, ghost evs: seq<Event>)
      requires Valid() && Holds(m) && m.online && m.failed && m.failures <= 1
      modifies m
      ensures Valid() && Phase(Cleanup, old(ViewOf(peers)), evs, ViewOf(peers))
      ensures ViewOf(peers) == old(ViewOf(peers))[m.name := m.Value()]
      ensures RecoveredTo(old(m.Value()), m.Value()) && Answered(old(m.Value()), m.Value(), m.name, evs)
      ensures errors == [] <==> m.Value() == AfterStop(old(m.Value()), true)
    {
      var err, _, e := StopAppMember(m, true);
      if err.Some? {
        errors, evs := Discard(m, e);
        return;
      }
      errors, evs := [], [e];
      OneCommand(Cleanup, e);
      assert e in evs;
      OneChanged(peers, m, e.before);
    }

    method RecoverMember(m: Member) returns (errors: seq<Error>, ghost evs: seq<Event>)
      requires Valid() && Holds(m)
      modifies m
      ensures Valid() && Phase(Cleanup, old(ViewOf(peers)), evs, ViewOf(peers))
      ensures ViewOf(peers) == old(ViewOf(peers))[m.name := m.Value()]
      ensures RecoveredTo(old(m.Value()), m.Value()) && Answered(old(m.Value()), m.Value(), m.name, evs)
      ensures errors == [] <==> CleanedUp(old(m.Value()), m.Value())
      ensures !old(m.failed) ==> evs == []
    {
      errors, evs := [], [];
      if m.failed && m.failures > 1 {
        errors, evs := Escalate(m);
      } else if !m.online {
      } else if m.failed {
        errors, evs := CleanUp(m);
      }
    }

    method Recover() returns (errors: seq<Error>, ghost evs: seq<Event>, ghost order: seq<string>)
      requires Valid()
      modifies peers.Values
      ensures Valid() && IsOrder(order, peers.Keys)
      ensures RecoveredUpTo(order, |order|, old(ViewOf(peers)), ViewOf(peers), evs)
      ensures errors == [] <==> CleanUpTo(order, |order|, old(ViewOf(peers)), ViewOf(peers))
      ensures Phase(Cleanup, old(ViewOf(peers)), evs, ViewOf(peers))
    {
      errors, evs := [], [];
      ghost var v0 := ViewOf(peers);
      ghost var v := v0;
      var names := Range(peers);
      order := names;
      for i := 0 to |names|
        invariant Inv(v) && v == ViewOf(peers)
        invariant Phase(Cleanup, v0, evs, v)
        invariant RecoveredUpTo(order, i, v0, v, evs)
        invariant errors == [] <==> CleanUpTo(order, i, v0, v)
      {
        assert names[i] in names;
        var m := peers[names[i]];
        var errs, more := RecoverMember(m);
        errors := errors + errs;
        RecoverTurn(order, i, v0, v, m.Value(), evs, more);
        PhaseConcat(Cleanup, v0, evs, v, more, ViewOf(peers));
        evs, v := evs + more, ViewOf(peers);
      }
    }

    /** Updates the custom resource if the status differs from the local copy, or if the
        member lists, which are not modelled, do.  The copy is assigned before the
        write, so after a failed write it no longer shows that one is due. */
    method UpdateCRStatus() returns (ok: bool)
      modifies this`mirror, this`stored
      ensures mirror == status.Value()
      ensures stored == old(stored) || stored == status.Value()
      ensures ok && old(mirror) != status.Value() ==> stored == status.Value()
      ensures ViewOf(peers) == old(ViewOf(peers)) && StoredFrom(old(stored.restoreReplicas))
    {
      var membersDiffer: bool := *;
      if mirror == status.Value() && !membersDiffer { return true; }
      mirror := status.Value();
      ok := *;
      if ok { stored := status.Value(); }
    }

    method ProbeMember(m: Member) returns (err: Option<Error>, ghost call: Call, ghost e: Event)
      requires Valid() && Holds(m) && Probeable(m.Value())
      modifies m
      ensures e.Probed? && e.before == old(ViewOf(peers)) && e.target == m.name
      ensures e.secondaries == spec.UsesSecondaries() && ViewOf(peers) == Effect(e)
      ensures (err.None? <==> Quiet(old(m.Value()), Code(e.rc, e.secondaries))) && old(Called("status", m.name, call))
      ensures FlagsAfter(old(m.Value()), m.Value(), e.rc, e.secondaries)
    {
      ghost var v := ViewOf(peers);
      var call', _, _, rc, _ := Execute(STATUS, m.name);
      call := call';
      e := Probed(m.name, rc, spec.UsesSecondaries(), v);
      if rc == 0 && !spec.UsesSecondaries() { rc := 8; }
      err := None;
      match rc {
        case 0 =>
          m.running := true;
          m.primary := false;
        case 7 =>
          if m.running { err := Some(UnexpectedCode(m.name, rc)); }
          m.running := false;
          m.primary := false;
        case 8 =>
          if !m.running {
          } else if !m.primary {
            err := Some(UnexpectedCode(m.name, rc));
          }
          m.primary := true;
          m.running := true;
        case _ =>
          err := Some(UnexpectedCode(m.name, rc));
          m.running := true;
          m.failed := true;
      }
      assert m.Value() == AfterProbe(v[m.name], Code(e.rc, e.secondaries));
      OneChanged(peers, m, v);
    }

    /** Probes the member if it is online and healthy; otherwise `code` means nothing. */
    method VisitMember(m: Member) returns (err: Option<Error>, ghost code: int, ghost evs: seq<Event>)
      requires Valid() && Holds(m)
      modifies m
      ensures Valid() && Phase(Probing, old(ViewOf(peers)), evs, ViewOf(peers))
      ensures ViewOf(peers) == old(ViewOf(peers))[m.name := m.Value()]
      ensures Visited(old(m.Value()), m.Value(), m.name, code, evs, spec.UsesSecondaries())
      ensures err.None? <==> (Probeable(old(m.Value())) ==> Quiet(old(m.Value()), code))
    {
      err, code, evs := None, 7, [];
      if m.failed || !m.online { return; }
      var err', _, e := ProbeMember(m);
      err := err';
      OneCommand(Probing, e);
      code, evs := Code(e.rc, e.secondaries), [e];
      assert e in evs;
    }

    /** Visits the next member in the order. */
    method ProbeNext(m: Member, ghost order: seq<string>, ghost codes: seq<int>, ghost v0: View, ghost evs: seq<Event>)
      returns (err: Option<Error>, ghost code: int, ghost more: seq<Event>)
      requires Valid() && Holds(m) && IsOrder(order, v0.Keys) && |codes| < |order| && m.name == order[|codes|]
      requires ProbedUpTo(order, codes, v0, ViewOf(peers), evs, spec.UsesSecondaries())
      requires Phase(Probing, v0, evs, ViewOf(peers))
      modifies m
      ensures Valid() && Phase(Probing, v0, evs + more, ViewOf(peers))
      ensures ProbedUpTo(order, codes + [code], v0, ViewOf(peers), evs + more, spec.UsesSecondaries())
      ensures QuietUpTo(order, codes + [code], v0) <==> QuietUpTo(order, codes, v0) && err.None?
    {
      ghost var v := ViewOf(peers);
      var err', code', more' := VisitMember(m);
      err, code, more := err', code', more';
      ProbeTurn(order, codes, v0, v, m.Value(), code, evs, more, spec.UsesSecondaries());
      PhaseConcat(Probing, v0, evs, v, more, ViewOf(peers));
    }

    /** Probes every healthy online member and records what it answered. */
    method Probe() returns (errors: seq<Error>, ghost order: seq<string>, ghost codes: seq<int>, ghost stage: Stage)
      requires Valid()
      modifies peers.Values
      ensures Valid() && stage.after == ViewOf(peers)
      ensures ProbePass(old(ViewOf(peers)), order, codes, stage, spec.UsesSecondaries())
      ensures errors == [] <==> QuietUpTo(order, codes, old(ViewOf(peers)))
    {
      errors, codes := [], [];
      ghost var evs := [];
      ghost var v0 := ViewOf(peers);
      ghost var v := v0;
      var names := Range(peers);
      order := names;
      for i := 0 to |names|
        invariant Inv(v) && v == ViewOf(peers) && |codes| == i && Phase(Probing, v0, evs, v)
        invariant ProbedUpTo(order, codes, v0, v, evs, spec.UsesSecondaries())
        invariant errors == [] <==> QuietUpTo(order, codes, v0)
      {
        assert names[i] in names;
        var m := peers[names[i]];
        var err, code, more := ProbeNext(m, order, codes, v0, evs);
        errors := Append(errors, err);
        evs, v, codes := evs + more, ViewOf(peers), codes + [code];
      }
      stage := Stage(evs, v);
    }

    /** Sets the condition that sums up a reconcile. */
    method SetConditions(active: nat, clean: bool) returns (ghost now: int)
      modifies status`conditions
      ensures status.conditions == ConditionsAfter(old(status.conditions), active, spec.NumReplicas(), clean, now)
      ensures old(Tidy()) ==> Tidy()
    {
      ghost var before := status.conditions;
      var time: int := *;
      now := time;
      if active > spec.NumReplicas() {
        status.SetScalingDownCondition(active, spec.NumReplicas(), time);
      } else if active < spec.NumReplicas() {
        status.SetScalingUpCondition(active, spec.NumReplicas(), time);
      } else if !clean {
        status.SetRecoveringCondition(time);
      } else {
        status.SetReadyCondition(time);
      }
      if Distinct(before) { ReportedHealth(before, active, spec.NumReplicas(), clean, now); }
    }

    /** Replaces the member table by its merge with the polled pods. */
    method SyncPeers(pods: seq<string>)
      requires Valid()
      modifies this`peers
      ensures Valid() && forall n | n in peers :: fresh(peers[n])
      ensures ViewOf(peers) == Merge(old(ViewOf(peers)), PodView(pods))
    {
      ghost var v := ViewOf(peers);
      MergeSound(v, pods);
      var running := PodsToMemberSet(pods);
      ViewIs(peers, v);
      var merged := MemberSets.Reconcile(peers, running, spec.NumReplicas());
      ghost var w := ViewOf(merged);
      assert w == Merge(v, PodView(pods));
      peers := merged;
      ViewIs(peers, w);
    }

    /** Probes the healthy members and recovers the failed ones. */
    method Check() returns (errors: seq<Error>, ghost c: CheckLog)
      requires Valid()
      modifies peers.Values
      ensures Valid() && c.recover.after == ViewOf(peers)
      ensures CheckPass(old(ViewOf(peers)), c, spec.UsesSecondaries(), errors == [])
    {
      var errs, probeOrder, codes, probe := Probe();
      var more, evs, order := Recover();
      errors := errs + more;
      c := CheckLog(probeOrder, codes, probe, order, Stage(evs, ViewOf(peers)));
    }

    /** Publishes the health found by a reconcile. */
    method Publish(clean: bool) returns (ghost now: int)
      modifies this`mirror, this`stored, status`conditions, status`replicas
      ensures var active := |Active(ViewOf(peers))|;
        status.conditions == ConditionsAfter(old(status.conditions), active, spec.NumReplicas(), clean, now)
      ensures status.replicas == |peers|
      ensures old(Tidy()) ==> Tidy()
      ensures mirror == status.Value() && (stored == old(stored) || stored == status.Value())
      ensures ViewOf(peers) == old(ViewOf(peers))
      ensures StoredFrom(old(stored.restoreReplicas)) && status.restoreReplicas == old(status.restoreReplicas)
    {
      ghost var v := ViewOf(peers);
      var active := ActiveMembers(peers);
      now := SetConditions(active, clean);
      status.replicas := |peers|;
      ViewIs(peers, v);
      var _ := UpdateCRStatus();
    }

    method ReconcilePeers(pods: seq<string>) returns (errors: seq<Error>, ghost log: ReconcileLog)
      requires Valid()
      modifies this`peers
      ensures Valid() && log.check.recover.after == ViewOf(peers) && forall n | n in peers :: fresh(peers[n])
      ensures log.before == old(ViewOf(peers)) && log.pods == PodView(pods)
      ensures ReconcilePass(log, spec.UsesSecondaries(), errors == [])
    {
      ghost var v := ViewOf(peers);
      SyncPeers(pods);
      ghost var synced := ViewOf(peers);
      var errs, check := Check();
      errors := errs;
      log := ReconcileLog(PodView(pods), v, synced, check);
    }

    /** Reconciles the table with the polled pods and publishes the resulting health. */
    method Reconcile(pods: seq<string>) returns (errors: seq<Error>, ghost log: ReconcileLog, ghost now: int)
      requires Valid()
      modifies this`peers, this`mirror, this`stored, status`conditions, status`replicas
      ensures Valid() && log.check.recover.after == ViewOf(peers) && forall n | n in peers :: fresh(peers[n])
      ensures log.before == old(ViewOf(peers)) && log.pods == PodView(pods)
      ensures ReconcilePass(log, spec.UsesSecondaries(), errors == [])
      ensures var active := |Active(ViewOf(peers))|;
        status.conditions == ConditionsAfter(old(status.conditions), active, spec.NumReplicas(), errors == [], now)
      ensures status.replicas == |peers|
      ensures old(Tidy()) ==> Tidy()
      ensures StoredFrom(old(stored.restoreReplicas)) && status.restoreReplicas == old(status.restoreReplicas)
      ensures mirror == status.Value() && (stored == old(stored) || stored == status.Value())
    {
      errors, log := ReconcilePeers(pods);
      now := Publish(errors == []);
    }

    /** The promotion, demotion and secondary phases. */
    method Scale(replicas: nat, primaries: nat, patience: nat)
      returns (errors: seq<Error>, done: bool, ghost s: ScaleLog)
      requires Valid() && Live(ViewOf(peers)) != {}
      modifies peers.Values
      ensures Valid() && ScalePass(old(ViewOf(peers)), s, replicas, primaries)
      ensures s.assist.after == ViewOf(peers)
      ensures s.done == done && (done ==> (s.scaled <==> errors == []))
      ensures !s.done ==> |s.assist.evs| > patience
    {
      var errs, pevs := Promote(primaries);
      ghost var promote := Stage(pevs, ViewOf(peers));
      ghost var promoted := errs == [];
      ghost var demote, demoted := Stage([], ViewOf(peers)), false;
      ghost var assist := demote;
      done := true;
      errors := errs;
      if errors == [] {
        var errs', devs := Demote(primaries);
        errors := errs';
        demote, demoted := Stage(devs, ViewOf(peers)), errs' == [];
        assist := Stage([], ViewOf(peers));
        if errors == [] {
          var errs'', done', aevs := Assist(replicas, patience);
          errors, done := errs'', done';
          assist := Stage(aevs, ViewOf(peers));
        }
      }
      s := ScaleLog(promote, promoted, demote, demoted, assist, done, errors == []);
    }

    /** Seeds the cluster if it has no live primary. */
    method Bootstrap(replicas: nat, primaries: nat)
      returns (errors: seq<Error>, ghost detect: Stage, ghost order: seq<string>, ghost seed: Stage)
      requires Valid()
      modifies peers.Values
      ensures Valid() && seed.after == ViewOf(peers)
      ensures DetectPass(old(ViewOf(peers)), detect, replicas, primaries)
      ensures SeedPass(detect.after, order, seed)
      ensures errors == [] <==> Live(ViewOf(peers)) != {}
    {
      errors, order := [], [];
      ghost var v := ViewOf(peers);
      var live := AppPrimaries(peers);
      var running := AppMembers(peers);
      ghost var devs, sevs := [], [];
      if live != primaries || running != replicas {
        devs := DetectMembers();
      }
      DetectionCounts(v, devs, ViewOf(peers));
      detect := Stage(devs, ViewOf(peers));
      live := AppPrimaries(peers);
      if live == 0 {
        errors, sevs, order := Seed();
      }
      seed := Stage(sevs, ViewOf(peers));
    }

    /** Everything after seeding: scaling, then recovery unless all is well. */
    method ScaleAndFinish(replicas: nat, primaries: nat, patience: nat)
      returns (errors: seq<Error>, done: bool, ghost s: ScaleLog, ghost order: seq<string>, ghost recover: Stage)
      requires Valid() && Live(ViewOf(peers)) != {}
      modifies peers.Values
      ensures Valid() && recover.after == ViewOf(peers)
      ensures ScalePass(old(ViewOf(peers)), s, replicas, primaries)
      ensures FinishPass(s, order, recover, replicas, s.done && errors == [])
      ensures done == s.done && (!done ==> |s.assist.evs| > patience)
    {
      order := [];
      var errs, done', scale := Scale(replicas, primaries, patience);
      errors, done, s := errs, done', scale;
      ghost var evs := [];
      if done && !(errors == [] && replicas > 0) {
        var more, cleanups, order' := Recover();
        errors, evs, order := errors + more, cleanups, order';
      }
      recover := Stage(evs, ViewOf(peers));
    }

    /** The pass waits for surplus members to stop, or for all pods to be there before it seeds. */
    method MustWait(replicas: nat, primaries: nat) returns (errors: seq<Error>)
      requires Valid()
      ensures errors ==
        var running, active := |Members(ViewOf(peers))|, |Active(ViewOf(peers))|;
        if running > replicas then [TooManyMembers(running - primaries)]
        else if Live(ViewOf(peers)) == {} && active != replicas then [MissingPods(replicas - active)] else []
      ensures ViewOf(peers) == old(ViewOf(peers))
    {
      ghost var v := ViewOf(peers);
      var running := AppMembers(peers);
      if running > replicas {
        return [TooManyMembers(running - primaries)];
      }
      var live := AppPrimaries(peers);
      var active: int := ActiveMembers(peers);
      ViewIs(peers, v);
      errors := if live == 0 && active != replicas then [MissingPods(replicas - active)] else [];
    }

    /** The rest of the pass. */
    method BootstrapAndScale(patience: nat) returns (errors: seq<Error>, done: bool, ghost log: ReplicateLog)
      requires Valid() && !Waiting(ViewOf(peers), spec.NumReplicas())
      modifies peers.Values
      ensures done == log.scale.done && (!done ==> |log.scale.assist.evs| > patience)
      ensures Valid() && log.before == old(ViewOf(peers)) && log.recover.after == ViewOf(peers)
      ensures ReplicatePass(log, spec.NumReplicas(), spec.NumPrimaries(), log.scale.done && errors == [])
    {
      var replicas, primaries := spec.NumReplicas(), spec.NumPrimaries();
      ghost var v := ViewOf(peers);
      var errs, detect, order, seed := Bootstrap(replicas, primaries);
      if errs != [] {
        ghost var idle := Stage([], seed.after);
        log := ReplicateLog(v, detect, order, seed, ScaleLog(idle, false, idle, false, idle, true, false), [], idle);
        FullPass(log, replicas, primaries, false);
        return errs, true, log;
      }
      var errs', done', scale, recoverOrder, recover := ScaleAndFinish(replicas, primaries, patience);
      errors, done := errs', done';
      log := ReplicateLog(v, detect, order, seed, scale, recoverOrder, recover);
      FullPass(log, replicas, primaries, scale.done && errors == []);
    }

    method ReplicatePeers(patience: nat) returns (errors: seq<Error>, done: bool, ghost log: ReplicateLog)
      requires Valid()
      modifies peers.Values
      ensures done == log.scale.done && (!done ==> |log.scale.assist.evs| > patience)
      ensures Valid() && log.before == old(ViewOf(peers)) && log.recover.after == ViewOf(peers)
      ensures ReplicatePass(log, spec.NumReplicas(), spec.NumPrimaries(), log.scale.done && errors == [])
    {
      ghost var v := ViewOf(peers);
      var errs := MustWait(spec.NumReplicas(), spec.NumPrimaries());
      if errs != [] {
        ghost var idle := Stage([], v);
        log := ReplicateLog(v, idle, [], idle, ScaleLog(idle, false, idle, false, idle, true, false), [], idle);
        WaitingPass(log, spec.NumReplicas(), spec.NumPrimaries());
        return errs, true, log;
      }
      errors, done, log := BootstrapAndScale(patience);
    }

    /** One replicate pass.  It may wait, seed, promote, demote, start secondaries and
        finally recover; `patience` bounds the secondary loop, which need not end. */
    method Replicate(patience: nat) returns (errors: seq<Error>, done: bool, ghost log: ReplicateLog)
      requires Valid()
      modifies peers.Values, this`mirror, this`stored
      ensures Valid() && log.before == old(ViewOf(peers)) && log.recover.after == ViewOf(peers)
      ensures ReplicatePass(log, spec.NumReplicas(), spec.NumPrimaries(), log.scale.done && errors == [])
      ensures done == log.scale.done && (!done ==> |log.scale.assist.evs| > patience)
      ensures done ==> mirror == status.Value()
      ensures old(Tidy()) ==> Tidy()
      ensures stored == old(stored) || stored == status.Value()
      ensures StoredFrom(old(stored.restoreReplicas)) && status.restoreReplicas == old(status.restoreReplicas)
    {
      errors, done, log := ReplicatePeers(patience);
      if done { var _ := UpdateCRStatus(); }
    }

    /** Resizes the StatefulSet to the wanted size, unless it is empty and that size is
        below the restore size in the local copy of the custom resource. */
    method Resize() returns (ok: bool)
      modifies this`mirror, this`stored, this`sts, status`phase
      ensures ok ==> Resized(old(Now()), spec.NumReplicas(), old(mirror.restoreReplicas), Now())
      ensures !ok ==> sts == old(sts)
      ensures mirror == (if (ok && sts == old(sts) != spec.NumReplicas()) || status.phase != old(status.phase)
                         then status.Value() else old(mirror))
      ensures StoredFrom(old(stored.restoreReplicas)) && ViewOf(peers) == old(ViewOf(peers))
    {
      var got: bool := *;
      if !got { return false; }
      var size := sts;
      if size != spec.NumReplicas() {
        if size == 0 && spec.NumReplicas() < mirror.restoreReplicas {
          status.phase := Paused;
          var _ := UpdateCRStatus();
          return true;
        }
        size := spec.NumReplicas();
        if status.phase == Paused {
          status.phase := Running;
          var _ := UpdateCRStatus();
        }
      }
      var patched: bool := *;
      if !patched { return false; }
      sts := size;
      ok := true;
    }

    /** A changed resource arrives, carrying some copy of the status. */
    method HandleUpdateEvent(newSpec: Spec, carried: Snapshot) returns (ok: bool)
      modifies this`spec, this`mirror, this`stored, this`sts, status`phase
      ensures spec == newSpec
      ensures if newSpec.NumReplicas() == old(spec).NumReplicas() && newSpec.paused == old(spec).paused
                 && newSpec.NumPrimaries() == old(spec).NumPrimaries()
              then ok && sts == old(sts) && status.phase == old(status.phase) && mirror == carried && stored == old(stored)
              else ok ==> Resized(old(Now()), newSpec.NumReplicas(), carried.restoreReplicas, Now())
      ensures !ok ==> sts == old(sts)
      ensures StoredFrom(old(stored.restoreReplicas)) && ViewOf(peers) == old(ViewOf(peers))
    {
      var oldSpec := spec;
      spec, mirror := newSpec, carried;
      if IsSpecEqual(newSpec, oldSpec) { return true; }
      ok := Resize();
    }

    /** The second reconcile of a round, over the same and by now stale pod list. */
    method Retry(pods: seq<string>, ghost first: ReconcileLog, ghost repl: ReplicateLog) returns (ghost round: Round)
      requires Valid() && first.pods == PodView(pods)
      requires repl.before == first.check.recover.after && repl.recover.after == ViewOf(peers) && repl.scale.done
      modifies this`peers, this`mirror, this`stored, status`conditions, status`replicas
      ensures Valid() && StoredFrom(old(stored.restoreReplicas)) && status.restoreReplicas == old(status.restoreReplicas)
      ensures old(Tidy()) ==> Tidy()
      ensures (&& ReconcilePass(first, spec.UsesSecondaries(), true)
               && ReplicatePass(repl, spec.NumReplicas(), spec.NumPrimaries(), false)) ==> RoundHolds(round, ViewOf(peers))
      ensures round.Retried? && round.spec == spec
      ensures round.Start() == first.before && round.first.pods == first.pods
    {
      var errs, again, _ := Reconcile(pods);
      round := Retried(spec, first, repl, again);
      RetriedRound(spec, first, repl, again, errs == []);
    }

    /** Replicate after a clean reconcile, and reconcile again if that reported errors. */
    method Advance(pods: seq<string>, patience: nat, ghost first: ReconcileLog) returns (hung: bool, ghost round: Round)
      requires Valid() && first.pods == PodView(pods) && first.check.recover.after == ViewOf(peers)
      modifies this`peers, peers.Values, this`mirror, this`stored, status`conditions, status`replicas
      ensures Valid() && StoredFrom(old(stored.restoreReplicas)) && status.restoreReplicas == old(status.restoreReplicas)
      ensures old(Tidy()) ==> Tidy()
      ensures ReconcilePass(first, spec.UsesSecondaries(), true) ==> RoundHolds(round, ViewOf(peers))
      ensures (round.Replicated? || round.Retried?) && round.spec == spec && hung == round.Hung()
      ensures round.Start() == first.before && round.first.pods == first.pods
    {
      var errs, done, repl := Replicate(patience);
      hung, round := !done, Replicated(spec, first, repl);
      if done && errs != [] {
        round := Retry(pods, first, repl);
      } else {
        ReplicatedRound(spec, first, repl);
      }
    }

    /** Reconcile, then replicate if all is well, then reconcile again if it was not. */
    method Work(pods: seq<string>, patience: nat) returns (hung: bool, ghost round: Round)
      requires Valid()
      modifies this`peers, this`mirror, this`stored, status`conditions, status`replicas
      ensures Valid() && StoredFrom(old(stored.restoreReplicas)) && RoundHolds(round, ViewOf(peers))
      ensures old(Tidy()) ==> Tidy()
      ensures (round.Reconciled? || round.Replicated? || round.Retried?) && round.spec == spec && hung == round.Hung()
      ensures round.Start() == old(ViewOf(peers)) && round.first.pods == PodView(pods)
    {
      var errors, first, _ := Reconcile(pods);
      if errors != [] {
        ReconciledRound(spec, first, errors == []);
        return false, Reconciled(spec, first);
      }
      hung, round := Advance(pods, patience, first);
    }

    /** No pod runs: forget the members of a stopped cluster, take the others offline. */
    method Clear() returns (ghost round: Round)
      requires Valid()
      modifies this`peers
      ensures Valid() && round.Start() == old(ViewOf(peers)) && RoundHolds(round, ViewOf(peers))
      ensures round.Cleared? && (round.e.Forget? <==> spec.NumReplicas() == 0)
    {
      ghost var v := ViewOf(peers);
      if spec.NumReplicas() == 0 {
        round := Cleared(Forget(v));
        peers := map[];
        assert ViewOf(peers) == map[];
      } else {
        round := Cleared(Sync(map[], v));
        SyncPeers([]);
        assert PodView([]) == map[];
      }
      ClearedRound(round.e);
    }

    /** All wanted pods run: their number is the restore size. */
    method NoteFull(count: nat)
      modifies this`mirror, this`stored, status`restoreReplicas
      ensures status.Value() == old(status.Value()).(restoreReplicas := count) && mirror == status.Value()
      ensures StoredFrom(old(stored.restoreReplicas)) && ViewOf(peers) == old(ViewOf(peers))
    {
      status.restoreReplicas := count;
      var _ := UpdateCRStatus();
    }

    /** Records the poll in the status, and tells whether to go on to the members. */
    method NotePoll(poll: Poll) returns (proceed: bool)
      modifies this`mirror, this`stored, status
      ensures proceed <==> !spec.paused && poll.Polled? && poll.pending == 0
      ensures status.Value() == old(status.Value()).(
        controlPaused := spec.paused,
        replicas := if spec.paused || poll.PollFailed? then old(status.replicas) else |poll.running|,
        restoreReplicas := if proceed && |poll.running| == spec.NumReplicas() > 0 then spec.NumReplicas() else old(status.restoreReplicas))
      ensures !spec.paused && poll.Polled? ==> mirror == status.Value()
      ensures StoredFrom(old(stored.restoreReplicas)) || stored.restoreReplicas == old(status.restoreReplicas)
      ensures ViewOf(peers) == old(ViewOf(peers))
    {
      ghost var v := ViewOf(peers);
      status.controlPaused := spec.paused;
      ViewIs(peers, v);
      if spec.paused || poll.PollFailed? { return false; }
      status.replicas := |poll.running|;
      ViewIs(peers, v);
      var _ := UpdateCRStatus();
      proceed := poll.pending == 0;
      if proceed && poll.running != [] && |poll.running| == spec.NumReplicas() {
        NoteFull(|poll.running|);
      }
    }

    /** One tick of the reconcile timer. */
    method HandleTick(poll: Poll, patience: nat) returns (hung: bool, ghost round: Round)
      requires Valid()
      modifies this`peers, this`mirror, this`stored, status
      ensures Valid() && round.Start() == old(ViewOf(peers)) && RoundHolds(round, ViewOf(peers))
      ensures StepHolds(old(Now()), Tick(poll), round, Now()) && hung == round.Hung()
      ensures old(Tidy()) ==> Tidy()
    {
      hung, round := false, Idle(ViewOf(peers));
      IdleRound(ViewOf(peers));
      var proceed := NotePoll(poll);
      if !proceed { return; }
      if poll.running == [] {
        round := Clear();
      } else {
        hung, round := Work(poll.running, patience);
      }
    }

    /** A failed update is reported, and ends the loop. */
    method HandleModify(newSpec: Spec, carried: Snapshot) returns (ok: bool)
      requires status.phase != Failed
      modifies this`spec, this`mirror, this`stored, this`sts, status
      ensures ControlStep(old(Now()), Modify(newSpec, carried), Now()) && ViewOf(peers) == old(ViewOf(peers))
      ensures (ok <==> status.phase != Failed) && (!ok ==> mirror == status.Value())
      ensures old(Tidy()) ==> Tidy()
    {
      ok := HandleUpdateEvent(newSpec, carried);
      if !ok {
        ghost var v := ViewOf(peers);
        status.phase := Failed;
        ViewIs(peers, v);
        var _ := UpdateCRStatus();
      }
    }

    method HandleInput(input: Input, patience: nat) returns (over: bool, ghost round: Round)
      requires Valid() && status.phase != Failed
      modifies this`peers, this`spec, this`mirror, this`stored, this`sts, status
      ensures Valid() && round.Start() == old(ViewOf(peers)) && RoundHolds(round, ViewOf(peers))
      ensures StepHolds(old(Now()), input, round, Now())
      ensures old(Tidy()) ==> Tidy()
      ensures (over <==> Over(input, round, Now())) && (input.Modify? && over ==> mirror == status.Value())
    {
      over, round := true, Idle(ViewOf(peers));
      IdleRound(ViewOf(peers));
      match input {
        case Stop =>
        case Modify(newSpec, carried) =>
          var ok := HandleModify(newSpec, carried);
          over := !ok;
        case Tick(poll) =>
          over, round := HandleTick(poll, patience);
      }
    }

    /** The main loop over any finite list of inputs.  `controls` are the control states
        before each input and at the end. */
    method Run(inputs: seq<Input>, patience: nat) returns (ghost rounds: seq<Round>, ghost controls: seq<Control>)
      requires Valid()
      modifies this`peers, this`spec, this`mirror, this`stored, this`sts, status
      ensures Valid() && RunHolds(old(ViewOf(peers)), rounds, ViewOf(peers))
      ensures old(Tidy()) ==> Tidy()
      ensures Served(inputs, rounds, controls) && controls[|rounds|] == Now()
      ensures |rounds| == |inputs| || (rounds != [] && Over(inputs[|rounds| - 1], rounds[|rounds| - 1], Now()))
      ensures controls[0] == old(Now()).(phase := Running, stored := controls[0].stored)
      ensures controls[0].stored == old(stored.restoreReplicas) || controls[0].stored == controls[0].restore
    {
      ghost var v0 := ViewOf(peers);
      ghost var v := v0;
      status.phase := Running;
      var _ := UpdateCRStatus();
      rounds, controls := [], [Now()];
      for i := 0 to |inputs|
        invariant Keyed(peers) && Inv(v) && v == ViewOf(peers) && status.phase != Failed
        invariant RunHolds(v0, rounds, v) && |rounds| == i && (old(Tidy()) ==> Tidy())
        invariant Served(inputs, rounds, controls) && controls[i] == Now()
        invariant i > 0 ==> !Over(inputs[i - 1], rounds[i - 1], controls[i])
        invariant controls[0] == old(Now()).(phase := Running, stored := controls[0].stored)
        invariant controls[0].stored == old(stored.restoreReplicas) || controls[0].stored == controls[0].restore
      {
        var over, round := HandleInput(inputs[i], patience);
        RunStep(v0, rounds, round, ViewOf(peers));
        ServedStep(inputs, rounds, controls, round, Now());
        rounds, controls, v := rounds + [round], controls + [Now()], ViewOf(peers);
        if over { return; }
      }
    }
  }
}
