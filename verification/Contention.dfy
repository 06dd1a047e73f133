/** One live actor per device: exactly when the bridge guarantees it, and how an
    actor can lose its map entry to another routing call. */
module Contention {
  import opened Bridge
  import opened Options

  /** A call past its lookup, on its way to a new channel. */
  predicate Building(c: Call) {
    c.pc.Removing? || c.pc.Creating? || c.pc.Inserting? || c.pc.Spawning?
  }

  predicate ContendedBy(s: State, i: nat, j: nat) {
    && i < |s.calls| && j < |s.calls| && i != j
    && Building(s.calls[i]) && Building(s.calls[j]) && s.calls[i].device == s.calls[j].device
  }

  /** Two calls build a channel for the same device. */
  ghost predicate Contended(s: State) {
    exists i, j :: ContendedBy(s, i, j)
  }

  /** A run that is bad in none of the states it passes. */
  ghost predicate Avoids(labels: seq<Label>, bad: State -> bool)
    requires IsRun(labels)
  {
    !bad(Reached(labels)) && (labels != [] ==> Avoids(labels[..|labels| - 1], bad))
  }

  /** A run in which that never happens, as a lock per device around route ensures. */
  ghost predicate Serial(labels: seq<Label>)
    requires IsRun(labels)
  {
    Avoids(labels, (s: State) => Contended(s))
  }

  predicate Owns(s: State, c: nat)
    requires c < |s.chans|
  {
    s.chans[c].device in s.devices && s.devices[s.chans[c].device] == c
  }

  /** Every actor that has not begun to leave the map is its device's entry. */
  ghost predicate ActorsOwn(s: State) {
    forall c :: 0 <= c < |s.chans| && (s.chans[c].phase.Live? || s.chans[c].phase.Leaving?) ==> Owns(s, c)
  }

  /** What the map holds for the device of a building call. */
  predicate BuildsAlone(s: State, c: Call) {
    match c.pc
    case Removing =>
      c.device in s.devices && s.devices[c.device] < |s.chans| && s.chans[s.devices[c.device]].phase.Panicked?
    case Creating => c.device !in s.devices
    case Inserting(_) => c.device !in s.devices
    case Spawning(chan) => c.device in s.devices && s.devices[c.device] == chan
    case _ => true
  }

  ghost predicate Orderly(s: State) {
    ActorsOwn(s) && forall i :: 0 <= i < |s.calls| ==> BuildsAlone(s, s.calls[i])
  }

  // ----- Without contention -----

  lemma LookOrderly(s: State, i: nat)
    requires Wired(s) && Orderly(s) && CallAt(s, i, Looking)
    ensures Orderly(LookUp(s, i))
  {
  }

  lemma BuildOrderly(s: State, i: nat, step: RouteStep)
    requires Wired(s) && Orderly(s) && CanRoute(s, i, step) && !step.Look? && !Contended(s)
    ensures Orderly(Routed(s, i, step))
  {
    forall j: nat | j < |s.calls| && j != i && Building(s.calls[j])
      ensures s.calls[j].device != s.calls[i].device
    {
      assert !ContendedBy(s, i, j);
    }
  }

  lemma ActOrderly(s: State, c: nat, step: ActorStep)
    requires Wired(s) && Orderly(s) && CanAct(s, c, step)
    ensures Orderly(Apply(s, Act(c, step)))
  {
  }

  lemma OrderlyStep(s: State, l: Label)
    requires Wired(s) && Orderly(s) && Enabled(s, l) && !Contended(s)
    ensures Orderly(Apply(s, l))
  {
    match l
    case Route(i, step) =>
      if step.Look? {
        LookOrderly(s, i);
      } else {
        BuildOrderly(s, i, step);
      }
    case Act(c, step) => ActOrderly(s, c, step);
    case _ =>
  }

  lemma {:induction false} SerialIsOrderly(labels: seq<Label>)
    requires IsRun(labels) && Serial(labels)
    ensures Orderly(Reached(labels))
  {
    if labels != [] {
      var init := labels[..|labels| - 1];
      SerialIsOrderly(init);
      RunsAreSound(init);
      OrderlyStep(Reached(init), labels[|labels| - 1]);
    }
  }

  /** Without contention every actor is its device's entry until it removes itself, so a
      device never has two; panics included. */
  lemma OneActorWhenSerial(labels: seq<Label>)
    requires IsRun(labels) && Serial(labels)
    ensures ActorsOwn(Reached(labels)) && !TwoLive(Reached(labels))
  {
    SerialIsOrderly(labels);
  }

  // ----- With contention -----

  function NextStep(pc: Pc): RouteStep
    requires pc.Removing? || pc.Creating? || pc.Inserting? || pc.Spawning?
  {
    match pc
    case Removing => Remove
    case Creating => Create
    case Inserting(_) => Insert
    case Spawning(_) => Spawn
  }

  /** Building call i has gone on from s to s' alone, to a live actor of its own. */
  ghost predicate Completed(s: State, s': State, i: nat) {
    && i < |s.calls| == |s'.calls| && |s.chans| <= |s'.chans|
    && (forall k :: 0 <= k < |s.calls| && k != i ==> s'.calls[k] == s.calls[k])
    && (forall c :: 0 <= c < |s.chans| && s.chans[c].phase.Live? ==> s'.chans[c] == s.chans[c])
    && s'.calls[i].pc.Placed?
    && var c := s'.calls[i].pc.chan;
       && c < |s'.chans| && s'.chans[c].phase.Live? && s'.chans[c].device == s.calls[i].device
       && (c < |s.chans| ==> s.chans[c].phase.Unspawned?)
       && (!s.calls[i].pc.Spawning? ==> s.calls[i].device in s'.devices && s'.devices[s.calls[i].device] == c)
  }

  /** A step short of the last one. */
  ghost predicate Advanced(s: State, s1: State, i: nat) {
    && i < |s.calls| == |s1.calls| && |s.chans| <= |s1.chans|
    && (forall k :: 0 <= k < |s.calls| && k != i ==> s1.calls[k] == s.calls[k])
    && (forall c :: 0 <= c < |s.chans| ==> s1.chans[c] == s.chans[c])
    && (forall c :: |s.chans| <= c < |s1.chans| ==> s1.chans[c].phase.Unspawned?)
    && s1.calls[i].device == s.calls[i].device
  }

  lemma CompletedFurther(s: State, s1: State, s': State, i: nat)
    requires Advanced(s, s1, i) && Completed(s1, s', i)
    requires s1.calls[i].pc.Spawning? ==>
               s1.devices[s1.calls[i].device := s1.calls[i].pc.chan] == s1.devices == s'.devices
               && s'.calls[i].pc.chan == s1.calls[i].pc.chan
    ensures Completed(s, s', i)
  {
  }

  lemma SpawnCompletes(s: State, i: nat)
    requires Wired(s) && i < |s.calls| && s.calls[i].pc.Spawning?
    ensures CanRoute(s, i, Spawn) && Completed(s, Routed(s, i, Spawn), i)
    ensures Routed(s, i, Spawn).devices == s.devices && Routed(s, i, Spawn).calls[i].pc.chan == s.calls[i].pc.chan
  {
    assert Built(s.calls[i]).Some?;
  }

  lemma BuildAdvances(s: State, i: nat)
    requires Wired(s) && i < |s.calls| && Building(s.calls[i]) && !s.calls[i].pc.Spawning?
    ensures var step := NextStep(s.calls[i].pc);
            && CanRoute(s, i, step)
            && var s1 := Routed(s, i, step);
               && Advanced(s, s1, i) && Building(s1.calls[i])
               && (s1.calls[i].pc.Spawning? ==>
                     s1.devices[s1.calls[i].device := s1.calls[i].pc.chan] == s1.devices)
  {
    assert s.calls[i].pc.Inserting? ==> Built(s.calls[i]).Some?;
  }

  function StepsLeft(pc: Pc): nat {
    match pc case Removing => 3 case Creating => 2 case Inserting(_) => 1 case _ => 0
  }

  /** more goes on from labels with steps of routing calls only: nothing new arrives. */
  ghost predicate OnlyRoutes(labels: seq<Label>, more: seq<Label>) {
    labels <= more && forall k :: |labels| <= k < |more| ==> more[k].Route?
  }

  /** From any reachable state a building call can run on alone. */
  lemma {:induction false} RunsOn(labels: seq<Label>, i: nat) returns (more: seq<Label>)
    requires IsRun(labels) && i < |Reached(labels).calls| && Building(Reached(labels).calls[i])
    ensures IsRun(more) && OnlyRoutes(labels, more) && Completed(Reached(labels), Reached(more), i)
    ensures Reached(labels).calls[i].pc.Spawning? ==>
              Reached(more).devices == Reached(labels).devices
              && Reached(more).calls[i].pc.chan == Reached(labels).calls[i].pc.chan
    decreases StepsLeft(Reached(labels).calls[i].pc)
  {
    var s := Reached(labels);
    RunsAreSound(labels);
    var l := Route(i, NextStep(s.calls[i].pc));
    if s.calls[i].pc.Spawning? {
      SpawnCompletes(s, i);
      Extend(labels, l);
      more := labels + [l];
    } else {
      BuildAdvances(s, i);
      Extend(labels, l);
      more := RunsOn(labels + [l], i);
      CompletedFurther(s, Reached(labels + [l]), Reached(more), i);
    }
  }

  lemma TwoCompletions(s: State, s1: State, s2: State, i: nat, j: nat)
    requires ContendedBy(s, i, j) && Completed(s, s1, i) && Completed(s1, s2, j)
    ensures TwoLive(s2)
  {
    var a, b := s1.calls[i].pc.chan, s2.calls[j].pc.chan;
    assert s2.chans[a].phase.Live? && s2.chans[b].phase.Live?;
    assert a != b;
  }

  /** The condition is exact: wherever two calls build for one device, the run can go on
      to two live actors of that device. */
  lemma TwoActorsWhenContended(labels: seq<Label>, i: nat, j: nat) returns (more: seq<Label>)
    requires IsRun(labels) && ContendedBy(Reached(labels), i, j)
    ensures IsRun(more) && OnlyRoutes(labels, more) && TwoLive(Reached(more))
  {
    var once := RunsOn(labels, i);
    more := RunsOn(once, j);
    TwoCompletions(Reached(labels), Reached(once), Reached(more), i, j);
  }

  // ----- Whose entry a routing call takes -----

  /** Call i still has to touch the map, while call j builds the channel that is, or is
      going to be, the entry of the same device. */
  predicate ThreatenedBy(s: State, i: nat, j: nat) {
    && ContendedBy(s, i, j) && !s.calls[i].pc.Spawning?
    && (s.calls[j].pc.Spawning? ==>
          s.calls[j].device in s.devices && s.devices[s.calls[j].device] == s.calls[j].pc.chan)
  }

  ghost predicate Threatened(s: State) {
    exists i, j :: ThreatenedBy(s, i, j)
  }

  /** In particular, call i is about to remove the closed channel it has found. */
  predicate ExposedBy(s: State, i: nat, j: nat) {
    ThreatenedBy(s, i, j) && s.calls[i].pc.Removing?
  }

  ghost predicate Exposed(s: State) {
    exists i, j :: ExposedBy(s, i, j)
  }

  ghost predicate Unthreatened(labels: seq<Label>)
    requires IsRun(labels)
  {
    Avoids(labels, (s: State) => Threatened(s))
  }

  ghost predicate Guarded(labels: seq<Label>)
    requires IsRun(labels)
  {
    Avoids(labels, (s: State) => Exposed(s))
  }

  lemma {:induction false} SerialIsGuarded(labels: seq<Label>)
    requires IsRun(labels)
    ensures Serial(labels) ==> Unthreatened(labels)
    ensures Unthreatened(labels) ==> Guarded(labels)
  {
    var s := Reached(labels);
    assert forall i, j :: ThreatenedBy(s, i, j) ==> ContendedBy(s, i, j);
    assert forall i, j :: ExposedBy(s, i, j) ==> ThreatenedBy(s, i, j);
    if labels != [] {
      SerialIsGuarded(labels[..|labels| - 1]);
    }
  }

  /** The device has no entry, or a panicked actor's. */
  predicate Vacant(s: State, d: Device) {
    d in s.devices ==> s.devices[d] < |s.chans| && s.chans[s.devices[d]].phase.Panicked?
  }

  /** Call i is past its lookup and has still to touch the map. */
  predicate Pending(s: State, i: nat) {
    i < |s.calls| && (s.calls[i].pc.Removing? || s.calls[i].pc.Creating? || s.calls[i].pc.Inserting?)
  }

  lemma LookedUpVacant(s: State, i: nat)
    requires Wired(s) && CallAt(s, i, Looking) && Pending(LookUp(s, i), i)
    ensures Vacant(LookUp(s, i), LookUp(s, i).calls[i].device)
  {
  }

  /** Another call's step, for a pending call it does not threaten. */
  lemma OtherRouteVacant(s: State, k: nat, step: RouteStep, i: nat)
    requires Wired(s) && CanRoute(s, k, step) && k != i && Pending(s, i) && Vacant(s, s.calls[i].device)
    requires !ThreatenedBy(s, i, k)
    ensures Vacant(Routed(s, k, step), s.calls[i].device)
  {
    match step
    case Look =>
    case Remove =>
    case Create =>
    case Insert => assert s.calls[k].device != s.calls[i].device;
    case Spawn => assert Built(s.calls[k]).Some?;
  }

  lemma OwnRouteVacant(s: State, i: nat, step: RouteStep)
    requires Wired(s) && CanRoute(s, i, step) && !step.Look? && Pending(Routed(s, i, step), i)
    requires Vacant(s, s.calls[i].device)
    ensures Vacant(Routed(s, i, step), s.calls[i].device)
  {
  }

  lemma ActVacant(s: State, c: nat, step: ActorStep, d: Device)
    requires CanAct(s, c, step) && Vacant(s, d)
    ensures Vacant(Apply(s, Act(c, step)), d)
  {
  }

  lemma OnlyLookLeadsToPending(s: State, l: Label, i: nat)
    requires Enabled(s, l) && Pending(Apply(s, l), i)
    ensures Pending(s, i) || (l == Route(i, Look) && CallAt(s, i, Looking))
    ensures CallAt(Apply(s, l), i, Removing) ==> CallAt(s, i, Removing) || l == Route(i, Look)
    ensures Apply(s, l).calls[i].device == s.calls[i].device
  {
    match l
    case Route(k, step) =>
      if k == i {
        match step
        case Look =>
        case _ =>
      }
    case _ =>
  }

  /** Nobody but a call that threatens it takes a device's vacancy away from a pending call. */
  lemma VacancyStep(s: State, l: Label, i: nat)
    requires Wired(s) && Enabled(s, l) && Pending(Apply(s, l), i)
    requires Pending(s, i) ==> Vacant(s, s.calls[i].device) && forall j: nat :: !ThreatenedBy(s, i, j)
    ensures Vacant(Apply(s, l), Apply(s, l).calls[i].device)
  {
    OnlyLookLeadsToPending(s, l, i);
    match l
    case Route(k, step) =>
      if step.Look? && k == i {
        LookedUpVacant(s, i);
      } else if k == i {
        OwnRouteVacant(s, i, step);
      } else {
        OtherRouteVacant(s, k, step, i);
      }
    case Act(c, step) => ActVacant(s, c, step, s.calls[i].device);
    case Reroute(_) =>
    case _ =>
  }

  lemma {:induction false} GuardedVacancy(labels: seq<Label>, i: nat)
    requires IsRun(labels) && Guarded(labels) && CallAt(Reached(labels), i, Removing)
    ensures Vacant(Reached(labels), Reached(labels).calls[i].device)
  {
    if labels != [] {
      var init, l := labels[..|labels| - 1], labels[|labels| - 1];
      var s := Reached(init);
      RunsAreSound(init);
      OnlyLookLeadsToPending(s, l, i);
      if CallAt(s, i, Removing) {
        GuardedVacancy(init, i);
        assert forall j: nat :: ThreatenedBy(s, i, j) ==> ExposedBy(s, i, j);
      }
      VacancyStep(s, l, i);
    }
  }

  lemma {:induction false} UnthreatenedVacancy(labels: seq<Label>, i: nat)
    requires IsRun(labels) && Unthreatened(labels) && Pending(Reached(labels), i)
    ensures Vacant(Reached(labels), Reached(labels).calls[i].device)
  {
    if labels != [] {
      var init, l := labels[..|labels| - 1], labels[|labels| - 1];
      var s := Reached(init);
      RunsAreSound(init);
      if Pending(s, i) {
        UnthreatenedVacancy(init, i);
        assert forall j: nat :: !ThreatenedBy(s, i, j);
      }
      VacancyStep(s, l, i);
    }
  }

  /** The step is route's remove, and what it removes is the entry of a live actor. */
  ghost predicate LosesLive(s: State, l: Label) {
    && l.Route? && l.routeStep.Remove? && Enabled(s, l)
    && var d := s.calls[l.call].device;
       d in s.devices && s.devices[d] < |s.chans| && s.chans[s.devices[d]].phase.Live?
  }

  /** route's remove is unconditional. In a run that is never exposed it removes nothing
      but a panicked actor's entry. */
  lemma RemoveIsSafeWhenGuarded(labels: seq<Label>, l: Label)
    requires IsRun(labels) && Guarded(labels)
    ensures !LosesLive(Reached(labels), l)
    ensures l.Route? && l.routeStep.Remove? && Enabled(Reached(labels), l) ==>
              Vacant(Reached(labels), Reached(labels).calls[l.call].device)
  {
    if l.Route? && l.routeStep.Remove? && Enabled(Reached(labels), l) {
      GuardedVacancy(labels, l.call);
    }
  }

  /** The condition is exact: from every exposed state the run can go on to where the
      remove takes a live actor's entry away. */
  lemma RemoveLosesLive(labels: seq<Label>, i: nat, j: nat) returns (more: seq<Label>)
    requires IsRun(labels) && ExposedBy(Reached(labels), i, j)
    ensures IsRun(more) && OnlyRoutes(labels, more) && LosesLive(Reached(more), Route(i, Remove))
  {
    more := RunsOn(labels, j);
  }

  /** The step takes the entry of an actor that has not panicked, and is not its own. */
  ghost predicate TakesEntry(s: State, l: Label, d: Device) {
    && Enabled(s, l) && EntryGoes(s, Apply(s, l), d)
    && !s.chans[s.devices[d]].phase.Panicked? && l != Act(s.devices[d], RemoveOwn)
  }

  /** In a run that is never threatened an entry whose actor has not panicked goes in one
      way only: its actor leaves. */
  lemma EntryGoesOneWayWhenUnthreatened(labels: seq<Label>, l: Label, d: Device)
    requires IsRun(labels) && Unthreatened(labels)
    ensures !TakesEntry(Reached(labels), l, d)
  {
    var s := Reached(labels);
    if TakesEntry(s, l, d) {
      EntryGoesThreeWays(labels, l, d);
      UnthreatenedVacancy(labels, l.call);
    }
  }

  lemma RemoveTakes(s: State, i: nat)
    requires Wired(s) && CallAt(s, i, Removing) && s.calls[i].device in s.devices
    requires s.chans[s.devices[s.calls[i].device]].phase.Live?
    ensures TakesEntry(s, Route(i, Remove), s.calls[i].device)
  {
  }

  lemma InsertTakes(s: State, i: nat)
    requires Wired(s) && i < |s.calls| && s.calls[i].pc.Inserting? && s.calls[i].device in s.devices
    requires s.chans[s.devices[s.calls[i].device]].phase.Live?
    ensures TakesEntry(s, Route(i, Insert), s.calls[i].device)
  {
    assert Built(s.calls[i]).Some?;
  }

  /** The condition is exact: from every threatened state the run can go on to where a
      routing call takes a live actor's entry, by its remove or its insert. */
  lemma EntryTakenWhenThreatened(labels: seq<Label>, i: nat, j: nat) returns (more: seq<Label>, l: Label)
    requires IsRun(labels) && ThreatenedBy(Reached(labels), i, j)
    ensures IsRun(more) && OnlyRoutes(labels, more)
    ensures TakesEntry(Reached(more), l, Reached(labels).calls[i].device)
  {
    more := RunsOn(labels, j);
    var s := Reached(more);
    RunsAreSound(more);
    if s.calls[i].pc.Removing? {
      RemoveTakes(s, i);
      l := Route(i, Remove);
    } else {
      if s.calls[i].pc.Creating? {
        Extend(more, Route(i, Create));
        more := more + [Route(i, Create)];
        RunsAreSound(more);
      }
      InsertTakes(Reached(more), i);
      l := Route(i, Insert);
    }
  }

  // ----- Contention really occurs -----

  /** The calls that questions from the broker began. */
  ghost function BrokerCalls(labels: seq<Label>): set<nat>
    requires IsRun(labels)
  {
    if labels == [] then {}
    else
      var init := labels[..|labels| - 1];
      BrokerCalls(init) + if labels[|labels| - 1].Arrive? then {|Reached(init).calls|} else {}
  }

  ghost predicate AllDone(s: State, calls: set<nat>) {
    forall i :: i in calls ==> i < |s.calls| && (s.calls[i].pc.Placed? || s.calls[i].pc.Dropped?)
  }

  /** One broker loop calls route synchronously, so its questions never overlap; what
      can overlap with one of them is an exiting actor's call. */
  ghost predicate BrokerInTurn(labels: seq<Label>)
    requires IsRun(labels)
  {
    labels == [] ||
    var init := labels[..|labels| - 1];
    BrokerInTurn(init) && (labels[|labels| - 1].Arrive? ==> AllDone(Reached(init), BrokerCalls(init)))
  }

  /** A run that can happen, with the state it reaches and the broker's calls in it. */
  ghost predicate Happens(labels: seq<Label>, s: State, calls: set<nat>) {
    IsRun(labels) && BrokerInTurn(labels) && Reached(labels) == s && BrokerCalls(labels) == calls
  }

  lemma Go(labels: seq<Label>, s: State, calls: set<nat>, l: Label) returns (more: seq<Label>)
    requires Happens(labels, s, calls) && Enabled(s, l) && (l.Arrive? ==> AllDone(s, calls))
    ensures Happens(more, Apply(s, l), calls + if l.Arrive? then {|s.calls|} else {})
  {
    Extend(labels, l);
    more := labels + [l];
    assert more[..|labels|] == labels;
  }

  lemma {:induction false} StillInTurn(labels: seq<Label>, more: seq<Label>)
    requires IsRun(labels) && BrokerInTurn(labels) && IsRun(more) && OnlyRoutes(labels, more)
    ensures BrokerInTurn(more)
    decreases |more|
  {
    if |more| == |labels| {
      assert more == labels;
    } else {
      var init := more[..|more| - 1];
      assert labels <= init;
      StillInTurn(labels, init);
    }
  }

  function Busy(d: Device, q: Question): Chan {
    Chan(d, Live, [q], [q], [], [], [], [], [])
  }

  /** The actor of the first question has left without having received it, drained it,
      and not yet routed it again. */
  function Left(d: Device, q: Question): State {
    State(map[], [Chan(d, Rerouting(None), [], [q], [], [], [q], [], [])], [Call(d, q, Placed(0))], [q], false)
  }

  /** A routing call that found no entry, from there to a live actor. */
  lemma BuildsUp(labels: seq<Label>, s: State, calls: set<nat>, i: nat) returns (more: seq<Label>)
    requires Happens(labels, s, calls) && CallAt(s, i, Creating)
    ensures var call, c := s.calls[i], |s.chans|;
            Happens(more, s.(devices := s.devices[call.device := c],
                             chans := s.chans + [Busy(call.device, call.question)],
                             calls := s.calls[i := call.(pc := Placed(c))]), calls)
  {
    var call, c := s.calls[i], |s.chans|;
    var s1 := s.(calls := s.calls[i := call.(pc := Inserting(c))],
                 chans := s.chans + [Opened(call.device, call.question)]);
    more := Go(labels, s, calls, Route(i, Create));
    var s2 := s1.(calls := s.calls[i := call.(pc := Spawning(c))], devices := s.devices[call.device := c]);
    assert Routed(s1, i, Insert) == s2;
    more := Go(more, s1, calls, Route(i, Insert));
    assert Routed(s2, i, Spawn).calls == s.calls[i := call.(pc := Placed(c))];
    assert Routed(s2, i, Spawn).chans == s.chans + [Busy(call.device, call.question)];
    more := Go(more, s2, calls, Route(i, Spawn));
  }

  /** A question for a device without an entry, from arrival to a live actor. */
  lemma FirstQuestion(labels: seq<Label>, s: State, calls: set<nat>, d: Device, q: Question) returns (more: seq<Label>)
    requires Happens(labels, s, calls) && AllDone(s, calls) && d !in s.devices
    ensures Happens(more, s.(devices := s.devices[d := |s.chans|], chans := s.chans + [Busy(d, q)],
                             calls := s.calls + [Call(d, q, Placed(|s.chans|))], arrived := s.arrived + [q]),
                    calls + {|s.calls|})
  {
    var i := |s.calls|;
    var s1 := Apply(s, Arrive(d, q));
    more := Go(labels, s, calls, Arrive(d, q));
    more := Go(more, s1, calls + {i}, Route(i, Look));
    more := BuildsUp(more, Routed(s1, i, Look), calls + {i}, i);
    assert Routed(s1, i, Look).calls[i := Call(d, q, Placed(|s.chans|))] == s.calls + [Call(d, q, Placed(|s.chans|))];
  }

  /** The actor's loop breaks before it receives the question; it leaves the map. */
  lemma ActorLeaves(labels: seq<Label>, s: State, d: Device, q: Question) returns (more: seq<Label>)
    requires s == State(map[d := 0], [Busy(d, q)], [Call(d, q, Placed(0))], [q], false) && Happens(labels, s, {0})
    ensures Happens(more, s.(devices := map[], chans := [Busy(d, q).(phase := Draining)]), {0})
  {
    var s1 := s.(chans := [Busy(d, q).(phase := Leaving)]);
    assert Apply(s, Act(0, Break)) == s1;
    more := Go(labels, s, {0}, Act(0, Break));
    var s2 := s.(chans := [Busy(d, q).(phase := Removed)], devices := map[]);
    assert Apply(s1, Act(0, RemoveOwn)) == s2;
    more := Go(more, s1, {0}, Act(0, RemoveOwn));
    assert Apply(s2, Act(0, Close)) == s2.(chans := [Busy(d, q).(phase := Draining)]);
    more := Go(more, s2, {0}, Act(0, Close));
  }

  lemma ActorDrains(labels: seq<Label>, s: State, d: Device, q: Question) returns (more: seq<Label>)
    requires s == State(map[], [Busy(d, q).(phase := Draining)], [Call(d, q, Placed(0))], [q], false)
    requires Happens(labels, s, {0})
    ensures Happens(more, Left(d, q), {0})
  {
    var s1 := s.(chans := [Busy(d, q).(phase := Draining, queue := [], unrouted := [q])]);
    assert [] + [q] == [q] && [q][1..] == [];
    assert Apply(s, Act(0, Drain)) == s1;
    more := Go(labels, s, {0}, Act(0, Drain));
    assert Apply(s1, Act(0, Decide)) == Left(d, q);
    more := Go(more, s1, {0}, Act(0, Decide));
  }

  lemma LeftBehind(d: Device, q: Question) returns (labels: seq<Label>)
    ensures Happens(labels, Left(d, q), {0})
  {
    labels := FirstQuestion([], NEW, {}, d, q);
    assert map[][d := 0] == map[d := 0] && [] + [Busy(d, q)] == [Busy(d, q)]
        && [] + [Call(d, q, Placed(0))] == [Call(d, q, Placed(0))] && [] + [q] == [q];
    var s := State(map[d := 0], [Busy(d, q)], [Call(d, q, Placed(0))], [q], false);
    labels := ActorLeaves(labels, s, d, q);
    labels := ActorDrains(labels, s.(devices := map[], chans := [Busy(d, q).(phase := Draining)]), d, q);
  }

  predicate Unserved(s: State, d: Device) {
    d in s.devices ==> s.devices[d] < |s.chans| && !Open(s.chans[s.devices[d]])
  }

  /** Where the lookup of an unserved device leads. */
  function Missed(s: State, d: Device): Pc {
    if d in s.devices then Removing else Creating
  }

  lemma LooksUp(labels: seq<Label>, s: State, calls: set<nat>, i: nat) returns (more: seq<Label>)
    requires Happens(labels, s, calls) && CallAt(s, i, Looking) && Unserved(s, s.calls[i].device)
    ensures Happens(more, SetPc(s, i, Missed(s, s.calls[i].device)), calls)
  {
    assert LookUp(s, i) == SetPc(s, i, Missed(s, s.calls[i].device));
    more := Go(labels, s, calls, Route(i, Look));
  }

  lemma ArrivesToo(labels: seq<Label>, s: State, calls: set<nat>, d: Device, r: Question) returns (more: seq<Label>)
    requires Happens(labels, s, calls) && AllDone(s, calls) && Unserved(s, d)
    ensures IsRun(more) && BrokerInTurn(more)
    ensures Reached(more).calls == s.calls + [Call(d, r, Missed(s, d))]
  {
    var i := |s.calls|;
    more := Go(labels, s, calls, Arrive(d, r));
    more := LooksUp(more, Apply(s, Arrive(d, r)), calls + {i}, i);
  }

  /** The overlap: an exiting actor's leftover and a question from the broker are both
      looked up, and neither finds an open channel. */
  lemma Overlap(labels: seq<Label>, s: State, calls: set<nat>, c: nat, r: Question) returns (more: seq<Label>)
    requires Happens(labels, s, calls) && AllDone(s, calls) && Enabled(s, Reroute(c))
    requires Unserved(s, s.chans[c].device)
    ensures IsRun(more) && BrokerInTurn(more) && ContendedBy(Reached(more), |s.calls|, |s.calls| + 1)
    ensures forall i :: |s.calls| <= i < |s.calls| + 2 ==> Reached(more).calls[i].pc == Missed(s, s.chans[c].device)
  {
    var i, d := |s.calls|, s.chans[c].device;
    var s1 := Apply(s, Reroute(c));
    more := Go(labels, s, calls, Reroute(c));
    more := LooksUp(more, s1, calls, i);
    more := ArrivesToo(more, SetPc(s1, i, Missed(s, d)), calls, d, r);
  }

  /** At most one live actor per device does not hold: an actor routes its leftover again
      while the next question for the device arrives, and neither call finds an entry. */
  lemma TwoLiveActors(d: Device, q: Question, r: Question) returns (labels: seq<Label>)
    ensures IsRun(labels) && BrokerInTurn(labels) && TwoLive(Reached(labels))
  {
    labels := LeftBehind(d, q);
    labels := Overlap(labels, Left(d, q), {0}, 0, r);
    var more := TwoActorsWhenContended(labels, 1, 2);
    StillInTurn(labels, more);
    labels := more;
  }

  /** The next question has built a successor, which panicked. */
  function Bereft(d: Device, q: Question, r: Question): State {
    var s := Left(d, q);
    s.(devices := s.devices[d := 1], chans := s.chans + [Busy(d, r).(phase := Panicked, lost := [r], queue := [])],
       calls := s.calls + [Call(d, r, Placed(1))], arrived := s.arrived + [r])
  }

  lemma SuccessorPanics(labels: seq<Label>, d: Device, q: Question, r: Question) returns (more: seq<Label>)
    requires Happens(labels, Left(d, q), {0})
    ensures Happens(more, Bereft(d, q, r), {0, 1})
  {
    var s := Left(d, q);
    more := FirstQuestion(labels, s, {0}, d, r);
    var s1 := s.(devices := s.devices[d := 1], chans := s.chans + [Busy(d, r)],
                 calls := s.calls + [Call(d, r, Placed(1))], arrived := s.arrived + [r]);
    assert Apply(s1, Act(1, Panic)) == Bereft(d, q, r);
    more := Go(more, s1, {0, 1}, Act(1, Panic));
  }

  /** After a panic the same overlap costs a live actor its entry: both calls see the
      closed channel, the first replaces it and the second removes the replacement. */
  lemma LiveEntryLost(d: Device, q: Question, r: Question, t: Question) returns (labels: seq<Label>)
    ensures IsRun(labels) && BrokerInTurn(labels) && LosesLive(Reached(labels), Route(2, Remove))
  {
    labels := LeftBehind(d, q);
    labels := SuccessorPanics(labels, d, q, r);
    labels := Overlap(labels, Bereft(d, q, r), {0, 1}, 0, t);
    var more := RemoveLosesLive(labels, 2, 3);
    StillInTurn(labels, more);
    labels := more;
  }
}
