/** The assist bridge's map of device actors. Any number of routing calls and actor
    exits interleave, one step of each at a time: looking a device up and offering
    it the question is one step because the map guard is held; inserting, removing,
    closing and each drain are steps of their own. */
module Bridge {
  import opened Options

  type Device = string
  type Question = string

  const BACKLOG: nat := 8

  /** Where an actor is. From Leaving on it walks the exit path. */
  datatype Phase =
    | Unspawned
    | Live
    | Leaving
    | Removed
    | Draining
    | Rerouting(routing: Option<nat>)
    | Exited
    | Panicked

  /** One question channel and the fate of everything it accepted. */
  datatype Chan = Chan(
    device: Device,
    phase: Phase,
    queue: seq<Question>,
    accepted: seq<Question>,
    consumed: seq<Question>,   // received by the actor's loop
    rerouted: seq<Question>,   // drained at exit, and routed again
    unrouted: seq<Question>,   // drained at exit, not dealt with yet
    discarded: seq<Question>,  // drained at exit, dropped because of shutdown
    lost: seq<Question>)       // still queued when the actor panicked

  predicate Open(c: Chan) {
    c.phase in {Unspawned, Live, Leaving, Removed}
  }

  /** Progress of one call of route. */
  datatype Pc =
    | Looking
    | Removing
    | Creating
    | Inserting(chan: nat)
    | Spawning(chan: nat)
    | Placed(chan: nat)
    | Dropped

  datatype Call = Call(device: Device, question: Question, pc: Pc)

  datatype State = State(
    devices: map<Device, nat>,
    chans: seq<Chan>,
    calls: seq<Call>,
    arrived: seq<Question>,
    shutdown: bool)

  const NEW := State(map[], [], [], [], false)

  /** The steps of one call of route. */
  datatype RouteStep = Look | Remove | Create | Insert | Spawn

  /** The steps of one actor, routing its leftovers apart. */
  datatype ActorStep = Receive | Break | RemoveOwn | Close | Drain | Decide | Leave | Panic

  datatype Label =
    | Arrive(device: Device, question: Question)
    | Route(call: nat, routeStep: RouteStep)
    | Act(chan: nat, step: ActorStep)
    | Reroute(actor: nat)
    | Shutdown

  predicate CallAt(s: State, i: nat, pc: Pc) {
    i < |s.calls| && s.calls[i].pc == pc
  }

  predicate ChanAt(s: State, c: nat, phase: Phase) {
    c < |s.chans| && s.chans[c].phase == phase
  }

  /** The actor routes its leftovers one after the other. */
  predicate ReadyToRoute(s: State, c: nat) {
    && c < |s.chans|
    && s.chans[c].phase.Rerouting?
    && (s.chans[c].phase.routing.Some? ==>
          var k := s.chans[c].phase.routing.value;
          k < |s.calls| && (s.calls[k].pc.Placed? || s.calls[k].pc.Dropped?))
  }

  predicate CanRoute(s: State, i: nat, step: RouteStep) {
    i < |s.calls| &&
    var pc := s.calls[i].pc;
    match step
    case Look => pc.Looking?
    case Remove => pc.Removing?
    case Create => pc.Creating?
    case Insert => pc.Inserting? && pc.chan < |s.chans|
    case Spawn => pc.Spawning? && pc.chan < |s.chans|
  }

  predicate CanAct(s: State, c: nat, step: ActorStep) {
    c < |s.chans| &&
    var chan := s.chans[c];
    match step
    case Receive => chan.phase.Live? && chan.queue != []
    case Break => chan.phase.Live?
    case RemoveOwn => chan.phase.Leaving?
    case Close => chan.phase.Removed?
    case Drain => chan.phase.Draining? && chan.queue != []
    case Decide => chan.phase.Draining? && chan.queue == []
    case Leave => ReadyToRoute(s, c) && chan.unrouted == []
    case Panic => chan.phase.Live? || chan.phase.Leaving?
  }

  predicate Enabled(s: State, l: Label) {
    match l
    case Arrive(_, _) => true
    case Route(i, step) => CanRoute(s, i, step)
    case Act(c, step) => CanAct(s, c, step)
    case Reroute(c) => ReadyToRoute(s, c) && s.chans[c].unrouted != []
    case Shutdown => true
  }

  function SetPc(s: State, i: nat, pc: Pc): State
    requires i < |s.calls|
  {
    s.(calls := s.calls[i := s.calls[i].(pc := pc)])
  }

  function SetChan(s: State, c: nat, chan: Chan): State
    requires c < |s.chans|
  {
    s.(chans := s.chans[c := chan])
  }

  function Accept(c: Chan, q: Question): Chan {
    c.(queue := c.queue + [q], accepted := c.accepted + [q])
  }

  function Opened(device: Device, q: Question): Chan {
    Chan(device, Unspawned, [q], [q], [], [], [], [], [])
  }

  predicate Accepts(s: State, d: Device) {
    && d in s.devices
    && s.devices[d] < |s.chans|
    && Open(s.chans[s.devices[d]])
    && |s.chans[s.devices[d]].queue| < BACKLOG
  }

  /** The guarded lookup: no entry, or a closed channel, and the call goes on to
      build a new one; a full backlog drops the question. */
  function LookUp(s: State, i: nat): State
    requires i < |s.calls|
  {
    var call := s.calls[i];
    if Accepts(s, call.device) then
      var c := s.devices[call.device];
      SetPc(SetChan(s, c, Accept(s.chans[c], call.question)), i, Placed(c))
    else if call.device in s.devices && s.devices[call.device] < |s.chans| then
      SetPc(s, i, if Open(s.chans[s.devices[call.device]]) then Dropped else Removing)
    else SetPc(s, i, Creating)
  }

  function Settle(s: State, c: Chan): Chan {
    if c.unrouted == [] then c.(phase := Exited)
    else if s.shutdown then c.(phase := Exited, discarded := c.unrouted, unrouted := [])
    else c.(phase := Rerouting(None))
  }

  function Routed(s: State, i: nat, step: RouteStep): State
    requires CanRoute(s, i, step)
  {
    var call := s.calls[i];
    match step
    case Look => LookUp(s, i)
    case Remove => SetPc(s, i, Creating).(devices := s.devices - {call.device})
    case Create => SetPc(s, i, Inserting(|s.chans|)).(chans := s.chans + [Opened(call.device, call.question)])
    case Insert => SetPc(s, i, Spawning(call.pc.chan)).(devices := s.devices[call.device := call.pc.chan])
    case Spawn => SetPc(SetChan(s, call.pc.chan, s.chans[call.pc.chan].(phase := Live)), i, Placed(call.pc.chan))
  }

  /** The channel an actor's step leaves behind. */
  function Stepped(s: State, c: nat, step: ActorStep): Chan
    requires CanAct(s, c, step)
  {
    var chan := s.chans[c];
    match step
    case Receive => chan.(queue := chan.queue[1..], consumed := chan.consumed + [chan.queue[0]])
    case Break => chan.(phase := Leaving)
    case RemoveOwn => chan.(phase := Removed)
    case Close => chan.(phase := Draining)
    case Drain => chan.(queue := chan.queue[1..], unrouted := chan.unrouted + [chan.queue[0]])
    case Decide => Settle(s, chan)
    case Leave => chan.(phase := Exited)
    case Panic => chan.(phase := Panicked, lost := chan.queue, queue := [])
  }

  /** Removing an entry only while it is still one's own. */
  function RemoveIf(devices: map<Device, nat>, d: Device, c: nat): map<Device, nat> {
    if d in devices && devices[d] == c then devices - {d} else devices
  }

  /** The leftover at the head is handed to routing call k. */
  function Resent(c: Chan, k: nat): Chan
    requires c.unrouted != []
  {
    c.(unrouted := c.unrouted[1..], rerouted := c.rerouted + [c.unrouted[0]], phase := Rerouting(Some(k)))
  }

  function Apply(s: State, l: Label): State
    requires Enabled(s, l)
  {
    match l
    case Arrive(d, q) => s.(arrived := s.arrived + [q], calls := s.calls + [Call(d, q, Looking)])
    case Route(i, step) => Routed(s, i, step)
    case Act(c, step) =>
      SetChan(s, c, Stepped(s, c, step)).(
        devices := if step.RemoveOwn? then RemoveIf(s.devices, s.chans[c].device, c) else s.devices)
    case Reroute(c) =>
      var chan := s.chans[c];
      SetChan(s, c, Resent(chan, |s.calls|)).(calls := s.calls + [Call(chan.device, chan.unrouted[0], Looking)])
    case Shutdown => s.(shutdown := true)
  }

  predicate IsRun(labels: seq<Label>)
    decreases |labels|, 0
  {
    labels == [] ||
    (IsRun(labels[..|labels| - 1]) && Enabled(Reached(labels[..|labels| - 1]), labels[|labels| - 1]))
  }

  function Reached(labels: seq<Label>): State
    requires IsRun(labels)
    decreases |labels|, 1
  {
    if labels == [] then NEW else Apply(Reached(labels[..|labels| - 1]), labels[|labels| - 1])
  }

  // ----- No question is lost or doubled -----

  function Sum<T>(xs: seq<T>, share: T -> nat): nat {
    if xs == [] then 0 else Sum(xs[..|xs| - 1], share) + share(xs[|xs| - 1])
  }

  lemma SumAppend<T>(xs: seq<T>, x: T, share: T -> nat)
    ensures Sum(xs + [x], share) == Sum(xs, share) + share(x)
  {
    assert (xs + [x])[..|xs|] == xs;
  }

  lemma {:induction false} SumUpdate<T>(xs: seq<T>, i: nat, x: T, share: T -> nat)
    requires i < |xs|
    ensures Sum(xs[i := x], share) + share(xs[i]) == Sum(xs, share) + share(x)
  {
    var init, last := xs[..|xs| - 1], xs[|xs| - 1];
    if i < |init| {
      SumUpdate(init, i, x, share);
      assert xs[i := x][..|xs| - 1] == init[i := x];
    } else {
      assert xs[i := x][..|xs| - 1] == init;
    }
  }

  lemma {:induction false} SumSame<T>(xs: seq<T>, share: T -> nat, other: T -> nat)
    requires forall x :: x in xs ==> share(x) == other(x)
    ensures Sum(xs, share) == Sum(xs, other)
  {
    if xs != [] {
      SumSame(xs[..|xs| - 1], share, other);
    }
  }

  function Times(q: Question, qs: seq<Question>): nat {
    if qs == [] then 0 else Times(q, qs[1..]) + if qs[0] == q then 1 else 0
  }

  lemma {:induction false} TimesAppend(q: Question, qs: seq<Question>, x: Question)
    ensures Times(q, qs + [x]) == Times(q, qs) + if x == q then 1 else 0
  {
    if qs != [] {
      TimesAppend(q, qs[1..], x);
      assert (qs + [x])[1..] == qs[1..] + [x];
    }
  }

  /** How often a call still has q in its hands, or dropped it. */
  function Unplaced(q: Question): Call -> nat {
    (c: Call) => if c.pc in {Looking, Removing, Creating, Dropped} && c.question == q then 1 else 0
  }

  /** How often q is where a channel's questions end up. Those routed again are with
      the call that carries them. */
  function Holds(q: Question): Chan -> nat {
    (c: Chan) =>
      Times(q, c.queue) + Times(q, c.consumed) + Times(q, c.unrouted) + Times(q, c.discarded) + Times(q, c.lost)
  }

  ghost predicate Ledger(s: State, q: Question) {
    Times(q, s.arrived) == Sum(s.calls, Unplaced(q)) + Sum(s.chans, Holds(q))
  }

  /** A step of one actor that only moves questions about. */
  lemma ChanMoves(s: State, q: Question, c: nat, chan: Chan)
    requires Ledger(s, q) && c < |s.chans| && Holds(q)(chan) == Holds(q)(s.chans[c])
    ensures Ledger(SetChan(s, c, chan), q)
  {
    SumUpdate(s.chans, c, chan, Holds(q));
  }

  /** A step of one call that neither places nor picks up its question. */
  lemma CallMoves(s: State, q: Question, i: nat, pc: Pc)
    requires Ledger(s, q) && i < |s.calls|
    requires Unplaced(q)(s.calls[i].(pc := pc)) == Unplaced(q)(s.calls[i])
    ensures Ledger(SetPc(s, i, pc), q)
  {
    SumUpdate(s.calls, i, s.calls[i].(pc := pc), Unplaced(q));
  }

  lemma AcceptKeepsLedger(s: State, q: Question, i: nat, c: nat)
    requires Ledger(s, q) && CallAt(s, i, Looking) && c < |s.chans|
    ensures Ledger(SetPc(SetChan(s, c, Accept(s.chans[c], s.calls[i].question)), i, Placed(c)), q)
  {
    TimesAppend(q, s.chans[c].queue, s.calls[i].question);
    SumUpdate(s.chans, c, Accept(s.chans[c], s.calls[i].question), Holds(q));
    SumUpdate(s.calls, i, s.calls[i].(pc := Placed(c)), Unplaced(q));
  }

  lemma LookKeepsLedger(s: State, q: Question, i: nat)
    requires Ledger(s, q) && CallAt(s, i, Looking)
    ensures Ledger(LookUp(s, i), q)
  {
    if Accepts(s, s.calls[i].device) {
      AcceptKeepsLedger(s, q, i, s.devices[s.calls[i].device]);
    } else {
      CallMoves(s, q, i, LookUp(s, i).calls[i].pc);
    }
  }

  lemma OpenedHolds(q: Question, d: Device, x: Question)
    ensures Holds(q)(Opened(d, x)) == if x == q then 1 else 0
  {
    assert [x][1..] == [];
  }

  lemma CreateKeepsLedger(s: State, q: Question, i: nat)
    requires Ledger(s, q) && CallAt(s, i, Creating)
    ensures Ledger(Routed(s, i, Create), q)
  {
    var chan, call := Opened(s.calls[i].device, s.calls[i].question), s.calls[i].(pc := Inserting(|s.chans|));
    OpenedHolds(q, s.calls[i].device, s.calls[i].question);
    SumUpdate(s.calls, i, call, Unplaced(q));
    SumAppend(s.chans, chan, Holds(q));
  }

  lemma ResentHolds(q: Question, c: Chan, k: nat)
    requires c.unrouted != []
    ensures Holds(q)(c) == Holds(q)(Resent(c, k)) + if c.unrouted[0] == q then 1 else 0
  {
  }

  lemma RerouteKeepsLedger(s: State, q: Question, c: nat)
    requires Ledger(s, q) && Enabled(s, Reroute(c))
    ensures Ledger(Apply(s, Reroute(c)), q)
  {
    var chan, call := Resent(s.chans[c], |s.calls|), Call(s.chans[c].device, s.chans[c].unrouted[0], Looking);
    ResentHolds(q, s.chans[c], |s.calls|);
    SumUpdate(s.chans, c, chan, Holds(q));
    SumAppend(s.calls, call, Unplaced(q));
    assert Unplaced(q)(call) == if call.question == q then 1 else 0;
    assert Apply(s, Reroute(c)) == s.(chans := s.chans[c := chan], calls := s.calls + [call]);
  }

  lemma SpawnKeepsLedger(s: State, q: Question, i: nat)
    requires CanRoute(s, i, Spawn) && Ledger(s, q)
    ensures Ledger(Routed(s, i, Spawn), q)
  {
    var c := s.calls[i].pc.chan;
    ChanMoves(s, q, c, s.chans[c].(phase := Live));
    CallMoves(SetChan(s, c, s.chans[c].(phase := Live)), q, i, Placed(c));
  }

  lemma RouteKeepsLedger(s: State, q: Question, i: nat, step: RouteStep)
    requires CanRoute(s, i, step) && Ledger(s, q)
    ensures Ledger(Routed(s, i, step), q)
  {
    match step
    case Look => LookKeepsLedger(s, q, i);
    case Remove => CallMoves(s, q, i, Creating);
    case Create => CreateKeepsLedger(s, q, i);
    case Insert => CallMoves(s, q, i, Spawning(s.calls[i].pc.chan));
    case Spawn => SpawnKeepsLedger(s, q, i);
  }

  /** Per channel: everything accepted was consumed, or drained and then routed again,
      discarded or not dealt with yet, or lost, or is still queued, in that order. */
  ghost predicate Fate(c: Chan) {
    && c.accepted == c.consumed + c.rerouted + c.unrouted + c.discarded + c.lost + c.queue
    && |c.queue| <= BACKLOG
    && (Open(c) ==> c.rerouted == c.unrouted == c.discarded == c.lost == [])
    && (c.phase.Draining? ==> c.rerouted == c.discarded == c.lost == [])
    && (c.phase.Rerouting? ==> c.discarded == c.lost == c.queue == [])
    && (c.phase.Exited? ==> c.unrouted == c.lost == c.queue == [])
    && (c.phase.Panicked? ==> c.rerouted == c.unrouted == c.discarded == c.queue == [])
    && (c.rerouted == [] || c.discarded == [])
  }

  lemma SteppedHolds(s: State, q: Question, c: nat, step: ActorStep)
    requires CanAct(s, c, step) && Fate(s.chans[c])
    ensures Holds(q)(Stepped(s, c, step)) == Holds(q)(s.chans[c])
  {
    if step.Receive? {
      TimesAppend(q, s.chans[c].consumed, s.chans[c].queue[0]);
    } else if step.Drain? {
      TimesAppend(q, s.chans[c].unrouted, s.chans[c].queue[0]);
    }
  }

  ghost predicate Fates(s: State) {
    forall c :: 0 <= c < |s.chans| ==> Fate(s.chans[c])
  }

  lemma LedgerStep(s: State, q: Question, l: Label)
    requires Enabled(s, l) && Ledger(s, q) && Fates(s)
    ensures Ledger(Apply(s, l), q)
  {
    match l
    case Arrive(d, question) =>
      TimesAppend(q, s.arrived, question);
      SumAppend(s.calls, Call(d, question, Looking), Unplaced(q));
    case Route(i, step) => RouteKeepsLedger(s, q, i, step);
    case Act(c, step) =>
      SteppedHolds(s, q, c, step);
      ChanMoves(s, q, c, Stepped(s, c, step));
    case Reroute(c) => RerouteKeepsLedger(s, q, c);
    case Shutdown =>
  }

  lemma AcceptFate(c: Chan, q: Question)
    requires Fate(c) && Open(c) && |c.queue| < BACKLOG
    ensures Fate(Accept(c, q))
  {
    var settled := c.consumed + c.rerouted + c.unrouted + c.discarded + c.lost;
    assert settled + (c.queue + [q]) == settled + c.queue + [q];
  }

  /** Moving the head of the queue to the end of what precedes it. */
  lemma Shift(before: seq<Question>, queue: seq<Question>)
    requires queue != []
    ensures before + [queue[0]] + queue[1..] == before + queue
  {
    assert queue == [queue[0]] + queue[1..];
  }

  lemma SteppedFate(s: State, c: nat, step: ActorStep)
    requires CanAct(s, c, step) && Fate(s.chans[c])
    ensures Fate(Stepped(s, c, step))
  {
    match step
    case Receive => Shift(s.chans[c].consumed, s.chans[c].queue);
    case Drain => Shift(s.chans[c].consumed + s.chans[c].unrouted, s.chans[c].queue);
    case _ =>
  }

  lemma ResentFate(c: Chan, k: nat)
    requires Fate(c) && c.phase.Rerouting? && c.unrouted != []
    ensures Fate(Resent(c, k))
  {
    Shift(c.consumed + c.rerouted, c.unrouted);
  }

  lemma RoutedFates(s: State, i: nat, step: RouteStep)
    requires CanRoute(s, i, step) && Fates(s)
    requires step.Spawn? ==> s.chans[s.calls[i].pc.chan].phase.Unspawned?
    ensures Fates(Routed(s, i, step))
  {
    if step.Look? && Accepts(s, s.calls[i].device) {
      AcceptFate(s.chans[s.devices[s.calls[i].device]], s.calls[i].question);
    }
  }

  predicate Mapped(c: Chan) {
    c.phase in {Unspawned, Live, Leaving, Panicked}
  }

  ghost predicate Calm(s: State) {
    forall c :: 0 <= c < |s.chans| ==> !s.chans[c].phase.Panicked?
  }

  /** The channel a call has built and not yet handed to its actor. */
  function Built(c: Call): Option<nat> {
    if c.pc.Inserting? || c.pc.Spawning? then Some(c.pc.chan) else None
  }

  ghost predicate Wired(s: State) {
    && (forall d :: d in s.devices ==>
          s.devices[d] < |s.chans| && s.chans[s.devices[d]].device == d && Mapped(s.chans[s.devices[d]]))
    && (forall i :: 0 <= i < |s.calls| && Built(s.calls[i]).Some? ==>
          ChanAt(s, Built(s.calls[i]).value, Unspawned) && s.chans[Built(s.calls[i]).value].device == s.calls[i].device)
    && (forall i, j :: 0 <= i < j < |s.calls| && Built(s.calls[i]).Some? ==> Built(s.calls[i]) != Built(s.calls[j]))
    && (Calm(s) ==> forall i :: 0 <= i < |s.calls| ==> !s.calls[i].pc.Removing?)
  }

  lemma FatesStep(s: State, l: Label)
    requires Enabled(s, l) && Fates(s) && Wired(s)
    ensures Fates(Apply(s, l))
  {
    match l
    case Route(i, step) => RoutedFates(s, i, step);
    case Act(c, step) => SteppedFate(s, c, step);
    case Reroute(c) => ResentFate(s.chans[c], |s.calls|);
    case _ =>
  }

  // ----- The map -----

  lemma StillCalm(s: State, s': State)
    requires |s.chans| <= |s'.chans|
    requires forall c :: 0 <= c < |s.chans| && s.chans[c].phase.Panicked? ==> s'.chans[c].phase.Panicked?
    ensures Calm(s') ==> Calm(s)
  {
    if Calm(s') {
      forall c | 0 <= c < |s.chans|
        ensures !s.chans[c].phase.Panicked?
      {
        assert !s'.chans[c].phase.Panicked?;
      }
    }
  }

  /** A call moves on without building a channel. */
  lemma PcWired(s: State, i: nat, pc: Pc)
    requires Wired(s) && i < |s.calls|
    requires Built(s.calls[i]).None? && !pc.Inserting? && !pc.Spawning? && (pc.Removing? ==> !Calm(s))
    ensures Wired(SetPc(s, i, pc))
  {
    StillCalm(s, SetPc(s, i, pc));
  }

  /** A channel moves on; it may leave the map's phases only when nothing maps to it. */
  lemma ChanWired(s: State, c: nat, chan: Chan)
    requires Wired(s) && c < |s.chans| && chan.device == s.chans[c].device
    requires chan.phase == s.chans[c].phase || (!s.chans[c].phase.Unspawned? && !s.chans[c].phase.Panicked?)
    requires Mapped(s.chans[c]) && !Mapped(chan) ==> forall d :: d in s.devices ==> s.devices[d] != c
    ensures Wired(SetChan(s, c, chan))
  {
    StillCalm(s, SetChan(s, c, chan));
  }

  lemma LookWired(s: State, i: nat)
    requires Wired(s) && CallAt(s, i, Looking)
    ensures Wired(LookUp(s, i))
  {
    var d := s.calls[i].device;
    if Accepts(s, d) {
      var c := s.devices[d];
      ChanWired(s, c, Accept(s.chans[c], s.calls[i].question));
      PcWired(SetChan(s, c, Accept(s.chans[c], s.calls[i].question)), i, Placed(c));
    } else {
      if d in s.devices {
        assert Open(s.chans[s.devices[d]]) || s.chans[s.devices[d]].phase.Panicked?;
      }
      PcWired(s, i, LookUp(s, i).calls[i].pc);
    }
  }

  lemma RemoveWired(s: State, i: nat)
    requires Wired(s) && CanRoute(s, i, Remove)
    ensures Wired(Routed(s, i, Remove))
  {
    var s1 := s.(devices := s.devices - {s.calls[i].device});
    StillCalm(s, s1);
    PcWired(s1, i, Creating);
  }

  lemma CreateWired(s: State, i: nat)
    requires Wired(s) && CanRoute(s, i, Create)
    ensures Wired(Routed(s, i, Create))
  {
    StillCalm(s, Routed(s, i, Create));
  }

  lemma InsertWired(s: State, i: nat)
    requires Wired(s) && CanRoute(s, i, Insert)
    ensures Wired(Routed(s, i, Insert))
  {
    StillCalm(s, Routed(s, i, Insert));
    assert Built(s.calls[i]) == Some(s.calls[i].pc.chan);
  }

  lemma SpawnWired(s: State, i: nat)
    requires Wired(s) && CanRoute(s, i, Spawn)
    ensures Wired(Routed(s, i, Spawn))
  {
    var s' := Routed(s, i, Spawn);
    StillCalm(s, s');
    assert Built(s.calls[i]).Some?;
    forall j | 0 <= j < |s'.calls| && Built(s'.calls[j]).Some?
      ensures Built(s'.calls[j]).value != s.calls[i].pc.chan && s'.calls[j] == s.calls[j]
    {
      assert Built(s.calls[j]) != Built(s.calls[i]);
    }
  }

  lemma RemoveOwnWired(s: State, c: nat)
    requires Wired(s) && CanAct(s, c, RemoveOwn)
    ensures Wired(Apply(s, Act(c, RemoveOwn)))
  {
    var s1 := s.(devices := RemoveIf(s.devices, s.chans[c].device, c));
    StillCalm(s, s1);
    ChanWired(s1, c, Stepped(s, c, RemoveOwn));
  }

  /** A call that has only just begun. */
  lemma CallWired(s: State, call: Call)
    requires Wired(s) && call.pc.Looking?
    ensures Wired(s.(calls := s.calls + [call]))
  {
    StillCalm(s, s.(calls := s.calls + [call]));
  }

  lemma RerouteWired(s: State, c: nat)
    requires Wired(s) && Enabled(s, Reroute(c))
    ensures Wired(Apply(s, Reroute(c)))
  {
    var chan := Resent(s.chans[c], |s.calls|);
    ChanWired(s, c, chan);
    CallWired(SetChan(s, c, chan), Call(chan.device, s.chans[c].unrouted[0], Looking));
  }

  lemma WiredStep(s: State, l: Label)
    requires Enabled(s, l) && Wired(s)
    ensures Wired(Apply(s, l))
  {
    match l
    case Route(i, step) =>
      match step {
        case Look => LookWired(s, i);
        case Remove => RemoveWired(s, i);
        case Create => CreateWired(s, i);
        case Insert => InsertWired(s, i);
        case Spawn => SpawnWired(s, i);
      }
    case Act(c, step) =>
      if step.RemoveOwn? {
        RemoveOwnWired(s, c);
      } else {
        ChanWired(s, c, Stepped(s, c, step));
      }
    case Reroute(c) => RerouteWired(s, c);
    case _ => StillCalm(s, Apply(s, l));
  }

  // ----- Over every run -----

  /** Leftovers are dropped only once shutdown has begun. */
  ghost predicate DiscardsAtShutdown(s: State) {
    s.shutdown || forall c :: 0 <= c < |s.chans| ==> s.chans[c].discarded == []
  }

  ghost predicate Sound(s: State) {
    Fates(s) && Wired(s) && DiscardsAtShutdown(s)
  }

  lemma DiscardsStep(s: State, l: Label)
    requires Enabled(s, l) && DiscardsAtShutdown(s)
    ensures DiscardsAtShutdown(Apply(s, l))
  {
  }

  lemma {:induction false} RunsAreSound(labels: seq<Label>)
    requires IsRun(labels)
    ensures Sound(Reached(labels))
  {
    if labels != [] {
      var init, l := labels[..|labels| - 1], labels[|labels| - 1];
      RunsAreSound(init);
      FatesStep(Reached(init), l);
      WiredStep(Reached(init), l);
      DiscardsStep(Reached(init), l);
    }
  }

  /** Conservation: in every interleaving, every arrival of q is in a routing call's
      hands, dropped on a full backlog, queued, consumed, drained and waiting,
      discarded at shutdown, or lost in a panic, and in exactly one of these. */
  lemma {:induction false} QuestionsConserved(labels: seq<Label>, q: Question)
    requires IsRun(labels)
    ensures Ledger(Reached(labels), q)
  {
    if labels != [] {
      var init := labels[..|labels| - 1];
      QuestionsConserved(init, q);
      RunsAreSound(init);
      LedgerStep(Reached(init), q, labels[|labels| - 1]);
    }
  }

  predicate Idle(s: State) {
    && (forall i :: 0 <= i < |s.calls| ==> s.calls[i].pc.Placed? || s.calls[i].pc.Dropped?)
    && (forall c :: 0 <= c < |s.chans| ==> s.chans[c].queue == [] && s.chans[c].unrouted == [])
  }

  function DroppedAs(q: Question): Call -> nat {
    (c: Call) => if c.pc.Dropped? && c.question == q then 1 else 0
  }

  function ConsumedAs(q: Question): Chan -> nat {
    (c: Chan) => Times(q, c.consumed)
  }

  /** Without shutdown and without a panic, once nothing moves any more every question
      has been consumed by exactly one actor loop or dropped on a full backlog. */
  lemma NothingIsLost(labels: seq<Label>, q: Question)
    requires IsRun(labels) && Idle(Reached(labels)) && !Reached(labels).shutdown && Calm(Reached(labels))
    ensures var s := Reached(labels);
            Times(q, s.arrived) == Sum(s.calls, DroppedAs(q)) + Sum(s.chans, ConsumedAs(q))
  {
    var s := Reached(labels);
    QuestionsConserved(labels, q);
    RunsAreSound(labels);
    SumSame(s.calls, Unplaced(q), DroppedAs(q));
    forall c | c in s.chans
      ensures Holds(q)(c) == ConsumedAs(q)(c)
    {
      assert Fate(c) && !c.phase.Panicked?;
    }
    SumSame(s.chans, Holds(q), ConsumedAs(q));
  }

  lemma ExitedFate(c: Chan)
    requires Fate(c) && c.phase.Exited?
    ensures if c.discarded == [] then c.accepted == c.consumed + c.rerouted
            else c.accepted == c.consumed + c.discarded
  {
    var done := c.consumed + c.rerouted;
    assert done + [] + c.discarded + [] + [] == done + c.discarded;
    assert c.rerouted == [] ==> done == c.consumed;
    assert c.discarded == [] ==> done + c.discarded == done;
  }

  /** An actor that has exited leaves nothing behind: what its channel accepted was
      consumed in order, and the rest routed again, or dropped because of shutdown. */
  lemma ExitLeavesNothing(labels: seq<Label>, c: nat)
    requires IsRun(labels) && ChanAt(Reached(labels), c, Exited)
    ensures var chan := Reached(labels).chans[c];
            || chan.accepted == chan.consumed + chan.rerouted
            || (Reached(labels).shutdown && chan.accepted == chan.consumed + chan.discarded)
  {
    RunsAreSound(labels);
    ExitedFate(Reached(labels).chans[c]);
  }

  /** Eight questions wait in the open channel the map holds for d. */
  ghost predicate BacklogFull(s: State, d: Device) {
    && d in s.devices
    && s.devices[d] < |s.chans|
    && var chan := s.chans[s.devices[d]];
       Open(chan) && chan.device == d && |chan.queue| == 8
  }

  lemma LookDrops(s: State, i: nat)
    requires Sound(s) && CallAt(s, i, Looking) && LookUp(s, i).calls[i].pc.Dropped?
    ensures BacklogFull(s, s.calls[i].device)
  {
    assert Fate(s.chans[s.devices[s.calls[i].device]]);
  }

  lemma OnlyLookDrops(s: State, i: nat, l: Label)
    requires Enabled(s, l) && i < |s.calls| && !s.calls[i].pc.Dropped? && Apply(s, l).calls[i].pc.Dropped?
    ensures l == Route(i, Look)
  {
  }

  /** A question is dropped on arrival only on a full backlog. */
  lemma DropMeansFullBacklog(labels: seq<Label>, i: nat, l: Label)
    requires IsRun(labels) && Enabled(Reached(labels), l) && i < |Reached(labels).calls|
    requires !Reached(labels).calls[i].pc.Dropped? && Apply(Reached(labels), l).calls[i].pc.Dropped?
    ensures BacklogFull(Reached(labels), Reached(labels).calls[i].device)
  {
    RunsAreSound(labels);
    OnlyLookDrops(Reached(labels), i, l);
    LookDrops(Reached(labels), i);
  }

  /** Removal precedes close: unless an actor has panicked, every entry's channel is
      open, so route never meets a closed one. */
  lemma EntriesAreOpen(labels: seq<Label>)
    requires IsRun(labels) && Calm(Reached(labels))
    ensures var s := Reached(labels);
            && (forall d :: d in s.devices ==> s.devices[d] < |s.chans| && Open(s.chans[s.devices[d]]))
            && (forall i :: 0 <= i < |s.calls| ==> !s.calls[i].pc.Removing?)
  {
    RunsAreSound(labels);
  }

  /** The entry of d is removed or replaced. */
  ghost predicate EntryGoes(s: State, s': State, d: Device) {
    && d in s.devices && s.devices[d] < |s.chans|
    && (d !in s'.devices || s'.devices[d] != s.devices[d])
  }

  lemma EntryGoesBy(s: State, l: Label, d: Device)
    requires Enabled(s, l) && EntryGoes(s, Apply(s, l), d)
    ensures || l == Act(s.devices[d], RemoveOwn)
            || (l.Route? && (l.routeStep.Insert? || l.routeStep.Remove?) && s.calls[l.call].device == d)
  {
    match l
    case Arrive(_, _) =>
    case Route(_, _) =>
    case Act(_, _) =>
    case Reroute(_) =>
    case Shutdown =>
  }

  /** An exiting actor never removes a successor's entry, panics or not: an entry goes
      when its own actor removes it, or by a routing call for the device, which
      replaces it or removes it after finding a closed channel. */
  lemma EntryGoesThreeWays(labels: seq<Label>, l: Label, d: Device)
    requires IsRun(labels) && Enabled(Reached(labels), l)
    requires EntryGoes(Reached(labels), Apply(Reached(labels), l), d)
    ensures || l == Act(Reached(labels).devices[d], RemoveOwn)
            || (l.Route? && (l.routeStep.Insert? || l.routeStep.Remove?) && Reached(labels).calls[l.call].device == d)
    ensures Calm(Reached(labels)) ==> !(l.Route? && l.routeStep.Remove?)
  {
    RunsAreSound(labels);
    EntryGoesBy(Reached(labels), l, d);
  }

  lemma Extend(labels: seq<Label>, l: Label)
    requires IsRun(labels) && Enabled(Reached(labels), l)
    ensures IsRun(labels + [l]) && Reached(labels + [l]) == Apply(Reached(labels), l)
  {
    assert (labels + [l])[..|labels|] == labels;
  }

  ghost predicate TwoLive(s: State) {
    exists a, b :: 0 <= a < b < |s.chans| && s.chans[a].phase.Live? && s.chans[b].phase.Live?
      && s.chans[a].device == s.chans[b].device
  }
}
