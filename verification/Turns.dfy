/** Router, dispatches, LLM and the token channel they share, as one step machine:
    every interleaving of their sends and receives is a run. */
module Turns {
  import opened Ints
  import opened LlmActor
  import opened Options
  import opened Routing
  import S = Sink
  import opened Tokens
  import opened Tts

  /** A dispatch whose outcome has not been received. */
  datatype Dispatch = Dispatch(epoch: nat, skill: string)

  /** An outcome the router received: its epoch and the epoch current at that time. */
  datatype Receipt = Receipt(epoch: nat, current: nat, forwarded: bool)

  /** What the router has taken in: a final transcript, where it was sent and whether
      earlier work was still in hand; or an outcome, and whether its epoch was current. */
  datatype Input =
    | Transcribed(route: Route, busy: bool)
    | Answered(skill: string, response: Response, isCurrent: bool)

  datatype System = System(
    view: View,
    rxClosed: bool,
    running: bool,
    routerOut: seq<TtsMsg>,     // messages the router still has to send
    tasks: seq<Dispatch>,       // dispatches in flight
    outcomes: seq<Outcome>,     // outcomes queued for the router
    prompts: seq<string>,       // prompts queued for the LLM
    llmOut: seq<TtsMsg>,        // messages of the prompt being answered, still to be sent
    tokens: seq<TtsMsg>,        // everything sent on the token channel
    events: seq<Event>,
    finals: nat,
    receipts: seq<Receipt>,
    history: seq<Input>,        // what the router has taken in
    spoken: seq<TtsMsg>,        // what the router has sent on the token channel
    asked: seq<string>,         // prompts the LLM has taken
    replied: seq<TtsMsg>)       // what the LLM has sent on the token channel

  const BOOT := System(View(0, None, false), false, true, [], [], [], [], [], [], [], 0, [], [], [], [], [])

  /** One step. A dispatch may resolve to anything at any time, cancelled or not. */
  datatype Label =
    | Final(route: Route)
    | Partial
    | TranscriptsClosed
    | Resolve(task: nat, response: Response)
    | Receive
    | RouterSends
    | RouterExits
    | LlmTakes(apology: string, completion: Completion)
    | LlmSends

  predicate RouterListens(s: System) {
    s.running && s.routerOut == []
  }

  predicate Enabled(s: System, l: Label) {
    match l
    case Final(_) => RouterListens(s) && !s.rxClosed
    case Partial => RouterListens(s) && !s.rxClosed
    case TranscriptsClosed => RouterListens(s) && !s.rxClosed
    case Resolve(i, _) => i < |s.tasks|
    case Receive => RouterListens(s) && s.outcomes != []
    case RouterSends => s.running && s.routerOut != []
    case RouterExits => RouterListens(s) && s.rxClosed && s.view.pending.None?
    case LlmTakes(_, _) => s.prompts != [] && s.llmOut == []
    case LlmSends => s.llmOut != []
  }

  function Apply(s: System, l: Label): System
    requires Enabled(s, l)
  {
    match l
    case Final(route) =>
      var (v, e) := HandleFinal(s.view, route);
      s.(view := v, finals := s.finals + 1, prompts := s.prompts + e.prompts, events := s.events + e.events,
         tasks := s.tasks + if route.ToSkill? then [Dispatch(v.epoch, route.skill)] else [],
         history := s.history + [Transcribed(route, s.view.pending.Some? || s.view.priorWork)])
    case Partial => s
    case TranscriptsClosed => s.(rxClosed := true)
    case Resolve(i, response) =>
      var t := s.tasks[i];
      s.(tasks := s.tasks[..i] + s.tasks[i + 1..], outcomes := s.outcomes + [Outcome(t.epoch, t.skill, response)])
    case Receive =>
      var o := s.outcomes[0];
      var (v, e) := HandleOutcome(s.view, o);
      s.(view := v, outcomes := s.outcomes[1..], routerOut := e.tokens, prompts := s.prompts + e.prompts,
         events := s.events + e.events,
         receipts := s.receipts + [Receipt(o.epoch, s.view.epoch, e.tokens != [] || e.prompts != [])],
         history := s.history + [Answered(o.skill, o.response, o.epoch == s.view.epoch)])
    case RouterSends =>
      s.(tokens := s.tokens + [s.routerOut[0]], routerOut := s.routerOut[1..], spoken := s.spoken + [s.routerOut[0]])
    case RouterExits => s.(running := false)
    case LlmTakes(apology, c) =>
      s.(prompts := s.prompts[1..], llmOut := Answer(apology, c), asked := s.asked + [s.prompts[0]])
    case LlmSends =>
      s.(tokens := s.tokens + [s.llmOut[0]], llmOut := s.llmOut[1..], replied := s.replied + [s.llmOut[0]])
  }

  predicate IsRun(labels: seq<Label>)
    decreases |labels|, 0
  {
    labels == [] ||
    (IsRun(labels[..|labels| - 1]) && Enabled(Reached(labels[..|labels| - 1]), labels[|labels| - 1]))
  }

  function Reached(labels: seq<Label>): System
    requires IsRun(labels)
    decreases |labels|, 1
  {
    if labels == [] then BOOT else Apply(Reached(labels[..|labels| - 1]), labels[|labels| - 1])
  }

  // ----- Every turn is closed exactly once -----

  function Cancellations(events: seq<Event>): nat {
    if events == [] then 0
    else Cancellations(events[..|events| - 1]) + if events[|events| - 1].SkillCancelled? then 1 else 0
  }

  lemma {:induction false} CancellationsAppend(a: seq<Event>, b: seq<Event>)
    ensures Cancellations(a + b) == Cancellations(a) + Cancellations(b)
  {
    if b == [] {
      assert a + b == a;
    } else {
      CancellationsAppend(a, b[..|b| - 1]);
      assert (a + b)[..|a + b| - 1] == a + b[..|b| - 1];
    }
  }

  /** Every final transcript is closed, cancelled, or still somewhere on its way. */
  ghost predicate TurnsBalance(s: System) {
    s.finals == EndsIn(s.tokens) + Cancellations(s.events)
                + |s.tasks| + |s.outcomes| + |s.prompts| + EndsIn(s.llmOut) + EndsIn(s.routerOut)
  }

  lemma {:induction false} NoCancellations(events: seq<Event>)
    requires forall i :: 0 <= i < |events| ==> !events[i].SkillCancelled?
    ensures Cancellations(events) == 0
  {
    if events != [] {
      NoCancellations(events[..|events| - 1]);
    }
  }

  lemma FinalEffects(v: View, route: Route)
    ensures Cancellations(HandleFinal(v, route).1.events) == 0
    ensures |HandleFinal(v, route).1.prompts| == if route.ToSkill? then 0 else 1
  {
    var e := HandleFinal(v, route).1.events;
    assert forall i :: 0 <= i < |e| ==> !e[i].SkillCancelled?;
    NoCancellations(e);
  }

  lemma OneCancellation(skill: string)
    ensures Cancellations([SkillCancelled(skill)]) == 1
  {
    assert [SkillCancelled(skill)][..0] == [];
  }

  /** An outcome closes its turn, hands it to the LLM, or is reported cancelled:
      exactly one of the three. */
  lemma OutcomeEffects(v: View, o: Outcome)
    ensures var e := HandleOutcome(v, o).1;
            && EndsIn(e.tokens) + |e.prompts| + Cancellations(e.events) == 1
            && (e.tokens != [] || e.prompts != [] <==> o.epoch == v.epoch)
  {
    var e := HandleOutcome(v, o).1;
    OneCancellation(o.skill);
    if o.epoch == v.epoch {
      assert forall i :: 0 <= i < |e.events| ==> !e.events[i].SkillCancelled?;
      NoCancellations(e.events);
    }
    assert [EndOfAnswer][1..] == [];
    if o.response.Say? && o.epoch == v.epoch {
      assert e.tokens[1..] == [EndOfAnswer];
    }
  }

  lemma SendKeepsEnds(queue: seq<TtsMsg>, tokens: seq<TtsMsg>)
    requires queue != []
    ensures EndsIn(tokens + [queue[0]]) + EndsIn(queue[1..]) == EndsIn(tokens) + EndsIn(queue)
  {
    EndsInAppend(tokens, [queue[0]]);
    assert [queue[0]][1..] == [];
  }

  lemma BalanceStep(s: System, l: Label)
    requires Enabled(s, l) && TurnsBalance(s)
    ensures TurnsBalance(Apply(s, l))
  {
    match l
    case Final(route) =>
      FinalEffects(s.view, route);
      CancellationsAppend(s.events, HandleFinal(s.view, route).1.events);
    case Receive =>
      OutcomeEffects(s.view, s.outcomes[0]);
      CancellationsAppend(s.events, HandleOutcome(s.view, s.outcomes[0]).1.events);
    case RouterSends => SendKeepsEnds(s.routerOut, s.tokens);
    case LlmTakes(apology, c) => OneEndAndLast(apology, c);
    case LlmSends => SendKeepsEnds(s.llmOut, s.tokens);
    case _ =>
  }

  lemma {:induction false} TurnsAlwaysBalance(labels: seq<Label>)
    requires IsRun(labels)
    ensures TurnsBalance(Reached(labels))
  {
    if labels != [] {
      TurnsAlwaysBalance(labels[..|labels| - 1]);
      BalanceStep(Reached(labels[..|labels| - 1]), labels[|labels| - 1]);
    }
  }

  predicate Drained(s: System) {
    s.tasks == [] && s.outcomes == [] && s.prompts == [] && s.llmOut == [] && s.routerOut == []
  }

  /** The turn-closing law: in any drained run the answer ends sent are the final
      transcripts less the cancelled dispatches, whatever skills and LLM did. */
  lemma TurnClosingLaw(labels: seq<Label>)
    requires IsRun(labels) && Drained(Reached(labels))
    ensures var s := Reached(labels);
            EndsIn(s.tokens) == s.finals - Cancellations(s.events)
  {
    TurnsAlwaysBalance(labels);
  }

  // ----- Epoch safety -----

  /** A dispatch is outstanding from the final that made it until its outcome is received. */
  function Outstanding(s: System): seq<Dispatch> {
    s.tasks + seq(|s.outcomes|, i requires 0 <= i < |s.outcomes| => Dispatch(s.outcomes[i].epoch, s.outcomes[i].skill))
  }

  ghost predicate DistinctEpochs(ds: seq<Dispatch>) {
    forall i, j :: 0 <= i < j < |ds| ==> ds[i].epoch != ds[j].epoch
  }

  ghost predicate EpochInv(s: System) {
    && s.view.epoch == s.finals
    && (forall d :: d in Outstanding(s) ==> 1 <= d.epoch <= s.view.epoch)
    && DistinctEpochs(Outstanding(s))
    && (forall d :: d in Outstanding(s) && d.epoch == s.view.epoch ==>
          s.view.pending == Some(Pending(d.epoch, d.skill)))
    && (s.view.pending.Some? ==>
          s.view.pending.value.epoch == s.view.epoch
          && Dispatch(s.view.epoch, s.view.pending.value.skill) in Outstanding(s))
    && (forall r :: r in s.receipts ==>
          1 <= r.epoch <= r.current <= s.view.epoch && (r.forwarded <==> r.epoch == r.current)
          && forall d :: d in Outstanding(s) ==> d.epoch != r.epoch)
    && (forall i, j :: 0 <= i < j < |s.receipts| ==> s.receipts[i].epoch != s.receipts[j].epoch)
  }

  /** Putting a dispatch of a later epoch in at n. */
  lemma PutIn(a: seq<Dispatch>, b: seq<Dispatch>, n: nat, made: seq<Dispatch>)
    requires n <= |a| && |made| <= 1 && |b| == |a| + |made|
    requires forall d, e :: d in a && e in made ==> d.epoch < e.epoch
    requires forall i {:trigger b[i]} :: 0 <= i < |b| ==>
               b[i] == if i < n then a[i] else if i < n + |made| then made[0] else a[i - |made|]
    ensures forall d :: d in b <==> d in a || d in made
    ensures DistinctEpochs(a) ==> DistinctEpochs(b)
  {
    assert b == a[..n] + made + a[n..];
  }

  lemma FinalKeeps(s: System, route: Route)
    requires Enabled(s, Final(route)) && EpochInv(s) && s.finals < U64_MAX
    ensures EpochInv(Apply(s, Final(route)))
  {
    var s' := Apply(s, Final(route));
    var made := if route.ToSkill? then [Dispatch(s'.view.epoch, route.skill)] else [];
    PutIn(Outstanding(s), Outstanding(s'), |s.tasks|, made);
  }

  /** Moving element i to the end. */
  lemma MovedToEnd(a: seq<Dispatch>, b: seq<Dispatch>, i: nat)
    requires i < |a| && b == a[..i] + a[i + 1..] + [a[i]]
    ensures forall d :: d in b <==> d in a
    ensures DistinctEpochs(a) ==> DistinctEpochs(b)
  {
    assert a == a[..i] + [a[i]] + a[i + 1..];
    assert forall k {:trigger b[k]} :: i <= k < |b| - 1 ==> b[k] == a[k + 1];
    assert forall k {:trigger b[k]} :: 0 <= k < i ==> b[k] == a[k];
    assert b[|b| - 1] == a[i];
  }

  lemma ResolveKeepsOutstanding(s: System, i: nat, response: Response)
    requires Enabled(s, Resolve(i, response)) && EpochInv(s)
    ensures EpochInv(Apply(s, Resolve(i, response)))
  {
    var a, b := Outstanding(s), Outstanding(Apply(s, Resolve(i, response)));
    assert b == a[..i] + a[i + 1..] + [a[i]];
    MovedToEnd(a, b, i);
  }

  /** Taking element n out. */
  lemma TakenOut(a: seq<Dispatch>, b: seq<Dispatch>, n: nat)
    requires n < |a| && b == a[..n] + a[n + 1..]
    ensures forall d :: d in b ==> d in a
    ensures forall d :: d in a && d != a[n] ==> d in b
    ensures DistinctEpochs(a) ==> DistinctEpochs(b) && forall d :: d in b ==> d.epoch != a[n].epoch
  {
    assert a == a[..n] + [a[n]] + a[n + 1..];
    assert forall k {:trigger b[k]} :: n <= k < |b| ==> b[k] == a[k + 1];
    assert forall k {:trigger b[k]} :: 0 <= k < n ==> b[k] == a[k];
  }

  /** What the router does with an outcome, in terms of its view alone. */
  lemma ReceiptKept(s: System, s': System, o: Outcome)
    requires EpochInv(s) && Dispatch(o.epoch, o.skill) in Outstanding(s)
    requires s'.view == HandleOutcome(s.view, o).0 && s'.finals == s.finals
    requires s'.receipts == s.receipts + [Receipt(o.epoch, s.view.epoch, o.epoch == s.view.epoch)]
    requires forall d :: d in Outstanding(s') ==> d in Outstanding(s) && d.epoch != o.epoch
    requires forall d :: d in Outstanding(s) && d != Dispatch(o.epoch, o.skill) ==> d in Outstanding(s')
    requires DistinctEpochs(Outstanding(s'))
    ensures EpochInv(s')
  {
  }

  lemma ReceiveKeeps(s: System)
    requires Enabled(s, Receive) && EpochInv(s)
    ensures EpochInv(Apply(s, Receive))
  {
    var s' := Apply(s, Receive);
    var o := s.outcomes[0];
    assert Outstanding(s)[|s.tasks|] == Dispatch(o.epoch, o.skill);
    assert Outstanding(s') == Outstanding(s)[..|s.tasks|] + Outstanding(s)[|s.tasks| + 1..];
    TakenOut(Outstanding(s), Outstanding(s'), |s.tasks|);
    OutcomeEffects(s.view, o);
    ReceiptKept(s, s', o);
  }

  /** Only the queues of dispatches matter: equal multisets of distinct epochs. */
  lemma EpochStep(s: System, l: Label)
    requires Enabled(s, l) && EpochInv(s) && Apply(s, l).finals <= U64_MAX
    ensures EpochInv(Apply(s, l))
  {
    match l
    case Final(route) =>
      FinalKeeps(s, route);
    case Resolve(i, response) =>
      ResolveKeepsOutstanding(s, i, response);
    case Receive =>
      ReceiveKeeps(s);
    case _ =>
      assert Outstanding(Apply(s, l)) == Outstanding(s);
  }

  lemma FinalsGrow(s: System, l: Label)
    requires Enabled(s, l)
    ensures s.finals <= Apply(s, l).finals
  {
  }

  /** Over every run with fewer than 2^64 final transcripts. */
  lemma {:induction false} EpochsAlwaysSafe(labels: seq<Label>)
    requires IsRun(labels) && Reached(labels).finals <= U64_MAX
    ensures EpochInv(Reached(labels))
  {
    if labels != [] {
      var init := labels[..|labels| - 1];
      FinalsGrow(Reached(init), labels[|labels| - 1]);
      EpochsAlwaysSafe(init);
      EpochStep(Reached(init), labels[|labels| - 1]);
    }
  }

  /** A pending dispatch has the current epoch, and exists exactly when the current
      utterance has a dispatch whose outcome is outstanding. */
  lemma PendingIffUnresolved(labels: seq<Label>)
    requires IsRun(labels) && Reached(labels).finals <= U64_MAX
    ensures var s := Reached(labels);
            && (s.view.pending.Some? <==> exists d :: d in Outstanding(s) && d.epoch == s.view.epoch)
            && (s.view.pending.Some? ==> s.view.pending.value.epoch == s.view.epoch)
  {
    EpochsAlwaysSafe(labels);
  }

  function Stale(receipts: seq<Receipt>): nat {
    if receipts == [] then 0
    else Stale(receipts[..|receipts| - 1]) + if receipts[|receipts| - 1].forwarded then 0 else 1
  }

  lemma OutcomeCancels(v: View, o: Outcome)
    ensures Cancellations(HandleOutcome(v, o).1.events) == if o.epoch == v.epoch then 0 else 1
  {
    OneCancellation(o.skill);
    var e := HandleOutcome(v, o).1.events;
    if o.epoch == v.epoch {
      assert forall i :: 0 <= i < |e| ==> !e[i].SkillCancelled?;
      NoCancellations(e);
    }
  }

  lemma StaleReceive(s: System)
    requires Enabled(s, Receive) && Cancellations(s.events) == Stale(s.receipts)
    ensures Cancellations(Apply(s, Receive).events) == Stale(Apply(s, Receive).receipts)
  {
    var o := s.outcomes[0];
    OutcomeEffects(s.view, o);
    OutcomeCancels(s.view, o);
    CancellationsAppend(s.events, HandleOutcome(s.view, o).1.events);
    var rs := Apply(s, Receive).receipts;
    assert rs[..|rs| - 1] == s.receipts;
  }

  lemma StaleStep(s: System, l: Label)
    requires Enabled(s, l) && Cancellations(s.events) == Stale(s.receipts)
    ensures Cancellations(Apply(s, l).events) == Stale(Apply(s, l).receipts)
  {
    match l
    case Final(route) =>
      FinalEffects(s.view, route);
      CancellationsAppend(s.events, HandleFinal(s.view, route).1.events);
    case Receive => StaleReceive(s);
    case _ =>
  }

  lemma {:induction false} StaleAreCancelled(labels: seq<Label>)
    requires IsRun(labels)
    ensures Cancellations(Reached(labels).events) == Stale(Reached(labels).receipts)
  {
    if labels != [] {
      StaleAreCancelled(labels[..|labels| - 1]);
      StaleStep(Reached(labels[..|labels| - 1]), labels[|labels| - 1]);
    }
  }

  /** Every outcome received was forwarded, its epoch then being current, or
      reported cancelled; no epoch is received twice, so none is forwarded twice. */
  lemma OutcomesHandledOnce(labels: seq<Label>)
    requires IsRun(labels) && Reached(labels).finals <= U64_MAX
    ensures var rs := Reached(labels).receipts;
            && (forall i :: 0 <= i < |rs| ==> (rs[i].forwarded <==> rs[i].epoch == rs[i].current))
            && (forall i, j :: 0 <= i < j < |rs| ==> rs[i].epoch != rs[j].epoch)
    ensures Cancellations(Reached(labels).events) == Stale(Reached(labels).receipts)
  {
    EpochsAlwaysSafe(labels);
    StaleAreCancelled(labels);
  }

  /** The router's normal exit never loses the outcome of the current utterance. */
  lemma ExitLosesNothingCurrent(labels: seq<Label>)
    requires IsRun(labels) && Reached(labels).finals <= U64_MAX
    requires Enabled(Reached(labels), RouterExits)
    ensures forall d :: d in Outstanding(Reached(labels)) ==> d.epoch < Reached(labels).view.epoch
  {
    EpochsAlwaysSafe(labels);
  }

  predicate Speaks(s: System, l: Label)
    requires Enabled(s, l)
  {
    match l
    case Final(route) => !route.ToSkill?
    case Receive =>
      s.outcomes[0].epoch == s.view.epoch && (s.outcomes[0].response.Say? || s.outcomes[0].response.AskLlm?)
    case _ => false
  }

  /** Speech or a prompt has been forwarded for the newest utterance: it went straight
      to the LLM, or its outcome was spoken or handed to the LLM. */
  predicate Spoken(labels: seq<Label>)
    requires IsRun(labels)
  {
    if labels == [] then false
    else
      var init, l := labels[..|labels| - 1], labels[|labels| - 1];
      Speaks(Reached(init), l) || (Spoken(init) && !l.Final?)
  }

  lemma WorkStep(s: System, l: Label)
    requires Enabled(s, l)
    ensures Apply(s, l).view.priorWork == (Speaks(s, l) || (s.view.priorWork && !l.Final?))
  {
  }

  lemma {:induction false} PriorWorkIffSpoken(labels: seq<Label>)
    requires IsRun(labels)
    ensures Reached(labels).view.priorWork == Spoken(labels)
  {
    if labels != [] {
      PriorWorkIffSpoken(labels[..|labels| - 1]);
      WorkStep(Reached(labels[..|labels| - 1]), labels[|labels| - 1]);
    }
  }

  lemma BargeInEvent(v: View, route: Route)
    ensures BargeIn in HandleFinal(v, route).1.events <==> v.pending.Some? || v.priorWork
  {
  }

  /** A final transcript barges in exactly when the utterance before it still has its
      outcome outstanding or has already been answered or handed to the LLM. */
  lemma BargeInExactly(labels: seq<Label>, route: Route)
    requires IsRun(labels) && Reached(labels).finals <= U64_MAX
    ensures BargeIn in HandleFinal(Reached(labels).view, route).1.events <==>
              Spoken(labels) || exists d :: d in Outstanding(Reached(labels)) && d.epoch == Reached(labels).view.epoch
  {
    PriorWorkIffSpoken(labels);
    PendingIffUnresolved(labels);
    BargeInEvent(Reached(labels).view, route);
  }

  /** Two outcomes of one epoch were both forwarded. */
  ghost predicate ForwardedTwice(receipts: seq<Receipt>) {
    exists i, j :: 0 <= i < j < |receipts| && receipts[i].epoch == receipts[j].epoch
      && receipts[i].forwarded && receipts[j].forwarded
  }

  ghost predicate NeverForwardedTwice(finals: nat) {
    forall labels :: IsRun(labels) && Reached(labels).finals == finals ==> !ForwardedTwice(Reached(labels).receipts)
  }

  lemma Extend(labels: seq<Label>, l: Label)
    requires IsRun(labels) && Enabled(Reached(labels), l)
    ensures IsRun(labels + [l]) && Reached(labels + [l]) == Apply(Reached(labels), l)
  {
    assert (labels + [l])[..|labels|] == labels;
  }

  /** Only finals so far, none for a skill. */
  predicate OnlyPrompts(s: System, n: nat) {
    && s.finals == n && s.view.epoch == (if n < U64_MAX then n else U64_MAX)
    && s.running && !s.rxClosed && s.routerOut == [] && s.tasks == [] && s.outcomes == [] && s.receipts == []
  }

  lemma {:induction false} ManyFinals(n: nat) returns (labels: seq<Label>)
    ensures IsRun(labels) && OnlyPrompts(Reached(labels), n)
  {
    if n == 0 {
      labels := [];
    } else {
      labels := ManyFinals(n - 1);
      Extend(labels, Final(NoMatch("")));
      labels := labels + [Final(NoMatch(""))];
    }
  }

  /** The last epoch is reached, with these dispatches in flight and these outcomes queued. */
  predicate Saturated(s: System, n: nat, tasks: seq<Dispatch>, outcomes: seq<Outcome>) {
    && s.finals == n && s.view.epoch == U64_MAX && RouterListens(s) && !s.rxClosed && s.receipts == []
    && s.tasks == tasks && s.outcomes == outcomes
  }

  lemma Dispatches(labels: seq<Label>, n: nat, tasks: seq<Dispatch>, skill: string) returns (more: seq<Label>)
    requires IsRun(labels)
    requires var s := Reached(labels);
             && s.finals == n && U64_MAX <= s.view.epoch + 1 && s.view.epoch <= U64_MAX
             && RouterListens(s) && !s.rxClosed && s.receipts == [] && s.tasks == tasks && s.outcomes == []
    ensures IsRun(more) && Saturated(Reached(more), n + 1, tasks + [Dispatch(U64_MAX, skill)], [])
  {
    Extend(labels, Final(ToSkill(skill, false)));
    more := labels + [Final(ToSkill(skill, false))];
  }

  lemma Resolves(labels: seq<Label>, n: nat, t: Dispatch, tasks: seq<Dispatch>, outcomes: seq<Outcome>)
    returns (more: seq<Label>)
    requires IsRun(labels) && Saturated(Reached(labels), n, [t] + tasks, outcomes)
    ensures IsRun(more) && Saturated(Reached(more), n, tasks, outcomes + [Outcome(t.epoch, t.skill, Empty)])
  {
    Extend(labels, Resolve(0, Empty));
    more := labels + [Resolve(0, Empty)];
    assert ([t] + tasks)[..0] + ([t] + tasks)[1..] == tasks;
  }

  /** Two dispatches of the saturated epoch, resolved and waiting for the router. */
  lemma SaturatedDispatches(n: nat, skill: string, next: string) returns (labels: seq<Label>)
    requires U64_MAX < n
    ensures IsRun(labels)
    ensures Saturated(Reached(labels), n, [], [Outcome(U64_MAX, skill, Empty), Outcome(U64_MAX, next, Empty)])
  {
    var first, second := Dispatch(U64_MAX, skill), Dispatch(U64_MAX, next);
    labels := ManyFinals(n - 2);
    labels := Dispatches(labels, n - 2, [], skill);
    labels := Dispatches(labels, n - 1, [first], next);
    labels := Resolves(labels, n, first, [second], []);
    labels := Resolves(labels, n, second, [], [Outcome(U64_MAX, skill, Empty)]);
  }

  /** The router takes an outcome of the current epoch that has nothing to say. */
  lemma Forwards(labels: seq<Label>) returns (more: seq<Label>)
    requires IsRun(labels) && RouterListens(Reached(labels)) && Reached(labels).outcomes != []
    requires Reached(labels).outcomes[0].response == Empty
    requires Reached(labels).outcomes[0].epoch == Reached(labels).view.epoch
    ensures IsRun(more)
    ensures var s, s' := Reached(labels), Reached(more);
            && RouterListens(s') && s'.outcomes == s.outcomes[1..] && s'.finals == s.finals
            && s'.view.epoch == s.view.epoch
            && s'.receipts == s.receipts + [Receipt(s.view.epoch, s.view.epoch, true)]
  {
    Extend(labels, Receive);
    more := labels + [Receive];
    Extend(more, RouterSends);
    more := more + [RouterSends];
  }

  /** Past saturation two utterances share an epoch, and both their outcomes are forwarded. */
  lemma SaturatedRun(n: nat, skill: string, next: string) returns (labels: seq<Label>)
    requires U64_MAX < n
    ensures IsRun(labels) && Reached(labels).finals == n && ForwardedTwice(Reached(labels).receipts)
  {
    labels := SaturatedDispatches(n, skill, next);
    labels := Forwards(labels);
    labels := Forwards(labels);
    var rs := Reached(labels).receipts;
    assert rs[0] == rs[1] == Receipt(U64_MAX, U64_MAX, true);
  }

  /** The exact bound of epoch safety: no run with n final transcripts forwards two
      outcomes of one epoch if and only if n is at most 2^64 - 1. */
  lemma ForwardedOnceIffUnsaturated(n: nat)
    ensures NeverForwardedTwice(n) <==> n <= U64_MAX
  {
    if n <= U64_MAX {
      forall labels | IsRun(labels) && Reached(labels).finals == n
        ensures !ForwardedTwice(Reached(labels).receipts)
      {
        OutcomesHandledOnce(labels);
      }
    } else {
      var labels := SaturatedRun(n, "", "");
    }
  }

  // ----- To the satellite -----

  function MessagesIn(arms: seq<Arm>): seq<TtsMsg> {
    if arms == [] then []
    else MessagesIn(arms[..|arms| - 1]) + if arms[|arms| - 1].Received? then [arms[|arms| - 1].msg] else []
  }

  lemma {:induction false} MessagesCarryEnds(arms: seq<Arm>)
    ensures EndsReceived(arms) == EndsIn(MessagesIn(arms))
  {
    if arms != [] {
      var init, arm := arms[..|arms| - 1], arms[|arms| - 1];
      MessagesCarryEnds(init);
      if arm.Received? {
        EndsInAppend(MessagesIn(init), [arm.msg]);
        assert [arm.msg][1..] == [];
      } else {
        assert MessagesIn(arms) == MessagesIn(init);
      }
    }
  }

  /** The whole pipeline, drained: the synthesis stage has received what the token
      channel carried and the sink has consumed what it sent. Then the satellite
      has been told done once for every utterance that was not cancelled. */
  lemma DonePerUtterance(labels: seq<Label>, u: Text.Unicode, arms: seq<Arm>)
    requires IsRun(labels) && Drained(Reached(labels))
    requires RunOf(u, arms).running && MessagesIn(arms) == Reached(labels).tokens
    ensures S.Dones(S.ConsumeAll(SentBy(RunOf(u, arms).acts)).out) ==
            Reached(labels).finals - Cancellations(Reached(labels).events)
  {
    TurnClosingLaw(labels);
    MessagesCarryEnds(arms);
    DonePerReceivedEnd(u, arms);
  }
}
