/** One device's actor in the assist bridge: it answers questions as text and
    drives the client's loader with "in progress" and "done" statuses. */
module Loader {
  import opened Ints
  import opened Options
  import opened Sentences
  import opened Text
  import opened Tokens

  const ANSWER_TIMEOUT_MS: nat := 30_000

  datatype Post = InProgress | Done | Answer(text: string)

  /** One select! arm that fired, with the clock's reading where it matters; or Sent,
      a message its router or LLM put on the token channel meanwhile. */
  datatype Arm =
    | Cancelled
    | IdleElapsed(at: nat)
    | AnswerElapsed(at: nat)
    | FlushElapsed(at: nat)
    | Question(text: string, now: nat, routerGone: bool)
    | QuestionsClosed
    | Sent(msg: TtsMsg)
    | Received(now: nat)
    | TokensClosed

  datatype Actor = Actor(
    epoch: nat,
    answerDeadline: Option<(nat, nat)>,
    flushDeadline: Option<nat>,
    idleDeadline: nat,
    buf: string,
    inbox: seq<TtsMsg>,        // the token channel
    running: bool,
    log: seq<Post>,
    announced: seq<string>,    // TranscriptFinal events
    forwarded: seq<string>)    // transcripts handed to the router

  predicate Elapsed(deadline: Option<nat>, at: nat) {
    deadline.Some? && deadline.value <= at
  }

  /** publish_answer: the first text for this question releases the loader. */
  function PublishAnswer(a: Actor, out: Option<string>): Actor {
    if out.None? then a
    else if a.answerDeadline.Some? && a.answerDeadline.value.0 == a.epoch then
      a.(log := a.log + [Answer(out.value), Done], answerDeadline := None)
    else a.(log := a.log + [Answer(out.value)])
  }

  /** A new question supersedes whatever is still in flight for the previous one: the
      buffered fragment, and every token already on the channel. */
  function OnQuestion(idle: nat, a: Actor, text: string, now: nat, routerGone: bool): Actor {
    var epoch := SaturatingNext(a.epoch);
    Actor(epoch, Some((epoch, now + ANSWER_TIMEOUT_MS)), None, now + idle, "", [], !routerGone, a.log + [InProgress],
          a.announced + [text], if routerGone then a.forwarded else a.forwarded + [text])
  }

  function OnToken(a: Actor, pushed: (string, Option<string>), now: nat): Actor {
    PublishAnswer(a.(buf := pushed.0,
                     flushDeadline := if pushed.1.Some? then None else Some(now + IDLE_FLUSH_MS)), pushed.1)
  }

  /** An answer that produced no text releases the loader at its end. */
  function OnEnd(a: Actor): Actor {
    if a.answerDeadline.Some? && a.answerDeadline.value.0 == a.epoch then
      a.(answerDeadline := None, log := a.log + [Done])
    else a
  }

  /** taken is what draining the buffer yields, pushed what pushing the arm's token does. */
  function React(idle: nat, a: Actor, arm: Arm, taken: Option<string>, pushed: (string, Option<string>)): Actor {
    if !a.running then a
    else
      match arm
      case Cancelled => a.(running := false)
      case IdleElapsed(at) => if a.idleDeadline <= at then a.(running := false) else a
      case AnswerElapsed(at) =>
        if a.answerDeadline.Some? && a.answerDeadline.value.1 <= at then
          a.(log := a.log + [Done], answerDeadline := None)
        else a
      case FlushElapsed(at) =>
        if Elapsed(a.flushDeadline, at) then PublishAnswer(a.(flushDeadline := None, buf := ""), taken) else a
      case Question(text, now, routerGone) => OnQuestion(idle, a, text, now, routerGone)
      case QuestionsClosed => a.(running := false)
      case TokensClosed => PublishAnswer(a.(buf := "", running := false), taken)
      case Sent(msg) => a.(inbox := a.inbox + [msg])
      case Received(now) =>
        if a.inbox == [] then a
        else
          match a.inbox[0]
          case Token(_) => OnToken(a.(inbox := a.inbox[1..]), pushed, now)
          case EndOfAnswer => OnEnd(PublishAnswer(a.(inbox := a.inbox[1..], flushDeadline := None, buf := ""), taken))
  }

  /** The token an arm takes off the channel. */
  function TokenOf(a: Actor, arm: Arm): string {
    if arm.Received? && a.inbox != [] && a.inbox[0].Token? then a.inbox[0].text else ""
  }

  function Step(u: Unicode, idle: nat, a: Actor, arm: Arm): Actor {
    React(idle, a, arm, Take(u, a.buf), Push(u, a.buf, TokenOf(a, arm)))
  }

  function Fresh(idle: nat, now: nat): Actor {
    Actor(0, None, None, now + idle, "", [], true, [], [], [])
  }

  function RunOf(u: Unicode, idle: nat, born: nat, arms: seq<Arm>): Actor {
    if arms == [] then Fresh(idle, born)
    else Step(u, idle, RunOf(u, idle, born, arms[..|arms| - 1]), arms[|arms| - 1])
  }

  /** Everything published by an actor that has left its loop. */
  function AtExit(a: Actor): seq<Post> {
    if a.answerDeadline.Some? then a.log + [Done] else a.log
  }

  lemma {:induction false} StoppedStays(u: Unicode, idle: nat, born: nat, arms: seq<Arm>, n: nat)
    requires n <= |arms| && !RunOf(u, idle, born, arms[..n]).running
    ensures RunOf(u, idle, born, arms) == RunOf(u, idle, born, arms[..n])
    decreases |arms| - n
  {
    if n == |arms| {
      assert arms[..n] == arms;
    } else {
      assert arms[..n + 1][..n] == arms[..n];
      StoppedStays(u, idle, born, arms, n + 1);
    }
  }

  /** The fields run_device_actor's loop updates. */
  class DeviceActor {
    const u: Unicode
    const sessionIdle: nat
    var epoch: nat
    var answerDeadline: Option<(nat, nat)>
    var flushDeadline: Option<nat>
    var idleDeadline: nat
    var inbox: seq<TtsMsg>
    var running: bool
    var log: seq<Post>
    var announced: seq<string>
    var forwarded: seq<string>
    const buf: SentenceBuffer

    ghost function View(): Actor
      reads this, buf
    {
      Actor(epoch, answerDeadline, flushDeadline, idleDeadline, buf.buf, inbox, running, log,
            announced, forwarded)
    }

    ghost predicate Valid()
      reads this
    {
      buf.u == u
    }

    constructor (u: Unicode, sessionIdle: nat, now: nat)
      ensures Valid() && fresh(buf) && this.u == u && this.sessionIdle == sessionIdle
      ensures View() == Fresh(sessionIdle, now)
    {
      this.u, this.sessionIdle := u, sessionIdle;
      epoch, answerDeadline, flushDeadline, inbox, running, log := 0, None, None, [], true, [];
      announced, forwarded := [], [];
      idleDeadline := now + sessionIdle;
      buf := new SentenceBuffer(u);
    }

    /** The body of one arm. */
    method Fire(arm: Arm)
      requires Valid() && running
      modifies this, buf
      ensures Valid() && View() == Step(u, sessionIdle, old(View()), arm)
    {
      match arm
      case Cancelled => running := false;
      case IdleElapsed(at) =>
        if idleDeadline <= at {
          running := false;
        }
      case AnswerElapsed(at) =>
        if answerDeadline.Some? && answerDeadline.value.1 <= at {
          log := log + [Done];
          answerDeadline := None;
        }
      case FlushElapsed(at) =>
        if flushDeadline.Some? && flushDeadline.value <= at {
          flushDeadline := None;
          PublishRest();
        }
      case Question(text, now, routerGone) => TakeQuestion(text, now, routerGone);
      case QuestionsClosed => running := false;
      case TokensClosed =>
        PublishRest();
        running := false;
      case Sent(msg) => inbox := inbox + [msg];
      case Received(now) =>
        if inbox != [] {
          TakeToken(now);
        }
    }

    method TakeToken(now: nat)
      requires Valid() && running && inbox != []
      modifies this, buf
      ensures Valid() && View() == Step(u, sessionIdle, old(View()), Received(now))
    {
      var msg := inbox[0];
      inbox := inbox[1..];
      if msg.EndOfAnswer? {
        flushDeadline := None;
        PublishRest();
        ReleaseLoader();
      } else {
        var out := buf.PushToken(msg.text);
        flushDeadline := if out.Some? then None else Some(now + IDLE_FLUSH_MS);
        Publish(out);
      }
    }

    method TakeQuestion(text: string, now: nat, routerGone: bool)
      requires Valid() && running
      modifies this, buf
      ensures Valid() && View() == OnQuestion(sessionIdle, old(View()), text, now, routerGone)
    {
      idleDeadline := now + sessionIdle;
      epoch := SaturatingNext(epoch);
      buf.Clear();
      flushDeadline := None;
      DrainTokens();
      answerDeadline := Some((epoch, now + ANSWER_TIMEOUT_MS));
      log := log + [InProgress];
      announced := announced + [text];
      if routerGone {
        running := false;
      } else {
        forwarded := forwarded + [text];
      }
    }

    /** try_recv until the channel is empty. */
    method DrainTokens()
      modifies this`inbox
      ensures inbox == []
    {
      while inbox != []
        decreases |inbox|
      {
        inbox := inbox[1..];
      }
    }

    method ReleaseLoader()
      modifies this`log, this`answerDeadline
      ensures View() == OnEnd(old(View()))
    {
      if answerDeadline.Some? && answerDeadline.value.0 == epoch {
        answerDeadline := None;
        log := log + [Done];
      }
    }

    method PublishRest()
      requires Valid()
      modifies this`log, this`answerDeadline, buf
      ensures View() == PublishAnswer(old(View()).(buf := ""), Take(u, old(buf.buf)))
    {
      var out := buf.TakeAll();
      Publish(out);
    }

    method Publish(out: Option<string>)
      modifies this`log, this`answerDeadline
      ensures View() == PublishAnswer(old(View()), out)
    {
      if out.None? {
        return;
      }
      log := log + [Answer(out.value)];
      if answerDeadline.Some? && answerDeadline.value.0 == epoch {
        answerDeadline := None;
        log := log + [Done];
      }
    }
  }

  /** run_device_actor up to its exit: the loop, then the unconditional release of
      the loader. exited is false while the actor is still in its loop. */
  method RunDeviceActor(u: Unicode, sessionIdle: nat, born: nat, arms: seq<Arm>)
    returns (log: seq<Post>, exited: bool)
    ensures exited <==> !RunOf(u, sessionIdle, born, arms).running
    ensures log == if exited then AtExit(RunOf(u, sessionIdle, born, arms)) else RunOf(u, sessionIdle, born, arms).log
  {
    var a := new DeviceActor(u, sessionIdle, born);
    for i := 0 to |arms|
      invariant fresh(a) && fresh(a.buf) && a.Valid() && a.u == u && a.sessionIdle == sessionIdle
      invariant a.running && a.View() == RunOf(u, sessionIdle, born, arms[..i])
    {
      assert arms[..i + 1][..i] == arms[..i];
      a.Fire(arms[i]);
      if !a.running {
        StoppedStays(u, sessionIdle, born, arms, i + 1);
        return if a.answerDeadline.Some? then a.log + [Done] else a.log, true;
      }
    }
    assert arms[..|arms|] == arms;
    return a.log, false;
  }

  // ----- The loader protocol -----

  function Statuses(log: seq<Post>): seq<Post> {
    if log == [] then []
    else Statuses(log[..|log| - 1]) + if log[|log| - 1].Answer? then [] else [log[|log| - 1]]
  }

  /** Prefixes of (in-progress+ done)*: a done always directly follows an in-progress. */
  predicate IsWordPrefix(w: seq<Post>) {
    forall i :: 0 <= i < |w| && w[i].Done? ==> 0 < i && w[i - 1].InProgress?
  }

  predicate EndsLoading(w: seq<Post>) {
    w != [] && w[|w| - 1].InProgress?
  }

  /** (in-progress+ done)*. */
  predicate IsWord(w: seq<Post>) {
    IsWordPrefix(w) && !EndsLoading(w)
  }

  /** While the loader spins, a text is directly followed by the done it causes. */
  predicate TextsRelease(log: seq<Post>) {
    forall i :: 0 <= i < |log| && log[i].Answer? && EndsLoading(Statuses(log[..i])) ==>
      i + 1 < |log| && log[i + 1].Done?
  }

  ghost predicate LoaderInv(a: Actor) {
    && IsWordPrefix(Statuses(a.log))
    && (a.answerDeadline.Some? <==> EndsLoading(Statuses(a.log)))
    && (a.answerDeadline.Some? ==> a.answerDeadline.value.0 == a.epoch)
    && TextsRelease(a.log)
  }

  lemma StatusesAppend(log: seq<Post>, p: Post)
    ensures Statuses(log + [p]) == Statuses(log) + if p.Answer? then [] else [p]
  {
    assert (log + [p])[..|log|] == log;
  }

  lemma PostKeeps(log: seq<Post>, p: Post)
    requires TextsRelease(log) && (p.Answer? ==> !EndsLoading(Statuses(log)))
    ensures TextsRelease(log + [p])
  {
    var all := log + [p];
    forall i | 0 <= i < |all| && all[i].Answer? && EndsLoading(Statuses(all[..i]))
      ensures i + 1 < |all| && all[i + 1].Done?
    {
      assert all[..|log|] == log;
      assert i < |log| ==> all[..i] == log[..i];
    }
  }

  lemma ReleasingText(log: seq<Post>, text: string)
    requires TextsRelease(log)
    ensures TextsRelease(log + [Answer(text), Done])
  {
    var all := log + [Answer(text), Done];
    forall i | 0 <= i < |all| && all[i].Answer? && EndsLoading(Statuses(all[..i]))
      ensures i + 1 < |all| && all[i + 1].Done?
    {
      if i < |log| {
        assert all[..i] == log[..i];
      }
    }
  }

  lemma ReleasedStatuses(log: seq<Post>, text: string)
    requires IsWordPrefix(Statuses(log)) && EndsLoading(Statuses(log))
    ensures IsWord(Statuses(log + [Answer(text), Done]))
  {
    assert log + [Answer(text), Done] == log + [Answer(text)] + [Done];
    StatusesAppend(log, Answer(text));
    StatusesAppend(log + [Answer(text)], Done);
  }

  lemma PublishKeeps(a: Actor, out: Option<string>)
    requires LoaderInv(a)
    ensures LoaderInv(PublishAnswer(a, out))
  {
    if out.Some? {
      if a.answerDeadline.Some? {
        ReleasingText(a.log, out.value);
        ReleasedStatuses(a.log, out.value);
      } else {
        StatusesAppend(a.log, Answer(out.value));
        PostKeeps(a.log, Answer(out.value));
      }
    }
  }

  lemma StatusKeeps(a: Actor, p: Post)
    requires LoaderInv(a) && !p.Answer? && (p.Done? ==> a.answerDeadline.Some?)
    ensures IsWordPrefix(Statuses(a.log + [p])) && TextsRelease(a.log + [p])
    ensures EndsLoading(Statuses(a.log + [p])) <==> p.InProgress?
  {
    StatusesAppend(a.log, p);
    PostKeeps(a.log, p);
  }

  lemma EndKeeps(a: Actor)
    requires LoaderInv(a)
    ensures LoaderInv(OnEnd(a))
  {
    if a.answerDeadline.Some? {
      StatusKeeps(a, Done);
    }
  }

  /** b differs from a in nothing the loader depends on. */
  predicate SameLoader(a: Actor, b: Actor) {
    a.log == b.log && a.answerDeadline == b.answerDeadline && a.epoch == b.epoch
  }

  lemma ReceivedCases(a: Actor, now: nat, taken: Option<string>, pushed: (string, Option<string>), ok: Actor -> bool)
    requires a.inbox != []
    requires forall b, out :: SameLoader(a, b) ==> ok(PublishAnswer(b, out))
    requires forall b, out :: SameLoader(a, b) ==> ok(OnEnd(PublishAnswer(b, out)))
    ensures ok(OnToken(a.(inbox := a.inbox[1..]), pushed, now))
    ensures ok(OnEnd(PublishAnswer(a.(inbox := a.inbox[1..], flushDeadline := None, buf := ""), taken)))
  {
    var b := a.(inbox := a.inbox[1..]);
    var deadline := if pushed.1.Some? then None else Some(now + IDLE_FLUSH_MS);
    assert SameLoader(a, b.(buf := pushed.0, flushDeadline := deadline));
    assert SameLoader(a, b.(flushDeadline := None, buf := ""));
  }

  /** What an arm can do to the loader: leave it, publish, end an answer, take a question. */
  lemma ArmCases(idle: nat, a: Actor, arm: Arm, taken: Option<string>, pushed: (string, Option<string>),
                 ok: Actor -> bool)
    requires a.answerDeadline.Some? ==> a.answerDeadline.value.0 == a.epoch
    requires forall b :: SameLoader(a, b) ==> ok(b)
    requires forall b, out :: SameLoader(a, b) ==> ok(PublishAnswer(b, out))
    requires forall b, out :: SameLoader(a, b) ==> ok(OnEnd(PublishAnswer(b, out)))
    requires ok(OnEnd(a)) && forall text, now, gone :: ok(OnQuestion(idle, a, text, now, gone))
    ensures ok(React(idle, a, arm, taken, pushed))
  {
    match arm
    case AnswerElapsed(_) => assert React(idle, a, arm, taken, pushed) in {a, OnEnd(a)};
    case FlushElapsed(_) => assert ok(PublishAnswer(a.(flushDeadline := None, buf := ""), taken));
    case TokensClosed => assert ok(PublishAnswer(a.(buf := "", running := false), taken));
    case Received(now) =>
      if a.inbox != [] {
        ReceivedCases(a, now, taken, pushed, ok);
      }
    case _ =>
  }

  lemma SameLoaderKeeps(a: Actor, b: Actor, out: Option<string>)
    requires LoaderInv(a) && SameLoader(a, b)
    ensures LoaderInv(b) && LoaderInv(PublishAnswer(b, out)) && LoaderInv(OnEnd(PublishAnswer(b, out)))
  {
    PublishKeeps(b, out);
    EndKeeps(PublishAnswer(b, out));
  }

  lemma QuestionKeeps(idle: nat, a: Actor, text: string, now: nat, routerGone: bool)
    requires LoaderInv(a)
    ensures LoaderInv(OnQuestion(idle, a, text, now, routerGone))
  {
    StatusKeeps(a, InProgress);
  }

  lemma LoaderReact(idle: nat, a: Actor, arm: Arm, taken: Option<string>, pushed: (string, Option<string>))
    requires LoaderInv(a)
    ensures LoaderInv(React(idle, a, arm, taken, pushed))
  {
    var ok := (b: Actor) => LoaderInv(b);
    forall b, out | SameLoader(a, b)
      ensures ok(b) && ok(PublishAnswer(b, out)) && ok(OnEnd(PublishAnswer(b, out)))
    {
      SameLoaderKeeps(a, b, out);
    }
    forall text, now, routerGone
      ensures ok(OnQuestion(idle, a, text, now, routerGone))
    {
      QuestionKeeps(idle, a, text, now, routerGone);
    }
    EndKeeps(a);
    ArmCases(idle, a, arm, taken, pushed, ok);
  }

  lemma {:induction false} LoaderRun(u: Unicode, idle: nat, born: nat, arms: seq<Arm>)
    ensures LoaderInv(RunOf(u, idle, born, arms))
  {
    if arms != [] {
      var a, arm := RunOf(u, idle, born, arms[..|arms| - 1]), arms[|arms| - 1];
      LoaderRun(u, idle, born, arms[..|arms| - 1]);
      LoaderReact(idle, a, arm, Take(u, a.buf), Push(u, a.buf, TokenOf(a, arm)));
    }
  }

  predicate ProtocolKept(a: Actor) {
    IsWordPrefix(Statuses(a.log)) && IsWord(Statuses(AtExit(a))) && TextsRelease(a.log)
  }

  lemma WordAtExit(a: Actor)
    requires LoaderInv(a)
    ensures ProtocolKept(a)
  {
    StatusesAppend(a.log, Done);
  }

  /** For every interleaving of the arms: the statuses are a prefix of
      (in-progress+ done)*, they are a complete word once the actor has exited, and
      a text published while the loader spins releases it at once. */
  lemma LoaderProtocol(u: Unicode, idle: nat, born: nat, arms: seq<Arm>)
    ensures ProtocolKept(RunOf(u, idle, born, arms))
  {
    LoaderRun(u, idle, born, arms);
    WordAtExit(RunOf(u, idle, born, arms));
  }

  // ----- The answer deadline and the text of the newest question -----

  /** What the actor has taken in: the questions, when the newest came, the text of the
      tokens received since, and of those put on the channel since. */
  datatype Intake = Intake(questions: seq<string>, asked: nat, heard: string, sent: string)

  function TextOf(msg: TtsMsg): string {
    if msg.Token? then msg.text else ""
  }

  function TakeIn(i: Intake, a: Actor, arm: Arm): Intake {
    match arm
    case Question(text, now, _) => Intake(i.questions + [text], now, "", "")
    case Sent(msg) => i.(sent := i.sent + TextOf(msg))
    case Received(_) => i.(heard := i.heard + TokenOf(a, arm))
    case _ => i
  }

  function Texts(msgs: seq<TtsMsg>): string {
    if msgs == [] then "" else Texts(msgs[..|msgs| - 1]) + TextOf(msgs[|msgs| - 1])
  }

  lemma TextsGrow(msgs: seq<TtsMsg>, msg: TtsMsg)
    ensures Texts(msgs + [msg]) == Texts(msgs) + TextOf(msg)
  {
    assert (msgs + [msg])[..|msgs|] == msgs;
  }

  lemma {:induction false} TextsHead(msgs: seq<TtsMsg>)
    requires msgs != []
    ensures Texts(msgs) == TextOf(msgs[0]) + Texts(msgs[1..])
  {
    if |msgs| > 1 {
      var init := msgs[..|msgs| - 1];
      TextsHead(init);
      assert msgs[1..][..|msgs| - 2] == init[1..];
      assert TextOf(msgs[0]) + (Texts(init[1..]) + TextOf(msgs[|msgs| - 1])) == Texts(init) + TextOf(msgs[|msgs| - 1]);
    }
  }

  /** The channel is in order: what was sent since the question is what was received
      since plus what is still on it. */
  ghost predicate InOrder(a: Actor, i: Intake) {
    i.sent == i.heard + Texts(a.inbox)
  }

  lemma InboxAfter(idle: nat, a: Actor, arm: Arm, taken: Option<string>, pushed: (string, Option<string>))
    requires a.running
    ensures React(idle, a, arm, taken, pushed).inbox ==
            if arm.Question? then []
            else if arm.Sent? then a.inbox + [arm.msg]
            else if arm.Received? && a.inbox != [] then a.inbox[1..]
            else a.inbox
  {
  }

  lemma Regrouped(a: string, b: string, c: string)
    ensures a + (b + c) == a + b + c && a + "" == a
  {
  }

  lemma OrderKept(idle: nat, a: Actor, i: Intake, arm: Arm, taken: Option<string>, pushed: (string, Option<string>))
    requires a.running && InOrder(a, i)
    ensures InOrder(React(idle, a, arm, taken, pushed), TakeIn(i, a, arm))
  {
    InboxAfter(idle, a, arm, taken, pushed);
    Regrouped(i.heard, "", "");
    if arm.Sent? {
      TextsGrow(a.inbox, arm.msg);
      Regrouped(i.heard, Texts(a.inbox), TextOf(arm.msg));
    } else if arm.Received? && a.inbox != [] {
      TextsHead(a.inbox);
      Regrouped(i.heard, TextOf(a.inbox[0]), Texts(a.inbox[1..]));
    }
  }

  /** Every question is announced and handed to the router, in order; only one that
      finds the router gone is not handed over, and it ends the actor. */
  ghost predicate HandedOn(a: Actor, i: Intake) {
    && a.announced == i.questions
    && a.forwarded <= a.announced && |a.announced| <= |a.forwarded| + 1
    && (a.running ==> a.forwarded == a.announced)
  }

  lemma HandedOnKept(idle: nat, a: Actor, i: Intake, arm: Arm, taken: Option<string>, pushed: (string, Option<string>))
    requires a.running && HandedOn(a, i)
    ensures HandedOn(React(idle, a, arm, taken, pushed), TakeIn(i, a, arm))
  {
  }

  function IntakeOf(u: Unicode, idle: nat, born: nat, arms: seq<Arm>): Intake {
    if arms == [] then Intake([], 0, "", "")
    else
      var i := IntakeOf(u, idle, born, arms[..|arms| - 1]);
      var a := RunOf(u, idle, born, arms[..|arms| - 1]);
      if a.running then TakeIn(i, a, arms[|arms| - 1]) else i
  }

  function Loadings(log: seq<Post>): nat {
    if log == [] then 0 else Loadings(log[..|log| - 1]) + if log[|log| - 1].InProgress? then 1 else 0
  }

  /** The texts published since the newest in-progress. */
  function TextsSince(log: seq<Post>): seq<string> {
    if log == [] then []
    else
      match log[|log| - 1]
      case InProgress => []
      case Done => TextsSince(log[..|log| - 1])
      case Answer(t) => TextsSince(log[..|log| - 1]) + [t]
  }

  ghost predicate Counted(a: Actor, i: Intake) {
    && a.epoch == (if |i.questions| < U64_MAX then |i.questions| else U64_MAX)
    && Loadings(a.log) == |i.questions|
    && (a.answerDeadline.Some? ==> a.answerDeadline.value == (a.epoch, i.asked + ANSWER_TIMEOUT_MS))
  }

  /** kept relates the tokens of the newest question, the texts published since, and the buffer. */
  ghost predicate IntakeInv(kept: Keeping, a: Actor, i: Intake) {
    Counted(a, i) && kept(i.heard, TextsSince(a.log), a.buf)
  }

  lemma LogAppend(log: seq<Post>, p: Post)
    ensures Loadings(log + [p]) == Loadings(log) + if p.InProgress? then 1 else 0
    ensures TextsSince(log + [p]) ==
            match p
            case InProgress => []
            case Done => TextsSince(log)
            case Answer(t) => TextsSince(log) + [t]
  {
    assert (log + [p])[..|log|] == log;
  }

  lemma PublishedTexts(a: Actor, out: Option<string>)
    ensures TextsSince(PublishAnswer(a, out).log) == TextsSince(a.log) + Released(out)
    ensures Loadings(PublishAnswer(a, out).log) == Loadings(a.log)
  {
    assert TextsSince(a.log) + [] == TextsSince(a.log);
    if out.Some? {
      LogAppend(a.log, Answer(out.value));
      LogAppend(a.log + [Answer(out.value)], Done);
      assert a.log + [Answer(out.value), Done] == a.log + [Answer(out.value)] + [Done];
    }
  }

  lemma IntakePublished(kept: Keeping, a: Actor, i: Intake, b: Actor, out: Option<string>)
    requires a.epoch == b.epoch && a.log == b.log && a.answerDeadline == b.answerDeadline
    requires Counted(a, i) && kept(i.heard, TextsSince(a.log) + Released(out), b.buf)
    ensures IntakeInv(kept, PublishAnswer(b, out), i)
  {
    PublishedTexts(b, out);
  }

  lemma IntakeDone(kept: Keeping, a: Actor, i: Intake)
    requires IntakeInv(kept, a, i)
    ensures IntakeInv(kept, a.(log := a.log + [Done], answerDeadline := None), i)
  {
    LogAppend(a.log, Done);
  }

  lemma IntakeReceives(kept: Keeping, a: Actor, i: Intake, now: nat, taken: Option<string>,
                       pushed: (string, Option<string>))
    requires a.running && IntakeInv(kept, a, i) && a.inbox != []
    requires kept(i.heard, TextsSince(a.log) + Released(taken), "")
    requires kept(i.heard + TokenOf(a, Received(now)), TextsSince(a.log) + Released(pushed.1), pushed.0)
    ensures IntakeInv(kept, OnToken(a.(inbox := a.inbox[1..]), pushed, now), TakeIn(i, a, Received(now)))
    ensures IntakeInv(kept, OnEnd(PublishAnswer(a.(inbox := a.inbox[1..], flushDeadline := None, buf := ""), taken)), i)
  {
    var b := a.(inbox := a.inbox[1..]);
    var deadline := if pushed.1.Some? then None else Some(now + IDLE_FLUSH_MS);
    IntakePublished(kept, a, TakeIn(i, a, Received(now)), b.(buf := pushed.0, flushDeadline := deadline), pushed.1);
    IntakePublished(kept, a, i, b.(flushDeadline := None, buf := ""), taken);
    IntakeDone(kept, PublishAnswer(b.(flushDeadline := None, buf := ""), taken), i);
  }

  lemma NothingHeard(heard: string)
    ensures heard + "" == heard
  {
  }

  lemma IntakeQuestion(kept: Keeping, idle: nat, a: Actor, i: Intake, text: string, now: nat, gone: bool)
    requires IntakeInv(kept, a, i) && kept("", [], "")
    ensures IntakeInv(kept, OnQuestion(idle, a, text, now, gone), Intake(i.questions + [text], now, "", ""))
  {
    LogAppend(a.log, InProgress);
  }

  /** One arm, for any relation that draining and pushing the buffer maintain. */
  lemma IntakeReact(kept: Keeping, idle: nat, a: Actor, i: Intake, arm: Arm, taken: Option<string>,
                    pushed: (string, Option<string>))
    requires a.running && IntakeInv(kept, a, i) && kept("", [], "")
    requires kept(i.heard, TextsSince(a.log) + Released(taken), "")
    requires kept(i.heard + TokenOf(a, arm), TextsSince(a.log) + Released(pushed.1), pushed.0)
    ensures IntakeInv(kept, React(idle, a, arm, taken, pushed), TakeIn(i, a, arm))
  {
    match arm
    case AnswerElapsed(at) => IntakeDone(kept, a, i);
    case FlushElapsed(at) => IntakePublished(kept, a, i, a.(flushDeadline := None, buf := ""), taken);
    case Question(text, now, gone) => IntakeQuestion(kept, idle, a, i, text, now, gone);
    case TokensClosed => IntakePublished(kept, a, i, a.(buf := "", running := false), taken);
    case Received(now) =>
      NothingHeard(i.heard);
      if a.inbox != [] {
        IntakeReceives(kept, a, i, now, taken, pushed);
      }
    case _ =>
  }

  lemma IntakeStep(u: Unicode, idle: nat, a: Actor, i: Intake, arm: Arm)
    requires a.running && IntakeInv(KeptIn(u), a, i)
    ensures IntakeInv(KeptIn(u), Step(u, idle, a, arm), TakeIn(i, a, arm))
  {
    KeptAtStart(u);
    KeptByTake(u, i.heard, TextsSince(a.log), a.buf);
    KeptByPush(u, i.heard, TextsSince(a.log), a.buf, TokenOf(a, arm));
    IntakeReact(KeptIn(u), idle, a, i, arm, Take(u, a.buf), Push(u, a.buf, TokenOf(a, arm)));
  }

  lemma {:induction false} IntakeRun(u: Unicode, idle: nat, born: nat, arms: seq<Arm>)
    ensures IntakeInv(KeptIn(u), RunOf(u, idle, born, arms), IntakeOf(u, idle, born, arms))
  {
    if arms == [] {
      KeptAtStart(u);
    } else {
      var init := arms[..|arms| - 1];
      IntakeRun(u, idle, born, init);
      if RunOf(u, idle, born, init).running {
        IntakeStep(u, idle, RunOf(u, idle, born, init), IntakeOf(u, idle, born, init), arms[|arms| - 1]);
      }
    }
  }

  lemma {:induction false} OrderRun(u: Unicode, idle: nat, born: nat, arms: seq<Arm>)
    ensures InOrder(RunOf(u, idle, born, arms), IntakeOf(u, idle, born, arms))
    ensures HandedOn(RunOf(u, idle, born, arms), IntakeOf(u, idle, born, arms))
  {
    if arms != [] {
      var init, arm := arms[..|arms| - 1], arms[|arms| - 1];
      OrderRun(u, idle, born, init);
      var a := RunOf(u, idle, born, init);
      if a.running {
        OrderKept(idle, a, IntakeOf(u, idle, born, init), arm, Take(u, a.buf), Push(u, a.buf, TokenOf(a, arm)));
        HandedOnKept(idle, a, IntakeOf(u, idle, born, init), arm, Take(u, a.buf), Push(u, a.buf, TokenOf(a, arm)));
      }
    }
  }

  ghost predicate ServesNewest(u: Unicode, a: Actor, i: Intake) {
    && (a.answerDeadline.Some? ==> a.answerDeadline.value == (a.epoch, i.asked + ANSWER_TIMEOUT_MS))
    && Loadings(a.log) == |i.questions|
    && Kept(u, i.heard, TextsSince(a.log), a.buf)
    && InOrder(a, i) && HandedOn(a, i)
  }

  lemma IntakeMeans(u: Unicode, a: Actor, i: Intake)
    requires IntakeInv(KeptIn(u), a, i) && InOrder(a, i) && HandedOn(a, i)
    ensures ServesNewest(u, a, i)
  {
  }

  /** A pending deadline always carries the current epoch and lies exactly 30 s after
      the newest question; there is one in-progress for each question, and all are
      announced and handed to the router in order; what has been published since that
      question covers what was received since; and that is, in order, what was put on
      the channel since. So neither text buffered nor tokens queued for a superseded
      question are ever published. */
  lemma NewestQuestionOnly(u: Unicode, idle: nat, born: nat, arms: seq<Arm>)
    ensures ServesNewest(u, RunOf(u, idle, born, arms), IntakeOf(u, idle, born, arms))
  {
    IntakeRun(u, idle, born, arms);
    OrderRun(u, idle, born, arms);
    IntakeMeans(u, RunOf(u, idle, born, arms), IntakeOf(u, idle, born, arms));
  }

  // ----- The loader never gets stuck -----

  /** The clock's reading in an arm that looks at the clock. */
  function Reading(arm: Arm): Option<nat> {
    match arm
    case IdleElapsed(at) => Some(at)
    case AnswerElapsed(at) => Some(at)
    case FlushElapsed(at) => Some(at)
    case Question(_, now, _) => Some(now)
    case Received(now) => Some(now)
    case _ => None
  }

  function LatestReading(born: nat, arms: seq<Arm>): nat {
    if arms == [] then born
    else
      var r := Reading(arms[|arms| - 1]);
      if r.Some? then r.value else LatestReading(born, arms[..|arms| - 1])
  }

  /** When the answer timer was last looked at. */
  function LastLook(born: nat, arms: seq<Arm>): nat {
    if arms == [] then born
    else
      match arms[|arms| - 1]
      case AnswerElapsed(at) => at
      case _ => LastLook(born, arms[..|arms| - 1])
  }

  /** Time never runs backwards, and the answer timer is looked at every d at least. */
  predicate Paced(born: nat, arms: seq<Arm>, d: nat) {
    arms == [] ||
    var init, r := arms[..|arms| - 1], Reading(arms[|arms| - 1]);
    Paced(born, init, d) && (r.Some? ==> LatestReading(born, init) <= r.value <= LastLook(born, init) + d)
  }

  lemma {:induction false} LooksKeepUp(born: nat, arms: seq<Arm>, d: nat)
    requires Paced(born, arms, d)
    ensures LastLook(born, arms) <= LatestReading(born, arms) <= LastLook(born, arms) + d
  {
    if arms != [] {
      LooksKeepUp(born, arms[..|arms| - 1], d);
    }
  }

  /** What one arm can do to the deadline: set it, leave it, or clear it; a look at or
      after the deadline clears it. */
  lemma DeadlineAfter(idle: nat, a: Actor, arm: Arm, taken: Option<string>, pushed: (string, Option<string>))
    requires a.running && React(idle, a, arm, taken, pushed).answerDeadline.Some?
    ensures var after := React(idle, a, arm, taken, pushed).answerDeadline.value.1;
            if arm.Question? then after == arm.now + ANSWER_TIMEOUT_MS
            else
              && a.answerDeadline.Some? && after == a.answerDeadline.value.1
              && (arm.AnswerElapsed? ==> arm.at < after)
  {
  }

  lemma {:induction false} LooksBeforeDeadline(u: Unicode, idle: nat, born: nat, arms: seq<Arm>, d: nat)
    requires Paced(born, arms, d) && RunOf(u, idle, born, arms).running
    ensures var a := RunOf(u, idle, born, arms);
            a.answerDeadline.Some? ==> LastLook(born, arms) < a.answerDeadline.value.1
  {
    if arms != [] && RunOf(u, idle, born, arms).answerDeadline.Some? {
      var init, arm := arms[..|arms| - 1], arms[|arms| - 1];
      var a := RunOf(u, idle, born, init);
      LooksKeepUp(born, init, d);
      LooksBeforeDeadline(u, idle, born, init, d);
      DeadlineAfter(idle, a, arm, Take(u, a.buf), Push(u, a.buf, TokenOf(a, arm)));
    }
  }

  /** With the timer looked at every d at least, a running actor's loader is never still
      spinning 30 s and d after the newest question, whatever arrives in between. */
  lemma LoaderReleasedInTime(u: Unicode, idle: nat, born: nat, arms: seq<Arm>, d: nat)
    requires Paced(born, arms, d) && RunOf(u, idle, born, arms).running
    requires EndsLoading(Statuses(RunOf(u, idle, born, arms).log))
    ensures LatestReading(born, arms) < IntakeOf(u, idle, born, arms).asked + ANSWER_TIMEOUT_MS + d
  {
    LoaderRun(u, idle, born, arms);
    NewestQuestionOnly(u, idle, born, arms);
    LooksKeepUp(born, arms, d);
    LooksBeforeDeadline(u, idle, born, arms, d);
  }
}
