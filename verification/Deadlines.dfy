/** When a device's actor leaves its loop, flushes, times out and releases the loader,
    stated on the arms that fired and their readings of the clock. */
module Deadlines {
  import opened Loader
  import opened Options
  import opened Sentences
  import opened Text
  import opened Tokens

  // ----- Steps, for whatever the buffer does -----

  /** When the newest question came, or the actor was born. */
  function NewestQuestion(born: nat, arms: seq<Arm>): nat {
    if arms == [] then born
    else match arms[|arms| - 1] case Question(_, now, _) => now case _ => NewestQuestion(born, arms[..|arms| - 1])
  }

  /** The arm ends the loop, asked being the time of the newest question. */
  predicate Ends(idle: nat, asked: nat, arm: Arm) {
    match arm
    case Cancelled => true
    case QuestionsClosed => true
    case TokensClosed => true
    case IdleElapsed(at) => asked + idle <= at
    case Question(_, _, routerGone) => routerGone
    case _ => false
  }

  lemma IdleStep(idle: nat, a: Actor, arm: Arm, taken: Option<string>, pushed: (string, Option<string>), asked: nat)
    requires a.running && a.idleDeadline == asked + idle
    ensures var b := React(idle, a, arm, taken, pushed);
            && (b.running <==> !Ends(idle, asked, arm))
            && b.idleDeadline == (if arm.Question? then arm.now else asked) + idle
  {
  }

  lemma Extended(u: Unicode, idle: nat, born: nat, arms: seq<Arm>, arm: Arm)
    ensures RunOf(u, idle, born, arms + [arm]) == Step(u, idle, RunOf(u, idle, born, arms), arm)
  {
    assert (arms + [arm])[..|arms|] == arms;
  }

  lemma StoppedForGood(u: Unicode, idle: nat, a: Actor, arm: Arm)
    ensures !a.running ==> Step(u, idle, a, arm) == a
  {
  }

  // ----- Leaving the loop -----

  lemma {:induction false} IdleRun(u: Unicode, idle: nat, born: nat, arms: seq<Arm>)
    requires RunOf(u, idle, born, arms).running
    ensures RunOf(u, idle, born, arms).idleDeadline == NewestQuestion(born, arms) + idle
  {
    if arms != [] {
      var init, arm := arms[..|arms| - 1], arms[|arms| - 1];
      var a := RunOf(u, idle, born, init);
      StoppedForGood(u, idle, a, arm);
      IdleRun(u, idle, born, init);
      IdleStep(idle, a, arm, Take(u, a.buf), Push(u, a.buf, TokenOf(a, arm)), NewestQuestion(born, init));
    }
  }

  /** A running actor leaves its loop exactly when it is cancelled, a channel closes, the
      router is gone, or the idle timer fires no less than the session's idle time after
      the newest question, or after its birth. */
  lemma LeavesExactly(u: Unicode, idle: nat, born: nat, arms: seq<Arm>, arm: Arm)
    requires RunOf(u, idle, born, arms).running
    ensures RunOf(u, idle, born, arms + [arm]).running <==> !Ends(idle, NewestQuestion(born, arms), arm)
  {
    var a := RunOf(u, idle, born, arms);
    Extended(u, idle, born, arms, arm);
    IdleRun(u, idle, born, arms);
    IdleStep(idle, a, arm, Take(u, a.buf), Push(u, a.buf, TokenOf(a, arm)), NewestQuestion(born, arms));
  }

  // ----- The idle flush -----

  predicate TakesToken(a: Actor, arm: Arm) {
    arm.Received? && a.inbox != [] && a.inbox[0].Token?
  }

  /** When the newest token was taken off the channel. */
  function NewestToken(u: Unicode, idle: nat, born: nat, arms: seq<Arm>): nat {
    if arms == [] then 0
    else
      var init, arm := arms[..|arms| - 1], arms[|arms| - 1];
      if TakesToken(RunOf(u, idle, born, init), arm) then arm.now else NewestToken(u, idle, born, init)
  }

  predicate Armed(a: Actor, newest: nat) {
    a.buf != "" ==> a.flushDeadline == Some(newest + 800)
  }

  lemma ArmedStep(idle: nat, a: Actor, arm: Arm, taken: Option<string>, pushed: (string, Option<string>), newest: nat)
    requires a.running && Armed(a, newest) && (pushed.1.Some? ==> pushed.0 == "")
    ensures Armed(React(idle, a, arm, taken, pushed), if TakesToken(a, arm) then arm.now else newest)
  {
  }

  lemma {:induction false} ArmedRun(u: Unicode, idle: nat, born: nat, arms: seq<Arm>)
    requires RunOf(u, idle, born, arms).running
    ensures Armed(RunOf(u, idle, born, arms), NewestToken(u, idle, born, arms))
  {
    if arms != [] {
      var init, arm := arms[..|arms| - 1], arms[|arms| - 1];
      var a := RunOf(u, idle, born, init);
      StoppedForGood(u, idle, a, arm);
      ArmedRun(u, idle, born, init);
      PushEmpties(u, a.buf, TokenOf(a, arm));
      ArmedStep(idle, a, arm, Take(u, a.buf), Push(u, a.buf, TokenOf(a, arm)), NewestToken(u, idle, born, init));
    }
  }

  predicate Spinning(a: Actor) {
    EndsLoading(Statuses(a.log))
  }

  /** The posts a text causes. */
  function Published(a: Actor, text: string): seq<Post> {
    if Spinning(a) then [Answer(text), Done] else [Answer(text)]
  }

  lemma FlushReact(idle: nat, a: Actor, at: nat, text: string, pushed: (string, Option<string>), newest: nat)
    requires a.running && LoaderInv(a) && a.flushDeadline == Some(newest + 800)
    ensures var b := React(idle, a, FlushElapsed(at), Some(text), pushed);
            if at < newest + 800 then b == a
            else b.buf == "" && b.running && b.log == a.log + Published(a, text)
  {
  }

  lemma FlushStep(u: Unicode, idle: nat, a: Actor, at: nat, newest: nat)
    requires a.running && LoaderInv(a) && Armed(a, newest) && Trim(u, a.buf) != ""
    ensures var b := Step(u, idle, a, FlushElapsed(at));
            if at < newest + 800 then b == a
            else b.buf == "" && b.running && b.log == a.log + Published(a, Trim(u, a.buf))
  {
    assert a.buf != "" by {
      assert Trim(u, "") == "";
    }
    FlushReact(idle, a, at, Trim(u, a.buf), Push(u, a.buf, ""), newest);
  }

  /** While there is text in the buffer, an idle flush publishes all of it exactly from
      800 ms after the newest token on, and before that does nothing. */
  lemma IdleFlushPublishes(u: Unicode, idle: nat, born: nat, arms: seq<Arm>, at: nat)
    requires RunOf(u, idle, born, arms).running && Trim(u, RunOf(u, idle, born, arms).buf) != ""
    ensures var a, b := RunOf(u, idle, born, arms), RunOf(u, idle, born, arms + [FlushElapsed(at)]);
            if at < NewestToken(u, idle, born, arms) + 800 then b == a
            else b.buf == "" && b.running && b.log == a.log + Published(a, Trim(u, a.buf))
  {
    Extended(u, idle, born, arms, FlushElapsed(at));
    LoaderRun(u, idle, born, arms);
    ArmedRun(u, idle, born, arms);
    FlushStep(u, idle, RunOf(u, idle, born, arms), at, NewestToken(u, idle, born, arms));
  }

  // ----- The answer timeout -----

  lemma {:induction false} AskedIsNewest(u: Unicode, idle: nat, born: nat, arms: seq<Arm>)
    requires RunOf(u, idle, born, arms).running
    ensures IntakeOf(u, idle, born, arms).questions != [] ==>
              IntakeOf(u, idle, born, arms).asked == NewestQuestion(born, arms)
  {
    if arms != [] {
      StoppedForGood(u, idle, RunOf(u, idle, born, arms[..|arms| - 1]), arms[|arms| - 1]);
      AskedIsNewest(u, idle, born, arms[..|arms| - 1]);
    }
  }

  lemma TimeoutReact(idle: nat, a: Actor, at: nat, taken: Option<string>, pushed: (string, Option<string>), asked: nat)
    requires a.running && LoaderInv(a) && (a.answerDeadline.Some? ==> a.answerDeadline.value.1 == asked + 30_000)
    ensures React(idle, a, AnswerElapsed(at), taken, pushed).log ==
            a.log + if Spinning(a) && asked + 30_000 <= at then [Done] else []
  {
  }

  lemma {:induction false} SpinningHasAsked(log: seq<Post>)
    ensures EndsLoading(Statuses(log)) ==> Loadings(log) > 0
  {
    if log != [] {
      SpinningHasAsked(log[..|log| - 1]);
    }
  }

  /** The answer timer releases the loader exactly if it spins and 30 s have passed since
      the newest question. */
  lemma TimeoutReleases(u: Unicode, idle: nat, born: nat, arms: seq<Arm>, at: nat)
    requires RunOf(u, idle, born, arms).running
    ensures var a := RunOf(u, idle, born, arms);
            RunOf(u, idle, born, arms + [AnswerElapsed(at)]).log ==
            a.log + if Spinning(a) && NewestQuestion(born, arms) + 30_000 <= at then [Done] else []
  {
    var a := RunOf(u, idle, born, arms);
    Extended(u, idle, born, arms, AnswerElapsed(at));
    LoaderRun(u, idle, born, arms);
    NewestQuestionOnly(u, idle, born, arms);
    AskedIsNewest(u, idle, born, arms);
    SpinningHasAsked(a.log);
    TimeoutReact(idle, a, at, Take(u, a.buf), Push(u, a.buf, ""), NewestQuestion(born, arms));
  }

  // ----- The end of an answer -----

  lemma EndReact(idle: nat, a: Actor, now: nat, taken: Option<string>, pushed: (string, Option<string>))
    requires a.running && LoaderInv(a) && a.inbox != [] && a.inbox[0].EndOfAnswer?
    ensures var b := React(idle, a, Received(now), taken, pushed);
            && b.buf == "" && b.inbox == a.inbox[1..]
            && b.log == a.log + (if taken.Some? then [Answer(taken.value)] else []) + if Spinning(a) then [Done] else []
  {
  }

  /** The end of an answer publishes the text still held, and a loader that still spins is
      released, text or not. */
  lemma AnswerEndReleases(u: Unicode, idle: nat, born: nat, arms: seq<Arm>, now: nat)
    requires var a := RunOf(u, idle, born, arms); a.running && a.inbox != [] && a.inbox[0].EndOfAnswer?
    ensures var a, b := RunOf(u, idle, born, arms), RunOf(u, idle, born, arms + [Received(now)]);
            && b.buf == "" && b.inbox == a.inbox[1..]
            && b.log == a.log + (if Trim(u, a.buf) != "" then [Answer(Trim(u, a.buf))] else [])
                              + if Spinning(a) then [Done] else []
  {
    var a := RunOf(u, idle, born, arms);
    Extended(u, idle, born, arms, Received(now));
    LoaderRun(u, idle, born, arms);
    EndReact(idle, a, now, Take(u, a.buf), Push(u, a.buf, TokenOf(a, Received(now))));
  }

  // ----- What is held back -----

  lemma HeldStep(u: Unicode, idle: nat, a: Actor, arm: Arm, taken: Option<string>, pushed: (string, Option<string>))
    requires Unfinished(u, a.buf) && Unfinished(u, pushed.0)
    ensures Unfinished(u, React(idle, a, arm, taken, pushed).buf)
  {
  }

  /** In every run the actor holds back no finished sentence and no 100 bytes of text. */
  lemma {:induction false} HeldIsUnfinished(u: Unicode, idle: nat, born: nat, arms: seq<Arm>)
    ensures Unfinished(u, RunOf(u, idle, born, arms).buf)
  {
    if arms != [] {
      var init, arm := arms[..|arms| - 1], arms[|arms| - 1];
      var a := RunOf(u, idle, born, init);
      HeldIsUnfinished(u, idle, born, init);
      PushHoldsBack(u, a.buf, TokenOf(a, arm));
      HeldStep(u, idle, a, arm, Take(u, a.buf), Push(u, a.buf, TokenOf(a, arm)));
    }
  }
}
