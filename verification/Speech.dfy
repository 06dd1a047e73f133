/** What the synthesis stage sends on, over whole runs: which audio of which synthesis,
    which text after a barge-in, and when an idle flush speaks. */
module Speech {
  import opened Ints
  import opened Options
  import opened Sentences
  import S = Sink
  import opened Text
  import opened Tokens
  import opened Tts

  // ----- One synthesis -----

  predicate Stops(item: Item) {
    item.StreamError? || item.BargedIn?
  }

  /** The stream was relayed up to item n: to its end, or to its first error or barge-in. */
  predicate RelayedTo(items: seq<Item>, n: nat) {
    && n <= |items| && (forall i :: 0 <= i < n ==> !Stops(items[i]))
    && (n < |items| ==> Stops(items[n]))
  }

  function AudioIn(items: seq<Item>): seq<seq<u8>> {
    if items == [] then []
    else AudioIn(items[..|items| - 1]) + match items[|items| - 1] case Piece(b) => [b] case _ => []
  }

  function Chunked(audio: seq<seq<u8>>): (r: seq<S.Msg>)
    ensures |r| == |audio| && forall i :: 0 <= i < |r| ==> r[i] == S.Chunk(audio[i])
  {
    seq(|audio|, i requires 0 <= i < |audio| => S.Chunk(audio[i]))
  }

  function RelayEnd(items: seq<Item>): (n: nat)
    ensures RelayedTo(items, n)
    decreases |items|
  {
    if items == [] || Stops(items[0]) then 0 else 1 + RelayEnd(items[1..])
  }

  lemma {:induction false} AudioCons(item: Item, items: seq<Item>)
    ensures AudioIn([item] + items) == AudioIn([item]) + AudioIn(items)
  {
    if items == [] {
      assert [item] + items == [item];
    } else {
      var init := items[..|items| - 1];
      AudioCons(item, init);
      assert ([item] + items)[..|items|] == [item] + init;
    }
  }

  lemma AudioOne(item: Item)
    ensures AudioIn([item]) == match item case Piece(b) => [b] case _ => []
  {
    assert [item][..0] == [];
  }

  lemma {:induction false} PiecesSpelled(items: seq<Item>, n: nat)
    requires RelayedTo(items, n)
    ensures Pieces(items) == Chunked(AudioIn(items[..n]))
    decreases |items|
  {
    if n != 0 {
      PiecesSpelled(items[1..], n - 1);
      assert items[..n] == [items[0]] + items[1..][..n - 1];
      AudioCons(items[0], items[1..][..n - 1]);
      AudioOne(items[0]);
    }
  }

  /** The audio of one synthesis that may be heard. */
  function Audible(s: Synthesis): seq<seq<u8>> {
    if s.Failed? then [] else AudioIn(s.items[..RelayEnd(s.items)])
  }

  lemma {:induction false} ChunksOfChunked(audio: seq<seq<u8>>)
    ensures S.ChunksOf(Chunked(audio)) == audio
  {
    if audio != [] {
      ChunksOfChunked(audio[..|audio| - 1]);
      assert Chunked(audio)[..|audio| - 1] == Chunked(audio[..|audio| - 1]);
    }
  }

  /** A failed synthesis sends nothing. Any other sends its format, then exactly the audio
      that came before the first error or barge-in, in order. */
  lemma FlushRelaysUntilStopped(s: Synthesis)
    ensures s.Failed? ==> Speak(s) == []
    ensures s.Stream? ==>
              exists n: nat :: RelayedTo(s.items, n)
                && Speak(s) == [S.Declare(s.format)] + Chunked(AudioIn(s.items[..n]))
    ensures S.ChunksOf(Speak(s)) == Audible(s)
  {
    if s.Stream? {
      var n := RelayEnd(s.items);
      PiecesSpelled(s.items, n);
      ChunksOfAppend([S.Declare(s.format)], Chunked(AudioIn(s.items[..n])));
      ChunksOfChunked(AudioIn(s.items[..n]));
      assert [S.Declare(s.format)][..0] == [];
    }
  }

  // ----- Whole runs -----

  /** What the texts spoken may let be heard. */
  function AudibleIn(acts: seq<Act>): seq<seq<u8>> {
    if acts == [] then []
    else
      AudibleIn(acts[..|acts| - 1]) +
      match acts[|acts| - 1] case Said(_, synthesis, _) => Audible(synthesis) case Passed => []
  }

  lemma {:induction false} SentAudio(acts: seq<Act>)
    requires WellSpoken(acts)
    ensures S.ChunksOf(SentBy(acts)) == AudibleIn(acts)
  {
    if acts != [] {
      var init, last := acts[..|acts| - 1], acts[|acts| - 1];
      SentAudio(init);
      ChunksOfAppend(SentBy(init), SentIn(last));
      if last.Said? {
        FlushRelaysUntilStopped(last.synthesis);
      } else {
        assert [S.AnswerEnd][..0] == [];
      }
    }
  }

  /** Over any run and with the sink: the satellite is played exactly the audio of the
      syntheses spoken, each up to its first error or barge-in, in order. */
  lemma AudioHeardIsAudible(u: Unicode, arms: seq<Arm>)
    ensures S.AudioOf(S.ConsumeAll(SentBy(RunOf(u, arms).acts)).out) == AudibleIn(RunOf(u, arms).acts)
  {
    AlwaysWellSpoken(u, arms);
    SentAudio(RunOf(u, arms).acts);
    S.AudioIsConserved(SentBy(RunOf(u, arms).acts));
  }

  function SynthesisOf(arm: Arm): Option<Synthesis> {
    match arm
    case FlushElapsed(_, syn) => Some(syn)
    case Received(_, _, syn) => Some(syn)
    case ChannelClosed(syn) => Some(syn)
    case _ => None
  }

  /** One arm speaks at most one text, with its own synthesis, and nothing is taken back. */
  lemma ArmsSpeakOnce(u: Unicode, s: Stage, arm: Arm)
    ensures s.acts <= Step(u, s, arm).acts
    ensures forall i :: |s.acts| <= i < |Step(u, s, arm).acts| && Step(u, s, arm).acts[i].Said? ==>
              i == |s.acts| && SynthesisOf(arm) == Some(Step(u, s, arm).acts[i].synthesis)
  {
  }

  // ----- The loop ends -----

  predicate Ends(arm: Arm) {
    arm.Cancelled? || arm.ChannelClosed?
  }

  lemma RunningStep(s: Stage, arm: Arm, taken: Option<string>, pushed: (string, Option<string>))
    ensures React(s, arm, taken, pushed).running <==> s.running && !Ends(arm)
  {
  }

  lemma Continues(u: Unicode, arms: seq<Arm>, arm: Arm)
    ensures RunOf(u, arms + [arm]).running <==> RunOf(u, arms).running && !Ends(arm)
  {
    var s := RunOf(u, arms);
    RunningStep(s, arm, Take(u, s.buf), Push(u, s.buf, TokenOf(arm)));
    assert (arms + [arm])[..|arms|] == arms;
  }

  lemma AllOfLonger(arms: seq<Arm>, arm: Arm)
    ensures (forall i :: 0 <= i < |arms + [arm]| ==> !Ends((arms + [arm])[i])) <==>
            (forall i :: 0 <= i < |arms| ==> !Ends(arms[i])) && !Ends(arm)
  {
    var all := arms + [arm];
    assert forall i :: 0 <= i < |arms| ==> all[i] == arms[i];
    assert all[|arms|] == arm;
  }

  /** What every arm that does not end the loop keeps, and every other undoes. */
  lemma {:induction false} NoneEnds(arms: seq<Arm>, kept: seq<Arm> -> bool)
    requires kept([])
    requires forall init, arm :: kept(init + [arm]) <==> kept(init) && !Ends(arm)
    ensures kept(arms) <==> forall i :: 0 <= i < |arms| ==> !Ends(arms[i])
  {
    if arms != [] {
      var init, arm := arms[..|arms| - 1], arms[|arms| - 1];
      NoneEnds(init, kept);
      AllOfLonger(init, arm);
      assert arms == init + [arm];
    }
  }

  ghost function StillRunning(u: Unicode): seq<Arm> -> bool {
    (arms: seq<Arm>) => RunOf(u, arms).running
  }

  /** Cancellation and the closed channel end the loop, and nothing else does. */
  lemma RunningIff(u: Unicode, arms: seq<Arm>)
    ensures RunOf(u, arms).running <==> forall i :: 0 <= i < |arms| ==> !Ends(arms[i])
  {
    var kept := StillRunning(u);
    forall init, arm ensures kept(init + [arm]) <==> kept(init) && !Ends(arm) {
      Continues(u, init, arm);
    }
    NoneEnds(arms, kept);
  }

  // ----- Barge-in -----

  /** The tokens received since the newest barge-in, answer by answer. */
  function HeardSince(arms: seq<Arm>): Heard {
    if arms == [] then Heard([], "")
    else
      var arm := arms[|arms| - 1];
      if arm == BusEvent(true) then Heard([], "") else Hear(HeardSince(arms[..|arms| - 1]), arm)
  }

  /** How much had been done at the newest barge-in. */
  function DoneBefore(u: Unicode, arms: seq<Arm>): (n: nat)
    ensures n <= |RunOf(u, arms).acts|
  {
    if arms == [] then 0
    else
      var init, arm := arms[..|arms| - 1], arms[|arms| - 1];
      ArmsSpeakOnce(u, RunOf(u, init), arm);
      if arm == BusEvent(true) then |RunOf(u, init).acts| else DoneBefore(u, init)
  }

  function ActsSince(u: Unicode, arms: seq<Arm>): seq<Act> {
    RunOf(u, arms).acts[DoneBefore(u, arms)..]
  }

  lemma LaterSaying(acts: seq<Act>, k: nat, more: seq<Act>)
    requires k <= |acts|
    ensures (acts + more)[k..] == acts[k..] + more
  {
  }

  /** What an arm does depends on what was done before only by adding to it. */
  lemma ReactLater(s: Stage, arm: Arm, taken: Option<string>, pushed: (string, Option<string>), k: nat)
    requires k <= |s.acts|
    ensures var s' := React(s, arm, taken, pushed);
            k <= |s'.acts| && React(s.(acts := s.acts[k..]), arm, taken, pushed) == s'.(acts := s'.acts[k..])
  {
    match arm
    case Cancelled =>
    case BusEvent(_) =>
    case FlushElapsed(_, syn) => LaterSaying(s.acts, k, SayOut(taken, syn));
    case ChannelClosed(syn) => LaterSaying(s.acts, k, SayOut(taken, syn));
    case Received(msg, _, syn) =>
      if msg.EndOfAnswer? {
        LaterSaying(s.acts, k, SayOut(taken, syn));
        LaterSaying(s.acts + SayOut(taken, syn), k, [Passed]);
      } else {
        LaterSaying(s.acts, k, SayOut(pushed.1, syn));
      }
  }

  ghost predicate SinceInv(u: Unicode, arms: seq<Arm>) {
    TextInv(u, HeardSince(arms), SpokenIn(ActsSince(u, arms)), RunOf(u, arms).buf)
  }

  lemma SinceStep(u: Unicode, init: seq<Arm>, arm: Arm)
    requires RunOf(u, init).running && SinceInv(u, init)
    ensures SinceInv(u, init + [arm])
  {
    var arms, s, k := init + [arm], RunOf(u, init), DoneBefore(u, init);
    assert arms[..|init|] == init;
    if arm == BusEvent(true) {
      assert ActsSince(u, arms) == [];
      KeptAtStart(u);
    } else {
      var later := s.(acts := s.acts[k..]);
      TextStep(u, later, HeardSince(init), arm);
      ReactLater(s, arm, Take(u, s.buf), Push(u, s.buf, TokenOf(arm)), k);
    }
  }

  lemma {:induction false} SinceRun(u: Unicode, arms: seq<Arm>)
    requires RunOf(u, arms).running
    ensures SinceInv(u, arms)
  {
    if arms == [] {
      KeptAtStart(u);
    } else {
      var init, arm := arms[..|arms| - 1], arms[|arms| - 1];
      assert arms == init + [arm];
      Continues(u, init, arm);
      SinceRun(u, init);
      SinceStep(u, init, arm);
    }
  }

  /** With barge-ins at any moments: what has been spoken since the newest one is, answer
      by answer, exactly what has been received since; no token received before it is
      ever spoken after it. */
  lemma BargeInDropsTheOldAnswer(u: Unicode, arms: seq<Arm>)
    requires RunOf(u, arms).running
    ensures AnswersMatch(u, HeardSince(arms).finished, SpokenIn(ActsSince(u, arms)).finished)
    ensures Kept(u, HeardSince(arms).current, SpokenIn(ActsSince(u, arms)).current, RunOf(u, arms).buf)
  {
    SinceRun(u, arms);
    TextInvMeans(u, HeardSince(arms), SpokenIn(ActsSince(u, arms)), RunOf(u, arms).buf);
  }

  // ----- Idle flush -----

  /** When the newest token was received. */
  function NewestToken(arms: seq<Arm>): nat {
    if arms == [] then 0
    else
      match arms[|arms| - 1]
      case Received(Token(_), now, _) => now
      case _ => NewestToken(arms[..|arms| - 1])
  }

  /** The buffer is empty, or the idle flush is armed for 800 ms after that token. */
  predicate Armed(s: Stage, newest: nat) {
    s.buf != "" ==> s.flushDeadline == Some(newest + 800)
  }

  lemma ArmedStep(s: Stage, arm: Arm, taken: Option<string>, pushed: (string, Option<string>), newest: nat)
    requires s.running && Armed(s, newest) && (pushed.1.Some? ==> pushed.0 == "")
    ensures Armed(React(s, arm, taken, pushed), if arm.Received? && arm.msg.Token? then arm.now else newest)
  {
  }

  lemma {:induction false} FlushArmed(u: Unicode, arms: seq<Arm>)
    requires RunOf(u, arms).running
    ensures Armed(RunOf(u, arms), NewestToken(arms))
  {
    if arms != [] {
      var s, arm := RunOf(u, arms[..|arms| - 1]), arms[|arms| - 1];
      FlushArmed(u, arms[..|arms| - 1]);
      PushEmpties(u, s.buf, TokenOf(arm));
      ArmedStep(s, arm, Take(u, s.buf), Push(u, s.buf, TokenOf(arm)), NewestToken(arms[..|arms| - 1]));
    }
  }

  lemma FlushReact(s: Stage, at: nat, syn: Synthesis, text: string, pushed: (string, Option<string>), newest: nat)
    requires s.running && s.flushDeadline == Some(newest + 800)
    ensures var s' := React(s, FlushElapsed(at, syn), Some(text), pushed);
            if at < newest + 800 then s' == s
            else s'.buf == "" && s'.running && TextsSaid(s'.acts) == TextsSaid(s.acts) + [text]
  {
    var said := Said(text, syn, Speak(syn));
    assert (s.acts + [said])[..|s.acts|] == s.acts;
  }

  lemma FlushStep(u: Unicode, s: Stage, at: nat, syn: Synthesis, newest: nat)
    requires s.running && Armed(s, newest) && Trim(u, s.buf) != ""
    ensures var s' := Step(u, s, FlushElapsed(at, syn));
            if at < newest + 800 then s' == s
            else s'.buf == "" && s'.running && TextsSaid(s'.acts) == TextsSaid(s.acts) + [Trim(u, s.buf)]
  {
    assert s.buf != "" by {
      assert Trim(u, "") == "";
    }
    FlushReact(s, at, syn, Trim(u, s.buf), Push(u, s.buf, ""), newest);
  }

  /** While there is text in the buffer, an idle flush speaks all of it exactly from 800 ms
      after the newest token on, and before that does nothing. */
  lemma IdleFlushSpeaks(u: Unicode, arms: seq<Arm>, at: nat, syn: Synthesis)
    requires RunOf(u, arms).running && Trim(u, RunOf(u, arms).buf) != ""
    ensures var s, s' := RunOf(u, arms), RunOf(u, arms + [FlushElapsed(at, syn)]);
            if at < NewestToken(arms) + 800 then s' == s
            else s'.buf == "" && s'.running && TextsSaid(s'.acts) == TextsSaid(s.acts) + [Trim(u, s.buf)]
  {
    FlushArmed(u, arms);
    FlushStep(u, RunOf(u, arms), at, syn, NewestToken(arms));
    assert (arms + [FlushElapsed(at, syn)])[..|arms|] == arms;
  }

  // ----- What is held back -----

  lemma HeldStep(u: Unicode, s: Stage, arm: Arm, taken: Option<string>, pushed: (string, Option<string>))
    requires Unfinished(u, s.buf) && Unfinished(u, pushed.0)
    ensures Unfinished(u, React(s, arm, taken, pushed).buf)
  {
  }

  /** In every run the actor holds back no finished sentence and no 100 bytes of text. */
  lemma {:induction false} HeldIsUnfinished(u: Unicode, arms: seq<Arm>)
    ensures Unfinished(u, RunOf(u, arms).buf)
  {
    if arms != [] {
      var s, arm := RunOf(u, arms[..|arms| - 1]), arms[|arms| - 1];
      HeldIsUnfinished(u, arms[..|arms| - 1]);
      PushHoldsBack(u, s.buf, TokenOf(arm));
      HeldStep(u, s, arm, Take(u, s.buf), Push(u, s.buf, TokenOf(arm)));
    }
  }
}
