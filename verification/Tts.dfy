/** The synthesis actor: aggregates tokens into texts, speaks each, and forwards
    every answer's end in band. */
module Tts {
  import opened Ints
  import opened Options
  import opened Sentences
  import opened Sink
  import opened Text
  import opened Tokens

  // ----- Speaking one text -----

  datatype Item = Piece(audio: seq<u8>) | StreamError | BargedIn | OtherEvent

  /** What the provider and the event bus do during one synthesize call. */
  datatype Synthesis = Failed | Stream(format: Format, items: seq<Item>)

  function Pieces(items: seq<Item>): seq<Msg>
    decreases |items|
  {
    if items == [] then []
    else
      match items[0]
      case Piece(b) => [Chunk(b)] + Pieces(items[1..])
      case OtherEvent => Pieces(items[1..])
      case StreamError => []
      case BargedIn => []
  }

  function Speak(s: Synthesis): seq<Msg> {
    if s.Failed? then [] else [Declare(s.format)] + Pieces(s.items)
  }

  /** What goes out on the event bus: the text about to be spoken, and each chunk
      with its number in the session. */
  datatype Announcement = TtsText(text: string) | TtsChunk(seqNo: nat, bytesLen: nat)

  /** The sequence number after some messages were sent. */
  function NumberAfter(sent: seq<Msg>, seqNo: nat): nat {
    if sent == [] then seqNo
    else
      var next := NumberAfter(sent[..|sent| - 1], seqNo);
      if sent[|sent| - 1].Chunk? then SaturatingNext32(next) else next
  }

  /** The events that go with them. */
  function ChunkEvents(sent: seq<Msg>, seqNo: nat): seq<Announcement> {
    if sent == [] then []
    else
      var init := sent[..|sent| - 1];
      match sent[|sent| - 1]
      case Chunk(audio) => ChunkEvents(init, seqNo) + [TtsChunk(NumberAfter(init, seqNo), |audio|)]
      case _ => ChunkEvents(init, seqNo)
  }

  lemma ChunkSnoc(sent: seq<Msg>, audio: seq<u8>, seqNo: nat)
    ensures NumberAfter(sent + [Chunk(audio)], seqNo) == SaturatingNext32(NumberAfter(sent, seqNo))
    ensures ChunkEvents(sent + [Chunk(audio)], seqNo) ==
            ChunkEvents(sent, seqNo) + [TtsChunk(NumberAfter(sent, seqNo), |audio|)]
  {
    assert (sent + [Chunk(audio)])[..|sent|] == sent;
  }

  /** sent is what is sent so far, with items from i on still to come. */
  predicate StillToSpeak(s: Synthesis, sent: seq<Msg>, i: nat)
    requires s.Stream? && i <= |s.items|
  {
    Speak(s) == sent + Pieces(s.items[i..])
  }

  lemma SpokenFurther(s: Synthesis, sent: seq<Msg>, i: nat)
    requires s.Stream? && i < |s.items| && StillToSpeak(s, sent, i)
    ensures s.items[i].Piece? ==> StillToSpeak(s, sent + [Chunk(s.items[i].audio)], i + 1)
    ensures s.items[i].OtherEvent? ==> StillToSpeak(s, sent, i + 1)
    ensures s.items[i].StreamError? || s.items[i].BargedIn? ==> Speak(s) == sent
  {
    var rest := s.items[i..];
    assert rest[0] == s.items[i] && rest[1..] == s.items[i + 1..];
    if s.items[i].Piece? {
      var more := Pieces(s.items[i + 1..]);
      assert sent + ([Chunk(s.items[i].audio)] + more) == sent + [Chunk(s.items[i].audio)] + more;
    }
  }

  predicate Announces(text: string, sent: seq<Msg>, seqNo: nat, events: seq<Announcement>, next: nat) {
    events == [TtsText(text)] + ChunkEvents(sent, seqNo) && next == NumberAfter(sent, seqNo)
  }

  lemma AnnouncedFurther(text: string, sent: seq<Msg>, seqNo: nat, events: seq<Announcement>, next: nat,
                         audio: seq<u8>)
    requires Announces(text, sent, seqNo, events, next)
    ensures Announces(text, sent + [Chunk(audio)], seqNo, events + [TtsChunk(next, |audio|)], SaturatingNext32(next))
  {
    ChunkSnoc(sent, audio, seqNo);
  }

  /** flush: announces the text, declares the format, then relays chunks until the
      stream ends, breaks or is barged in. */
  method Flush(text: string, s: Synthesis, seqNo: nat) returns (sent: seq<Msg>, events: seq<Announcement>, next: nat)
    ensures sent == Speak(s) && Announces(text, sent, seqNo, events, next)
  {
    sent, events, next := [], [TtsText(text)], seqNo;
    if s.Failed? {
      return;
    }
    sent := [Declare(s.format)];
    assert sent[..0] == [];
    for i := 0 to |s.items|
      invariant StillToSpeak(s, sent, i) && Announces(text, sent, seqNo, events, next)
    {
      SpokenFurther(s, sent, i);
      match s.items[i]
      case Piece(b) =>
        AnnouncedFurther(text, sent, seqNo, events, next, b);
        sent := sent + [Chunk(b)];
        events := events + [TtsChunk(next, |b|)];
        next := SaturatingNext32(next);
      case OtherEvent =>
      case StreamError => return;
      case BargedIn => return;
    }
  }

  // ----- The actor -----

  /** One select! arm that fired, with the reading of the clock and what a
      synthesize call made in that arm would do. */
  datatype Arm =
    | Cancelled
    | BusEvent(isBargeIn: bool)
    | FlushElapsed(at: nat, synthesis: Synthesis)
    | Received(msg: TtsMsg, now: nat, synthesis: Synthesis)
    | ChannelClosed(synthesis: Synthesis)

  /** What the actor did: spoke a text, or passed on the end of an answer. */
  datatype Act = Said(text: string, synthesis: Synthesis, sent: seq<Msg>) | Passed

  datatype Stage = Stage(buf: string, flushDeadline: Option<nat>, running: bool, acts: seq<Act>)

  const START := Stage("", None, true, [])

  /** What the actor has done, what it has put on the event bus, and the next chunk's number. */
  datatype Told = Told(acts: seq<Act>, events: seq<Announcement>, next: nat)

  function Telling(acts: seq<Act>): Told {
    if acts == [] then Told([], [], 0)
    else
      var t := Telling(acts[..|acts| - 1]);
      match acts[|acts| - 1]
      case Said(text, _, sent) =>
        Told(acts, t.events + [TtsText(text)] + ChunkEvents(sent, t.next), NumberAfter(sent, t.next))
      case Passed => Told(acts, t.events, t.next)
  }

  function SayOut(out: Option<string>, synthesis: Synthesis): seq<Act> {
    if out.None? then [] else [Said(out.value, synthesis, Speak(synthesis))]
  }

  function OnToken(s: Stage, pushed: (string, Option<string>), now: nat, synthesis: Synthesis): Stage {
    Stage(pushed.0, if pushed.1.Some? then None else Some(now + IDLE_FLUSH_MS), true,
          s.acts + SayOut(pushed.1, synthesis))
  }

  /** taken is what draining the buffer yields, pushed what pushing the arm's token does. */
  function React(s: Stage, arm: Arm, taken: Option<string>, pushed: (string, Option<string>)): Stage {
    if !s.running then s
    else
      match arm
      case Cancelled => s.(running := false)
      case BusEvent(isBargeIn) => if isBargeIn then s.(buf := "", flushDeadline := None) else s
      case FlushElapsed(at, syn) =>
        if s.flushDeadline.None? || at < s.flushDeadline.value then s
        else Stage("", None, true, s.acts + SayOut(taken, syn))
      case ChannelClosed(syn) => Stage("", s.flushDeadline, false, s.acts + SayOut(taken, syn))
      case Received(msg, now, syn) =>
        match msg
        case EndOfAnswer => Stage("", None, true, s.acts + SayOut(taken, syn) + [Passed])
        case Token(_) => OnToken(s, pushed, now, syn)
  }

  function TokenOf(arm: Arm): string {
    if arm.Received? && arm.msg.Token? then arm.msg.text else ""
  }

  function Step(u: Unicode, s: Stage, arm: Arm): Stage {
    React(s, arm, Take(u, s.buf), Push(u, s.buf, TokenOf(arm)))
  }

  function RunOf(u: Unicode, arms: seq<Arm>): Stage {
    if arms == [] then START else Step(u, RunOf(u, arms[..|arms| - 1]), arms[|arms| - 1])
  }

  lemma {:induction false} StoppedStays(u: Unicode, arms: seq<Arm>, n: nat)
    requires n <= |arms| && !RunOf(u, arms[..n]).running
    ensures RunOf(u, arms) == RunOf(u, arms[..n])
    decreases |arms| - n
  {
    if n == |arms| {
      assert arms[..n] == arms;
    } else {
      assert arms[..n + 1][..n] == arms[..n];
      StoppedStays(u, arms, n + 1);
    }
  }

  /** spawn_tts: the loop over whatever arms fire, in whatever order. */
  method RunTts(u: Unicode, arms: seq<Arm>) returns (told: Told)
    ensures told == Telling(RunOf(u, arms).acts)
  {
    var buf := new SentenceBuffer(u);
    var flushDeadline: Option<nat> := None;
    told := Told([], [], 0);
    for i := 0 to |arms|
      invariant fresh(buf) && buf.u == u
      invariant told == Telling(told.acts)
      invariant Stage(buf.buf, flushDeadline, true, told.acts) == RunOf(u, arms[..i])
    {
      assert arms[..i + 1][..i] == arms[..i];
      var running;
      running, flushDeadline, told := Fire(buf, flushDeadline, told, arms[i]);
      if !running {
        StoppedStays(u, arms, i + 1);
        return;
      }
    }
    assert arms[..|arms|] == arms;
  }

  /** The body of one arm; running is false when it breaks the loop. */
  method Fire(buf: SentenceBuffer, deadline: Option<nat>, before: Told, arm: Arm)
    returns (running: bool, flushDeadline: Option<nat>, told: Told)
    requires before == Telling(before.acts)
    modifies buf
    ensures told == Telling(told.acts)
    ensures Stage(buf.buf, flushDeadline, running, told.acts) ==
            Step(buf.u, Stage(old(buf.buf), deadline, true, before.acts), arm)
  {
    running, flushDeadline, told := true, deadline, before;
    match arm
    case Cancelled => running := false;
    case BusEvent(isBargeIn) =>
      if isBargeIn {
        buf.Clear();
        flushDeadline := None;
      }
    case FlushElapsed(at, synthesis) =>
      if deadline.Some? && deadline.value <= at {
        flushDeadline := None;
        told := SayRest(buf, synthesis, before);
      }
    case ChannelClosed(synthesis) =>
      told := SayRest(buf, synthesis, before);
      running := false;
    case Received(msg, now, synthesis) =>
      flushDeadline, told := OnMessage(buf, msg, now, synthesis, before, deadline);
  }

  method OnMessage(buf: SentenceBuffer, msg: TtsMsg, now: nat, synthesis: Synthesis, before: Told,
                   ghost oldDeadline: Option<nat>)
    returns (flushDeadline: Option<nat>, told: Told)
    requires before == Telling(before.acts)
    modifies buf
    ensures told == Telling(told.acts)
    ensures msg.EndOfAnswer? ==>
              Stage(buf.buf, flushDeadline, true, told.acts) ==
              Stage("", None, true, before.acts + SayOut(Take(buf.u, old(buf.buf)), synthesis) + [Passed])
    ensures msg.Token? ==>
              Stage(buf.buf, flushDeadline, true, told.acts) ==
              OnToken(Stage(old(buf.buf), oldDeadline, true, before.acts), Push(buf.u, old(buf.buf), msg.text),
                      now, synthesis)
  {
    if msg.EndOfAnswer? {
      told := SayRest(buf, synthesis, before);
      assert (told.acts + [Passed])[..|told.acts|] == told.acts;
      return None, Told(told.acts + [Passed], told.events, told.next);
    }
    var out := buf.PushToken(msg.text);
    told := Say(out, synthesis, before);
    return if out.Some? then None else Some(now + IDLE_FLUSH_MS), told;
  }

  method SayRest(buf: SentenceBuffer, synthesis: Synthesis, before: Told) returns (told: Told)
    requires before == Telling(before.acts)
    modifies buf
    ensures buf.buf == "" && told == Telling(told.acts)
    ensures told.acts == before.acts + SayOut(Take(buf.u, old(buf.buf)), synthesis)
  {
    var out := buf.TakeAll();
    told := Say(out, synthesis, before);
  }

  method Say(out: Option<string>, synthesis: Synthesis, before: Told) returns (told: Told)
    requires before == Telling(before.acts)
    ensures told == Telling(told.acts) && told.acts == before.acts + SayOut(out, synthesis)
  {
    if out.None? {
      return before;
    }
    var sent, events, next := Flush(out.value, synthesis, before.next);
    told := Told(before.acts + [Said(out.value, synthesis, sent)], before.events + events, next);
    assert told.acts[..|before.acts|] == before.acts;
    assert before.events + events == before.events + [TtsText(out.value)] + ChunkEvents(sent, before.next);
  }

  // ----- What reaches the sink -----

  function SentIn(act: Act): seq<Msg> {
    match act case Said(_, _, sent) => sent case Passed => [AnswerEnd]
  }

  function SentBy(acts: seq<Act>): seq<Msg> {
    if acts == [] then []
    else
      SentBy(acts[..|acts| - 1]) + SentIn(acts[|acts| - 1])
  }

  function IsEnd(arm: Arm): nat {
    if arm.Received? && arm.msg.EndOfAnswer? then 1 else 0
  }

  function EndsReceived(arms: seq<Arm>): nat {
    if arms == [] then 0
    else EndsReceived(arms[..|arms| - 1]) + IsEnd(arms[|arms| - 1])
  }

  ghost predicate WellSpoken(acts: seq<Act>) {
    forall i :: 0 <= i < |acts| && acts[i].Said? ==> acts[i].sent == Speak(acts[i].synthesis)
  }

  lemma WellSpokenSaying(acts: seq<Act>, out: Option<string>, syn: Synthesis)
    requires WellSpoken(acts)
    ensures WellSpoken(acts + SayOut(out, syn)) && WellSpoken(acts + SayOut(out, syn) + [Passed])
  {
  }

  lemma ReactWellSpoken(s: Stage, arm: Arm, taken: Option<string>, pushed: (string, Option<string>))
    requires WellSpoken(s.acts)
    ensures WellSpoken(React(s, arm, taken, pushed).acts)
  {
    match arm
    case Cancelled =>
    case BusEvent(_) =>
    case FlushElapsed(_, syn) => WellSpokenSaying(s.acts, taken, syn);
    case ChannelClosed(syn) => WellSpokenSaying(s.acts, taken, syn);
    case Received(msg, now, syn) => WellSpokenSaying(s.acts, if msg.EndOfAnswer? then taken else pushed.1, syn);
  }

  lemma {:induction false} AlwaysWellSpoken(u: Unicode, arms: seq<Arm>)
    ensures WellSpoken(RunOf(u, arms).acts)
  {
    if arms != [] {
      var s, arm := RunOf(u, arms[..|arms| - 1]), arms[|arms| - 1];
      AlwaysWellSpoken(u, arms[..|arms| - 1]);
      ReactWellSpoken(s, arm, Take(u, s.buf), Push(u, s.buf, TokenOf(arm)));
    }
  }

  lemma {:induction false} PiecesAreChunks(items: seq<Item>)
    ensures forall i :: 0 <= i < |Pieces(items)| ==> Pieces(items)[i].Chunk?
    decreases |items|
  {
    if items != [] {
      PiecesAreChunks(items[1..]);
    }
  }

  lemma {:induction false} EndsOfChunks(msgs: seq<Msg>)
    requires forall i :: 0 <= i < |msgs| ==> !msgs[i].AnswerEnd?
    ensures Ends(msgs) == 0
  {
    if msgs != [] {
      EndsOfChunks(msgs[..|msgs| - 1]);
    }
  }

  lemma {:induction false} EndsAppend(a: seq<Msg>, b: seq<Msg>)
    ensures Ends(a + b) == Ends(a) + Ends(b)
  {
    if b == [] {
      assert a + b == a;
    } else {
      EndsAppend(a, b[..|b| - 1]);
      assert (a + b)[..|a + b| - 1] == a + b[..|b| - 1];
    }
  }

  function Passes(acts: seq<Act>): nat {
    if acts == [] then 0 else Passes(acts[..|acts| - 1]) + if acts[|acts| - 1].Passed? then 1 else 0
  }

  lemma SpeakIsDeclared(s: Synthesis)
    ensures DeclaredFirst(Speak(s)) && Ends(Speak(s)) == 0
  {
    if s.Stream? {
      PiecesAreChunks(s.items);
      forall i | 0 <= i < |Speak(s)| && Speak(s)[i].Chunk? ensures Declares(Speak(s)[..i]) {
        assert Speak(s)[..i][0].Declare?;
      }
    }
    EndsOfChunks(Speak(s));
  }

  lemma SentByOne(act: Act)
    requires act.Said? ==> act.sent == Speak(act.synthesis)
    ensures Ends(SentIn(act)) == (if act.Passed? then 1 else 0) && DeclaredFirst(SentIn(act))
  {
    if act.Said? {
      SpeakIsDeclared(act.synthesis);
    } else {
      assert [AnswerEnd][..0] == [];
    }
  }

  lemma DeclaredAppend(a: seq<Msg>, b: seq<Msg>)
    requires DeclaredFirst(a) && DeclaredFirst(b)
    ensures DeclaredFirst(a + b)
  {
    var ab := a + b;
    forall i | 0 <= i < |ab| && ab[i].Chunk? ensures Declares(ab[..i]) {
      if i < |a| {
        assert ab[..i] == a[..i];
      } else {
        var j :| 0 <= j < i - |a| && b[..i - |a|][j].Declare?;
        assert ab[..i][|a| + j].Declare?;
      }
    }
  }

  /** The stream to the sink carries exactly one answer end for each one passed on,
      and every chunk in it comes after a declaration. */
  lemma {:induction false} SentStream(acts: seq<Act>)
    requires WellSpoken(acts)
    ensures Ends(SentBy(acts)) == Passes(acts)
    ensures DeclaredFirst(SentBy(acts))
  {
    if acts != [] {
      var init, last := acts[..|acts| - 1], acts[|acts| - 1];
      SentStream(init);
      SentByOne(last);
      EndsAppend(SentBy(init), SentIn(last));
      DeclaredAppend(SentBy(init), SentIn(last));
    }
  }

  lemma PassesAppend(a: seq<Act>, b: seq<Act>)
    requires forall i :: 0 <= i < |b| ==> b[i].Said?
    ensures Passes(a + b) == Passes(a)
  {
    if b == [] {
      assert a + b == a;
    } else {
      PassesAppend(a, b[..|b| - 1]);
      assert (a + b)[..|a + b| - 1] == a + b[..|b| - 1];
    }
  }

  lemma PassesSaying(acts: seq<Act>, out: Option<string>, syn: Synthesis)
    ensures Passes(acts + SayOut(out, syn)) == Passes(acts)
    ensures Passes(acts + SayOut(out, syn) + [Passed]) == Passes(acts) + 1
  {
    var said := acts + SayOut(out, syn);
    PassesAppend(acts, SayOut(out, syn));
    assert (said + [Passed])[..|said|] == said;
  }

  lemma ReactPasses(s: Stage, arm: Arm, taken: Option<string>, pushed: (string, Option<string>))
    requires s.running
    ensures Passes(React(s, arm, taken, pushed).acts) == Passes(s.acts) + IsEnd(arm)
  {
    match arm
    case Cancelled =>
    case BusEvent(_) =>
    case FlushElapsed(_, syn) => PassesSaying(s.acts, taken, syn);
    case ChannelClosed(syn) => PassesSaying(s.acts, taken, syn);
    case Received(msg, now, syn) => PassesSaying(s.acts, if msg.EndOfAnswer? then taken else pushed.1, syn);
  }

  /** While it runs, the actor passes on every answer end it receives, barge-ins
      and failed syntheses included. */
  lemma {:induction false} EveryEndIsPassedOn(u: Unicode, arms: seq<Arm>)
    requires RunOf(u, arms).running
    ensures Passes(RunOf(u, arms).acts) == EndsReceived(arms)
  {
    if arms != [] {
      var s, arm := RunOf(u, arms[..|arms| - 1]), arms[|arms| - 1];
      EveryEndIsPassedOn(u, arms[..|arms| - 1]);
      ReactPasses(s, arm, Take(u, s.buf), Push(u, s.buf, TokenOf(arm)));
    }
  }

  /** TTS and sink composed over a FIFO channel, of which the sink may have consumed
      any prefix: at most one meta, and never a chunk published before it. */
  lemma MetaPrecedesEveryChunk(u: Unicode, arms: seq<Arm>, consumed: seq<Msg>)
    requires consumed <= SentBy(RunOf(u, arms).acts)
    ensures MetaAtMostOnce(ConsumeAll(consumed).out) && AudioAfterMeta(ConsumeAll(consumed).out)
  {
    AlwaysWellSpoken(u, arms);
    var all := SentBy(RunOf(u, arms).acts);
    SentStream(RunOf(u, arms).acts);
    forall i | 0 <= i < |consumed| && consumed[i].Chunk? ensures Declares(consumed[..i]) {
      assert all[i].Chunk? && all[..i] == consumed[..i];
    }
    MetaBeforeAudio(consumed);
  }

  /** Once the sink has consumed everything, it has published one done for every
      answer end the running synthesis stage received. */
  lemma DonePerReceivedEnd(u: Unicode, arms: seq<Arm>)
    requires RunOf(u, arms).running
    ensures Dones(ConsumeAll(SentBy(RunOf(u, arms).acts)).out) == EndsReceived(arms)
  {
    AlwaysWellSpoken(u, arms);
    SentStream(RunOf(u, arms).acts);
    EveryEndIsPassedOn(u, arms);
    LiveDones(SentBy(RunOf(u, arms).acts));
  }

  // ----- The event bus -----

  function ChunksTold(events: seq<Announcement>): seq<Announcement> {
    if events == [] then []
    else
      var e := events[|events| - 1];
      ChunksTold(events[..|events| - 1]) + if e.TtsChunk? then [e] else []
  }

  function TextsTold(events: seq<Announcement>): seq<string> {
    if events == [] then []
    else TextsTold(events[..|events| - 1]) + match events[|events| - 1] case TtsText(t) => [t] case _ => []
  }

  function TextsSaid(acts: seq<Act>): seq<string> {
    if acts == [] then []
    else TextsSaid(acts[..|acts| - 1]) + match acts[|acts| - 1] case Said(t, _, _) => [t] case Passed => []
  }

  function Number(k: nat): nat {
    if k < U32_MAX then k else U32_MAX
  }

  /** One event for each chunk: its number, counting from the given one up to the
      last u32, and its length. */
  function Numbered(audio: seq<seq<u8>>, first: nat): (r: seq<Announcement>)
    ensures |r| == |audio|
    ensures forall i :: 0 <= i < |r| ==> r[i].TtsChunk?
  {
    seq(|audio|, i requires 0 <= i < |audio| => TtsChunk(Number(first + i), |audio[i]|))
  }

  lemma {:induction false} ToldAppend(a: seq<Announcement>, b: seq<Announcement>)
    ensures ChunksTold(a + b) == ChunksTold(a) + ChunksTold(b) && TextsTold(a + b) == TextsTold(a) + TextsTold(b)
  {
    if b == [] {
      assert a + b == a;
    } else {
      ToldAppend(a, b[..|b| - 1]);
      assert (a + b)[..|a + b| - 1] == a + b[..|b| - 1];
    }
  }

  lemma {:induction false} ChunksOfAppend(a: seq<Msg>, b: seq<Msg>)
    ensures ChunksOf(a + b) == ChunksOf(a) + ChunksOf(b)
  {
    if b == [] {
      assert a + b == a;
    } else {
      ChunksOfAppend(a, b[..|b| - 1]);
      assert (a + b)[..|a + b| - 1] == a + b[..|b| - 1];
    }
  }

  lemma NumberedAppend(a: seq<seq<u8>>, b: seq<seq<u8>>, first: nat)
    ensures Numbered(a + b, first) == Numbered(a, first) + Numbered(b, first + |a|)
  {
  }

  lemma {:induction false} NumberCounts(sent: seq<Msg>, k: nat)
    ensures NumberAfter(sent, Number(k)) == Number(k + |ChunksOf(sent)|)
  {
    if sent != [] {
      NumberCounts(sent[..|sent| - 1], k);
    }
  }

  lemma {:induction false} ChunkEventsNumber(sent: seq<Msg>, k: nat)
    ensures ChunkEvents(sent, Number(k)) == Numbered(ChunksOf(sent), k)
  {
    if sent != [] {
      var init, last := sent[..|sent| - 1], sent[|sent| - 1];
      ChunkEventsNumber(init, k);
      NumberCounts(init, k);
      if last.Chunk? {
        NumberedAppend(ChunksOf(init), [last.audio], k);
        assert Numbered([last.audio], k + |ChunksOf(init)|) == [TtsChunk(Number(k + |ChunksOf(init)|), |last.audio|)];
      }
    }
  }

  lemma {:induction false} NumberedTold(events: seq<Announcement>)
    requires forall i :: 0 <= i < |events| ==> events[i].TtsChunk?
    ensures ChunksTold(events) == events && TextsTold(events) == []
  {
    if events != [] {
      NumberedTold(events[..|events| - 1]);
    }
  }

  lemma TextTold(before: seq<Announcement>, text: string)
    ensures ChunksTold(before + [TtsText(text)]) == ChunksTold(before)
    ensures TextsTold(before + [TtsText(text)]) == TextsTold(before) + [text]
  {
    assert (before + [TtsText(text)])[..|before|] == before;
  }

  /** What one more text adds to what the bus has heard. */
  lemma SaidTold(before: seq<Announcement>, text: string, events: seq<Announcement>)
    requires forall i :: 0 <= i < |events| ==> events[i].TtsChunk?
    ensures ChunksTold(before + [TtsText(text)] + events) == ChunksTold(before) + events
    ensures TextsTold(before + [TtsText(text)] + events) == TextsTold(before) + [text]
  {
    TextTold(before, text);
    NumberedTold(events);
    ToldAppend(before + [TtsText(text)], events);
  }

  /** These texts and chunks are what the bus has heard about. */
  predicate Tells(events: seq<Announcement>, next: nat, texts: seq<string>, audio: seq<seq<u8>>) {
    TextsTold(events) == texts && ChunksTold(events) == Numbered(audio, 0) && next == Number(|audio|)
  }

  lemma MoreTells(events: seq<Announcement>, next: nat, texts: seq<string>, audio: seq<seq<u8>>, text: string,
                  more: seq<seq<u8>>)
    requires Tells(events, next, texts, audio)
    ensures Tells(events + [TtsText(text)] + Numbered(more, |audio|), Number(|audio| + |more|),
                  texts + [text], audio + more)
  {
    SaidTold(events, text, Numbered(more, |audio|));
    NumberedAppend(audio, more, 0);
  }

  lemma SaidTells(events: seq<Announcement>, next: nat, texts: seq<string>, audio: seq<seq<u8>>, text: string,
                  sent: seq<Msg>)
    requires Tells(events, next, texts, audio)
    ensures Tells(events + [TtsText(text)] + ChunkEvents(sent, next), NumberAfter(sent, next),
                  texts + [text], audio + ChunksOf(sent))
  {
    ChunkEventsNumber(sent, |audio|);
    NumberCounts(sent, |audio|);
    MoreTells(events, next, texts, audio, text, ChunksOf(sent));
  }

  /** The event bus hears every spoken text in order, and of every chunk sent to the
      sink, in order, its length and its number in the session. */
  lemma {:induction false} EventsNumberChunks(acts: seq<Act>)
    ensures var t := Telling(acts); Tells(t.events, t.next, TextsSaid(acts), ChunksOf(SentBy(acts)))
  {
    if acts != [] {
      var init, last := acts[..|acts| - 1], acts[|acts| - 1];
      EventsNumberChunks(init);
      ChunksOfAppend(SentBy(init), SentIn(last));
      if last.Said? {
        SaidTells(Telling(init).events, Telling(init).next, TextsSaid(init), ChunksOf(SentBy(init)), last.text,
                  last.sent);
      } else {
        assert [AnswerEnd][..0] == [];
      }
    }
  }

  // ----- Answer text conservation -----

  ghost predicate NoBargeIn(arms: seq<Arm>) {
    forall i :: 0 <= i < |arms| ==> arms[i] != BusEvent(true)
  }

  /** The tokens of each finished answer, joined, and of the unfinished one. */
  datatype Heard = Heard(finished: seq<string>, current: string)

  function Hear(h: Heard, arm: Arm): Heard {
    if !arm.Received? then h
    else if arm.msg.EndOfAnswer? then Heard(h.finished + [h.current], "")
    else Heard(h.finished, h.current + arm.msg.text)
  }

  function HeardIn(arms: seq<Arm>): Heard {
    if arms == [] then Heard([], "") else Hear(HeardIn(arms[..|arms| - 1]), arms[|arms| - 1])
  }

  /** The texts spoken for each finished answer, and for the unfinished one. */
  datatype Voiced = Voiced(finished: seq<seq<string>>, current: seq<string>)

  function SpokenIn(acts: seq<Act>): Voiced {
    if acts == [] then Voiced([], [])
    else
      var s := SpokenIn(acts[..|acts| - 1]);
      match acts[|acts| - 1]
      case Said(t, _, _) => Voiced(s.finished, s.current + [t])
      case Passed => Voiced(s.finished + [s.current], [])
  }

  lemma SpokenAfterSaying(acts: seq<Act>, out: Option<string>, syn: Synthesis)
    ensures SpokenIn(acts + SayOut(out, syn)) == Voiced(SpokenIn(acts).finished, SpokenIn(acts).current + Released(out))
  {
    assert acts + [] == acts && SpokenIn(acts).current + [] == SpokenIn(acts).current;
    if out.Some? {
      assert (acts + SayOut(out, syn))[..|acts|] == acts;
    }
  }

  lemma SpokenAfterPass(acts: seq<Act>)
    ensures SpokenIn(acts + [Passed]) == Voiced(SpokenIn(acts).finished + [SpokenIn(acts).current], [])
  {
    assert (acts + [Passed])[..|acts|] == acts;
  }

  ghost predicate VoiceInv(kept: Keeping, h: Heard, sp: Voiced, buf: string) {
    && |h.finished| == |sp.finished|
    && (forall k :: 0 <= k < |h.finished| ==> kept(h.finished[k], sp.finished[k], ""))
    && kept(h.current, sp.current, buf)
  }

  lemma VoiceEnd(kept: Keeping, h: Heard, sp: Voiced)
    requires VoiceInv(kept, h, sp, "") && kept("", [], "")
    ensures VoiceInv(kept, Heard(h.finished + [h.current], ""), Voiced(sp.finished + [sp.current], []), "")
  {
  }

  /** One arm, for any relation that draining and pushing the buffer maintain. */
  lemma VoiceReact(kept: Keeping, s: Stage, h: Heard, arm: Arm, taken: Option<string>, pushed: (string, Option<string>))
    requires s.running && arm != BusEvent(true) && VoiceInv(kept, h, SpokenIn(s.acts), s.buf)
    requires kept("", [], "")
    requires kept(h.current, SpokenIn(s.acts).current + Released(taken), "")
    requires kept(h.current + TokenOf(arm), SpokenIn(s.acts).current + Released(pushed.1), pushed.0)
    ensures VoiceInv(kept, Hear(h, arm), SpokenIn(React(s, arm, taken, pushed).acts), React(s, arm, taken, pushed).buf)
  {
    match arm
    case Cancelled =>
    case BusEvent(_) =>
    case FlushElapsed(_, syn) => SpokenAfterSaying(s.acts, taken, syn);
    case ChannelClosed(syn) => SpokenAfterSaying(s.acts, taken, syn);
    case Received(msg, now, syn) =>
      if msg.EndOfAnswer? {
        var said := s.acts + SayOut(taken, syn);
        SpokenAfterSaying(s.acts, taken, syn);
        SpokenAfterPass(said);
        VoiceEnd(kept, h, SpokenIn(said));
      } else {
        SpokenAfterSaying(s.acts, pushed.1, syn);
      }
  }

  ghost predicate TextInv(u: Unicode, h: Heard, sp: Voiced, buf: string) {
    VoiceInv(KeptIn(u), h, sp, buf)
  }

  lemma TextStep(u: Unicode, s: Stage, h: Heard, arm: Arm)
    requires s.running && arm != BusEvent(true) && TextInv(u, h, SpokenIn(s.acts), s.buf)
    ensures TextInv(u, Hear(h, arm), SpokenIn(Step(u, s, arm).acts), Step(u, s, arm).buf)
  {
    var texts := SpokenIn(s.acts).current;
    KeptAtStart(u);
    KeptByTake(u, h.current, texts, s.buf);
    KeptByPush(u, h.current, texts, s.buf, TokenOf(arm));
    VoiceReact(KeptIn(u), s, h, arm, Take(u, s.buf), Push(u, s.buf, TokenOf(arm)));
  }

  lemma {:induction false} TextRun(u: Unicode, arms: seq<Arm>)
    requires NoBargeIn(arms) && RunOf(u, arms).running
    ensures TextInv(u, HeardIn(arms), SpokenIn(RunOf(u, arms).acts), RunOf(u, arms).buf)
  {
    if arms == [] {
      KeptAtStart(u);
    } else {
      var init := arms[..|arms| - 1];
      TextRun(u, init);
      TextStep(u, RunOf(u, init), HeardIn(init), arms[|arms| - 1]);
    }
  }

  ghost predicate AnswersMatch(u: Unicode, heard: seq<string>, spoken: seq<seq<string>>) {
    && |heard| == |spoken|
    && forall k :: 0 <= k < |heard| ==> Covers(u, heard[k], spoken[k]) && AllSpoken(u, spoken[k])
  }

  lemma TextInvMeans(u: Unicode, h: Heard, sp: Voiced, buf: string)
    requires TextInv(u, h, sp, buf)
    ensures AnswersMatch(u, h.finished, sp.finished) && Kept(u, h.current, sp.current, buf)
  {
    forall k | 0 <= k < |h.finished| ensures Covers(u, h.finished[k], sp.finished[k]) && AllSpoken(u, sp.finished[k]) {
      KeptInFull(u, h.finished[k], sp.finished[k]);
    }
  }

  /** Without barge-in, and with idle flushes at any moments: the texts spoken
      between two answer ends are exactly that answer's tokens up to white space
      dropped at the cuts; each is trimmed and non-empty; answers never merge; and
      what is spoken plus what is buffered covers the unfinished answer. */
  lemma AnswerTextIsConserved(u: Unicode, arms: seq<Arm>)
    requires NoBargeIn(arms) && RunOf(u, arms).running
    ensures AnswersMatch(u, HeardIn(arms).finished, SpokenIn(RunOf(u, arms).acts).finished)
    ensures Kept(u, HeardIn(arms).current, SpokenIn(RunOf(u, arms).acts).current, RunOf(u, arms).buf)
  {
    TextRun(u, arms);
    TextInvMeans(u, HeardIn(arms), SpokenIn(RunOf(u, arms).acts), RunOf(u, arms).buf);
  }

  /** When the channel closes, the last answer is spoken to its end as well. */
  lemma ClosingSpeaksTheRest(u: Unicode, s: Stage, h: Heard, syn: Synthesis)
    requires s.running && TextInv(u, h, SpokenIn(s.acts), s.buf)
    ensures Covers(u, h.current, SpokenIn(Step(u, s, ChannelClosed(syn)).acts).current)
  {
    TextStep(u, s, h, ChannelClosed(syn));
    TextInvMeans(u, h, SpokenIn(Step(u, s, ChannelClosed(syn)).acts), "");
    KeptInFull(u, h.current, SpokenIn(Step(u, s, ChannelClosed(syn)).acts).current);
  }
}
