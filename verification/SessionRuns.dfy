/** What the satellite publishes, plays and shows, and when its session moves on, over
    whole runs: in terms of the events alone and the times of the trigger and of the end
    of the utterance. */
module SessionRuns {
  import opened Chunks
  import opened Ints
  import opened Options
  import opened SatelliteSession
  import opened Topics

  function Topic(cfg: Config, id: string, leaf: string): string {
    cfg.root + "/sat/" + cfg.satId + "/session/" + id + "/" + leaf
  }

  lemma TopicOfLeaf(cfg: Config, id: string, topic: string, leaf: string)
    ensures StripPrefix(topic, SessionPrefix(cfg, id)) == Some(leaf) <==> topic == Topic(cfg, id, leaf)
    ensures SessionPrefix(cfg, id) + leaf == Topic(cfg, id, leaf)
  {
    var prefix := SessionPrefix(cfg, id);
    assert prefix + leaf == Topic(cfg, id, leaf);
    assert (prefix + leaf)[|prefix|..] == leaf;
  }

  // ----- When the session moves on -----

  /** When the newest utterance ended. */
  function EndedAt(cfg: Config, events: seq<Event>): nat {
    if events == [] then 0
    else
      var init, e := events[..|events| - 1], events[|events| - 1];
      if RunOf(cfg, init).state.phase == Streaming && RunOf(cfg, events).state.phase == AwaitingReply then e.now
      else EndedAt(cfg, init)
  }

  predicate Hears(cfg: Config, id: string, e: Event, leaf: string) {
    e.input.Inbound? && e.input.topic == Topic(cfg, id, leaf)
  }

  /** The phase the next event leads to, for a session of this id. */
  ghost predicate MovesOn(cfg: Config, phase: Phase, id: string, triggeredAt: nat, endedAt: nat, e: Event,
                          next: Phase)
  {
    match phase
    case Idle => next == if e.input.Trigger? then Streaming else Idle
    case Streaming =>
      next == if e.input.SilenceDetected? || (e.input.Tick? && triggeredAt + 10_000 < e.now) then AwaitingReply
              else Streaming
    case _ =>
      next == if Hears(cfg, id, e, "done") || (e.input.Tick? && endedAt + 30_000 < e.now) then Idle
              else if Hears(cfg, id, e, "tts") || Hears(cfg, id, e, "tts/meta") then Playing
              else phase
  }

  /** The deadline is the trigger's or the utterance's end's. */
  predicate Due(r: Run, endedAt: nat) {
    match r.state.phase
    case Idle => true
    case Streaming => r.state.deadlineMs == Some(r.triggeredAt + 10_000)
    case _ => r.state.deadlineMs == Some(endedAt + 30_000)
  }

  lemma InboundMoves(cfg: Config, s: State, topic: string, payload: Bytes, now: nat, triggeredAt: nat, endedAt: nat)
    requires Consistent(s) && s.phase in {AwaitingReply, Playing}
    ensures var s', e := OnInbound(cfg, s, topic, payload).0, Event(Inbound(topic, payload), now);
            && MovesOn(cfg, s.phase, s.sid.value, triggeredAt, endedAt, e, s'.phase)
            && (s'.phase != Idle ==> s'.deadlineMs == s.deadlineMs && s'.sid == s.sid)
  {
    var id := s.sid.value;
    TopicOfLeaf(cfg, id, topic, "tts/meta");
    TopicOfLeaf(cfg, id, topic, "tts");
    TopicOfLeaf(cfg, id, topic, "done");
  }

  lemma StepMovesOn(cfg: Config, r: Run, e: Event, endedAt: nat)
    requires Consistent(r.state) && Due(r, endedAt)
    ensures var r' := Advance(cfg, r, e);
            && MovesOn(cfg, r.state.phase, if r.state.sid.Some? then r.state.sid.value else "", r.triggeredAt, endedAt,
                       e, r'.state.phase)
            && Due(r', if r.state.phase == Streaming && r'.state.phase == AwaitingReply then e.now else endedAt)
  {
    if e.input.Inbound? && r.state.phase in {AwaitingReply, Playing} {
      InboundMoves(cfg, r.state, e.input.topic, e.input.payload, e.now, r.triggeredAt, endedAt);
    }
  }

  lemma {:induction false} DeadlinesAreDue(cfg: Config, events: seq<Event>)
    ensures Due(RunOf(cfg, events), EndedAt(cfg, events))
  {
    if events != [] {
      var init := events[..|events| - 1];
      DeadlinesAreDue(cfg, init);
      AlwaysConsistent(cfg, init);
      StepMovesOn(cfg, RunOf(cfg, init), events[|events| - 1], EndedAt(cfg, init));
    }
  }

  /** After every run, the next event moves the session on exactly so: a trigger opens it;
      silence, or a tick more than 10 s after the trigger, ends the utterance; the
      session's own done message, or a tick more than 30 s after that, closes it; and its
      audio messages turn waiting into playing. */
  lemma SessionMovesOnExactly(cfg: Config, events: seq<Event>, e: Event)
    ensures var r := RunOf(cfg, events);
            MovesOn(cfg, r.state.phase, if r.state.sid.Some? then r.state.sid.value else "", r.triggeredAt,
                    EndedAt(cfg, events), e, RunOf(cfg, events + [e]).state.phase)
  {
    assert (events + [e])[..|events|] == events;
    DeadlinesAreDue(cfg, events);
    AlwaysConsistent(cfg, events);
    StepMovesOn(cfg, RunOf(cfg, events), e, EndedAt(cfg, events));
  }

  // ----- What is published, played and shown -----

  /** What a reply message asks for. */
  function Rendered(cfg: Config, id: string, e: Event): seq<Command> {
    if Hears(cfg, id, e, "tts") then [Play(e.input.payload)]
    else if Hears(cfg, id, e, "tts/meta") then
      match cfg.json.sampleRate(e.input.payload) case Some(rate) => [ConfigureSpeaker(rate)] case None => []
    else if Hears(cfg, id, e, "transcript") then
      match cfg.json.transcript(e.input.payload) case Some((text, f)) => [ShowTranscript(text, f)] case None => []
    else if Hears(cfg, id, e, "tts/text") then
      match cfg.json.answer(e.input.payload) case Some(text) => [ShowAnswer(text)] case None => []
    else []
  }

  /** What one event makes session id do, given how its phase moves. */
  function Issued(cfg: Config, id: string, phase: Phase, next: Phase, e: Event): seq<Command> {
    if phase == Idle then if next == Streaming then [Publish(Topic(cfg, id, "start"), cfg.startPayload)] else []
    else if next == Idle then [SessionEnded]
    else if phase == Streaming then
      if next == AwaitingReply then [Publish(Topic(cfg, id, "audio"), [])]
      else if e.input.MicFrame? then [Publish(Topic(cfg, id, "audio"), e.input.bytes)]
      else []
    else Rendered(cfg, id, e)
  }

  function Entries(id: string, cmds: seq<Command>): (r: seq<Entry>)
    ensures |r| == |cmds| && forall i :: 0 <= i < |r| ==> r[i] == Entry(id, cmds[i])
  {
    seq(|cmds|, i requires 0 <= i < |cmds| => Entry(id, cmds[i]))
  }

  function AllIssued(cfg: Config, events: seq<Event>): seq<Entry> {
    if events == [] then []
    else
      var init, e := events[..|events| - 1], events[|events| - 1];
      var s, s' := RunOf(cfg, init).state, RunOf(cfg, events).state;
      AllIssued(cfg, init) +
      match Owner(s, s') case None => [] case Some(id) => Entries(id, Issued(cfg, id, s.phase, s'.phase, e))
  }

  lemma InboundIssues(cfg: Config, s: State, topic: string, payload: Bytes, now: nat)
    requires Consistent(s) && s.phase in {AwaitingReply, Playing}
    ensures var (s', cmds) := OnInbound(cfg, s, topic, payload);
            cmds == Issued(cfg, s.sid.value, s.phase, s'.phase, Event(Inbound(topic, payload), now))
  {
    var id := s.sid.value;
    TopicOfLeaf(cfg, id, topic, "tts/meta");
    TopicOfLeaf(cfg, id, topic, "tts");
    TopicOfLeaf(cfg, id, topic, "done");
    TopicOfLeaf(cfg, id, topic, "transcript");
    TopicOfLeaf(cfg, id, topic, "tts/text");
  }

  lemma StepIssues(cfg: Config, s: State, e: Event)
    requires Consistent(s)
    ensures var (s', cmds) := Step(cfg, s, e.input, e.now);
            match Owner(s, s')
            case None => cmds == []
            case Some(id) => cmds == Issued(cfg, id, s.phase, s'.phase, e)
  {
    var (s', cmds) := Step(cfg, s, e.input, e.now);
    if Owner(s, s').Some? {
      TopicOfLeaf(cfg, Owner(s, s').value, "", "audio");
      TopicOfLeaf(cfg, Owner(s, s').value, "", "start");
    }
    if e.input.Inbound? && s.phase in {AwaitingReply, Playing} {
      InboundIssues(cfg, s, e.input.topic, e.input.payload, e.now);
    }
  }

  lemma LogGrows(cfg: Config, r: Run, e: Event, log: seq<Entry>)
    requires Consistent(r.state) && r.log == log
    ensures var s, s' := r.state, Advance(cfg, r, e).state;
            Advance(cfg, r, e).log == log +
              match Owner(s, s') case None => [] case Some(id) => Entries(id, Issued(cfg, id, s.phase, s'.phase, e))
  {
    StepIssues(cfg, r.state, e);
  }

  /** In every run the log is exactly this, in order and session by session: the start
      message, every frame heard while streaming, the empty end marker, everything the
      session's own replies ask to play and show while it waits or plays, and the end. */
  lemma {:induction false} LogTellsTheEvents(cfg: Config, events: seq<Event>)
    ensures RunOf(cfg, events).log == AllIssued(cfg, events)
  {
    if events != [] {
      var init := events[..|events| - 1];
      LogTellsTheEvents(cfg, init);
      AlwaysConsistent(cfg, init);
      LogGrows(cfg, RunOf(cfg, init), events[|events| - 1], AllIssued(cfg, init));
    }
  }
}
