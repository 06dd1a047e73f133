/** The satellite's session state machine: a trigger opens a session, mic frames
    stream until the end-of-utterance marker, the reply is played, and deadlines
    bring it back to idle. */
module SatelliteSession {
  import opened Chunks
  import opened Ints
  import opened Options
  import opened Topics

  const UTTERANCE_MAX_MS: nat := 10_000
  const REPLY_TIMEOUT_MS: nat := 30_000

  /** What the JSON library makes of a payload. */
  datatype Json = Json(
    sampleRate: Bytes -> Option<u32>,
    transcript: Bytes -> Option<(string, bool)>,
    answer: Bytes -> Option<string>)

  datatype Config = Config(root: string, satId: string, startPayload: Bytes, json: Json)

  /** The session id is drawn at the trigger, so a trigger carries a candidate. */
  datatype Input =
    | Trigger(freshSid: string)
    | MicFrame(bytes: Bytes)
    | SilenceDetected
    | Inbound(topic: string, payload: Bytes)
    | Tick

  datatype Command =
    | Publish(topic: string, payload: Bytes)
    | ConfigureSpeaker(sampleRate: u32)
    | Play(audio: Bytes)
    | ShowTranscript(text: string, isFinal: bool)
    | ShowAnswer(answer: string)
    | SessionEnded

  datatype Phase = Idle | Streaming | AwaitingReply | Playing

  datatype State = State(phase: Phase, sid: Option<string>, deadlineMs: Option<nat>)

  const INITIAL := State(Idle, None, None)

  // ----- Topics -----

  function SessionPrefix(cfg: Config, sid: string): string {
    cfg.root + "/sat/" + cfg.satId + "/session/" + sid + "/"
  }

  lemma SameUpToSlash(a: string, b: string, rest: string)
    requires '/' !in a && '/' !in b
    requires a + "/" <= b + "/" + rest
    ensures a == b
  {
    var l, r := a + "/", b + "/" + rest;
    assert forall i :: 0 <= i < |l| ==> l[i] == r[i];
    assert l[|a|] == '/' && r[|b|] == '/';
    assert forall i :: 0 <= i < |a| ==> a[i] == l[i] == r[i] == b[i];
  }

  /** A message that passes the prefix test was sent to this session: ids hold no '/'. */
  lemma PrefixIdentifiesSession(cfg: Config, sid: string, other: string, suffix: string)
    requires '/' !in sid && '/' !in other
    requires StripPrefix(SessionPrefix(cfg, other) + suffix, SessionPrefix(cfg, sid)).Some?
    ensures sid == other
  {
    var base := cfg.root + "/sat/" + cfg.satId + "/session/";
    var mine, theirs := SessionPrefix(cfg, sid), SessionPrefix(cfg, other) + suffix;
    assert mine[|base|..] == sid + "/" && theirs[|base|..] == other + "/" + suffix;
    assert mine[|base|..] <= theirs[|base|..];
    SameUpToSlash(sid, other, suffix);
  }

  // ----- Transitions -----

  function Finish(): (State, seq<Command>) {
    (INITIAL, [SessionEnded])
  }

  function EndUtterance(cfg: Config, s: State, now: nat): (State, seq<Command>) {
    if s.phase != Streaming || s.sid.None? then (s, [])
    else (s.(phase := AwaitingReply, deadlineMs := Some(now + REPLY_TIMEOUT_MS)),
          [Publish(SessionPrefix(cfg, s.sid.value) + "audio", [])])
  }

  function OnInbound(cfg: Config, s: State, topic: string, payload: Bytes): (State, seq<Command>) {
    if s.phase !in {AwaitingReply, Playing} || s.sid.None? then (s, [])
    else
      match StripPrefix(topic, SessionPrefix(cfg, s.sid.value))
      case None => (s, [])
      case Some(suffix) =>
        if suffix == "tts/meta" then
          (s.(phase := Playing),
           match cfg.json.sampleRate(payload) case Some(r) => [ConfigureSpeaker(r)] case None => [])
        else if suffix == "tts" then (s.(phase := Playing), [Play(payload)])
        else if suffix == "done" then Finish()
        else if suffix == "transcript" then
          (s, match cfg.json.transcript(payload) case Some((t, f)) => [ShowTranscript(t, f)] case None => [])
        else if suffix == "tts/text" then
          (s, match cfg.json.answer(payload) case Some(t) => [ShowAnswer(t)] case None => [])
        else (s, [])
  }

  function Step(cfg: Config, s: State, input: Input, now: nat): (State, seq<Command>) {
    match input
    case Trigger(sid) =>
      if s.phase != Idle then (s, [])
      else (State(Streaming, Some(sid), Some(now + UTTERANCE_MAX_MS)),
            [Publish(SessionPrefix(cfg, sid) + "start", cfg.startPayload)])
    case MicFrame(bytes) =>
      if s.phase != Streaming || s.sid.None? then (s, [])
      else (s, [Publish(SessionPrefix(cfg, s.sid.value) + "audio", bytes)])
    case SilenceDetected => EndUtterance(cfg, s, now)
    case Inbound(topic, payload) => OnInbound(cfg, s, topic, payload)
    case Tick =>
      if s.deadlineMs.None? || now <= s.deadlineMs.value then (s, [])
      else
        match s.phase
        case Idle => (s, [])
        case Streaming => EndUtterance(cfg, s, now)
        case _ => Finish()
  }

  ghost predicate Consistent(s: State) {
    (s.phase == Idle <==> s.sid.None?) && (s.sid.None? <==> s.deadlineMs.None?)
  }

  /** The object the firmware's main loop drives. */
  class Session {
    const cfg: Config
    var phase: Phase
    var sid: Option<string>
    var deadlineMs: Option<nat>

    ghost function View(): State
      reads this
    {
      State(phase, sid, deadlineMs)
    }

    constructor (cfg: Config)
      ensures this.cfg == cfg && View() == INITIAL
    {
      this.cfg := cfg;
      phase, sid, deadlineMs := Idle, None, None;
    }

    method Handle(input: Input, now: nat) returns (cmds: seq<Command>)
      requires Consistent(View())
      modifies this
      ensures (View(), cmds) == Step(cfg, old(View()), input, now)
      ensures Consistent(View())
    {
      match input
      case Trigger(freshSid) => cmds := HandleTrigger(freshSid, now);
      case MicFrame(bytes) => cmds := HandleMicFrame(bytes);
      case SilenceDetected => cmds := CloseUtterance(now);
      case Inbound(topic, payload) => cmds := HandleInbound(topic, payload);
      case Tick => cmds := HandleTick(now);
    }

    method HandleTrigger(freshSid: string, now: nat) returns (cmds: seq<Command>)
      modifies this
      ensures (View(), cmds) == Step(cfg, old(View()), Trigger(freshSid), now)
    {
      if phase != Idle {
        return [];
      }
      sid := Some(freshSid);
      phase := Streaming;
      deadlineMs := Some(now + UTTERANCE_MAX_MS);
      return [Publish(SessionPrefix(cfg, freshSid) + "start", cfg.startPayload)];
    }

    method HandleMicFrame(bytes: Bytes) returns (cmds: seq<Command>)
      requires Consistent(View())
      ensures (View(), cmds) == Step(cfg, View(), MicFrame(bytes), 0)
    {
      if phase != Streaming {
        return [];
      }
      return [Publish(SessionPrefix(cfg, sid.value) + "audio", bytes)];
    }

    method CloseUtterance(now: nat) returns (cmds: seq<Command>)
      requires Consistent(View())
      modifies this
      ensures (View(), cmds) == EndUtterance(cfg, old(View()), now)
    {
      if phase != Streaming {
        return [];
      }
      phase := AwaitingReply;
      deadlineMs := Some(now + REPLY_TIMEOUT_MS);
      return [Publish(SessionPrefix(cfg, sid.value) + "audio", [])];
    }

    method HandleInbound(topic: string, payload: Bytes) returns (cmds: seq<Command>)
      modifies this
      ensures (View(), cmds) == OnInbound(cfg, old(View()), topic, payload)
    {
      if phase !in {AwaitingReply, Playing} || sid.None? {
        return [];
      }
      var stripped := StripPrefix(topic, SessionPrefix(cfg, sid.value));
      if stripped.None? {
        return [];
      }
      var suffix := stripped.value;
      if suffix == "tts/meta" {
        phase := Playing;
        var rate := cfg.json.sampleRate(payload);
        return if rate.Some? then [ConfigureSpeaker(rate.value)] else [];
      } else if suffix == "tts" {
        phase := Playing;
        return [Play(payload)];
      } else if suffix == "done" {
        cmds := Close();
      } else if suffix == "transcript" {
        var heard := cfg.json.transcript(payload);
        return if heard.Some? then [ShowTranscript(heard.value.0, heard.value.1)] else [];
      } else if suffix == "tts/text" {
        var text := cfg.json.answer(payload);
        return if text.Some? then [ShowAnswer(text.value)] else [];
      } else {
        return [];
      }
    }

    method HandleTick(now: nat) returns (cmds: seq<Command>)
      requires Consistent(View())
      modifies this
      ensures (View(), cmds) == Step(cfg, old(View()), Tick, now)
    {
      if deadlineMs.None? || now <= deadlineMs.value {
        return [];
      }
      match phase
      case Idle => return [];
      case Streaming => cmds := CloseUtterance(now);
      case _ => cmds := Close();
    }

    method Close() returns (cmds: seq<Command>)
      modifies this
      ensures (View(), cmds) == Finish()
    {
      phase, sid, deadlineMs := Idle, None, None;
      return [SessionEnded];
    }
  }

  // ----- Runs -----

  datatype Event = Event(input: Input, now: nat)

  /** A command together with the session it was issued for. */
  datatype Entry = Entry(sid: string, cmd: Command)

  /** triggeredAt: time of the trigger that opened the newest session;
      lastTick: time of the newest tick, 0 before the first. */
  datatype Run = Run(state: State, log: seq<Entry>, triggeredAt: nat, lastTick: nat)

  function Tagged(sid: Option<string>, cmds: seq<Command>): seq<Entry> {
    match sid
    case None => []
    case Some(id) => seq(|cmds|, i requires 0 <= i < |cmds| => Entry(id, cmds[i]))
  }

  /** The session a step belongs to: the open one, or the one it opens. */
  function Owner(s: State, s': State): Option<string> {
    if s.sid.Some? then s.sid else s'.sid
  }

  function Advance(cfg: Config, r: Run, e: Event): Run {
    var (s', cmds) := Step(cfg, r.state, e.input, e.now);
    Run(s', r.log + Tagged(Owner(r.state, s'), cmds),
        if r.state.phase == Idle && s'.phase == Streaming then e.now else r.triggeredAt,
        if e.input.Tick? then e.now else r.lastTick)
  }

  function RunOf(cfg: Config, events: seq<Event>): Run {
    if events == [] then Run(INITIAL, [], 0, 0)
    else Advance(cfg, RunOf(cfg, events[..|events| - 1]), events[|events| - 1])
  }

  lemma {:induction false} AlwaysConsistent(cfg: Config, events: seq<Event>)
    ensures Consistent(RunOf(cfg, events).state)
  {
    if events != [] {
      AlwaysConsistent(cfg, events[..|events| - 1]);
    }
  }

  // ----- The language of one session -----

  datatype Kind = Start | Frame | EndMarker | Shown | Ended

  function KindOf(cfg: Config, e: Entry): Kind {
    match e.cmd
    case Publish(topic, payload) =>
      if topic == SessionPrefix(cfg, e.sid) + "start" then Start
      else if payload == [] then EndMarker else Frame
    case SessionEnded => Ended
    case _ => Shown
  }

  function KindsOf(cfg: Config, id: string, cmds: seq<Command>): seq<Kind> {
    seq(|cmds|, i requires 0 <= i < |cmds| => KindOf(cfg, Entry(id, cmds[i])))
  }

  function WordOf(cfg: Config, log: seq<Entry>, id: string): seq<Kind> {
    if log == [] then []
    else
      var rest, last := WordOf(cfg, log[..|log| - 1], id), log[|log| - 1];
      if last.sid == id then rest + [KindOf(cfg, last)] else rest
  }

  /** start, then frames. */
  predicate IsOpening(w: seq<Kind>) {
    |w| >= 1 && w[0] == Start && forall i :: 0 < i < |w| ==> w[i] == Frame
  }

  /** start, frames, one end marker, then only what the satellite shows or plays. */
  ghost predicate IsReplying(w: seq<Kind>) {
    exists k :: 1 <= k < |w| && IsOpening(w[..k]) && w[k] == EndMarker && forall i :: k < i < |w| ==> w[i] == Shown
  }

  ghost predicate IsComplete(w: seq<Kind>) {
    |w| >= 1 && w[|w| - 1] == Ended && IsReplying(w[..|w| - 1])
  }

  ghost predicate FreshIds(events: seq<Event>) {
    forall i, j :: 0 <= i < j < |events| && events[i].input.Trigger? && events[j].input.Trigger? ==>
      events[i].input.freshSid != events[j].input.freshSid
  }

  /** No empty frame arrives while a session streams. */
  predicate FramesHaveSound(cfg: Config, events: seq<Event>) {
    if events == [] then true
    else
      var init, e := events[..|events| - 1], events[|events| - 1];
      && FramesHaveSound(cfg, init)
      && (RunOf(cfg, init).state.phase == Streaming && e.input.MicFrame? ==> e.input.bytes != [])
  }

  ghost predicate Drawn(events: seq<Event>, id: string) {
    exists i :: 0 <= i < |events| && events[i].input == Trigger(id)
  }

  ghost predicate WordFits(s: State, id: string, w: seq<Kind>) {
    if s.sid != Some(id) then w == [] || IsComplete(w)
    else if s.phase == Streaming then IsOpening(w)
    else IsReplying(w)
  }

  lemma ReplyingGrows(w: seq<Kind>, k: Kind)
    ensures IsOpening(w) && k == EndMarker ==> IsReplying(w + [k])
    ensures IsReplying(w) && k == Shown ==> IsReplying(w + [k])
    ensures IsReplying(w) && k == Ended ==> IsComplete(w + [k])
  {
    assert (w + [k])[..|w|] == w;
    if IsOpening(w) && k == EndMarker {
      assert IsOpening((w + [k])[..|w|]) && (w + [k])[|w|] == EndMarker;
    }
    if IsReplying(w) && k == Shown {
      var m :| 1 <= m < |w| && IsOpening(w[..m]) && w[m] == EndMarker && forall i :: m < i < |w| ==> w[i] == Shown;
      assert (w + [k])[..m] == w[..m];
      assert IsOpening((w + [k])[..m]) && (w + [k])[m] == EndMarker;
    }
  }

  lemma SuffixesDiffer(p: string)
    ensures p + "audio" != p + "start"
  {
    assert (p + "audio")[|p|] == 'a' && (p + "start")[|p|] == 's';
  }

  /** How one step can change the state of session id and what it issues for it. */
  ghost predicate Move(s: State, s': State, id: string, kinds: seq<Kind>) {
    || (s' == s && kinds == [])
    || (s.phase == Idle && s'.phase == Streaming && s'.sid == Some(id) && kinds == [Start])
    || (s.phase == Streaming && s' == s && kinds == [Frame])
    || (s.phase == Streaming && s'.phase == AwaitingReply && s'.sid == s.sid && kinds == [EndMarker])
    || (s.phase in {AwaitingReply, Playing} && s'.phase in {AwaitingReply, Playing} && s'.sid == s.sid
        && kinds in {[], [Shown]})
    || (s.phase in {AwaitingReply, Playing} && s' == INITIAL && kinds == [Ended])
  }

  lemma StepMoves(cfg: Config, s: State, input: Input, now: nat)
    requires Consistent(s) && (s.phase == Streaming && input.MicFrame? ==> input.bytes != [])
    ensures var (s', cmds) := Step(cfg, s, input, now);
            && |cmds| <= 1
            && Consistent(s')
            && (cmds != [] ==> Owner(s, s').Some?)
            && (Owner(s, s').Some? ==>
                 var id := Owner(s, s').value;
                 Move(s, s', id, KindsOf(cfg, id, cmds)))
    ensures s.sid.Some? && Step(cfg, s, input, now).0.sid.Some? ==> Step(cfg, s, input, now).0.sid == s.sid
    ensures s.sid.None? && Step(cfg, s, input, now).0.sid.Some? ==>
              input == Trigger(Step(cfg, s, input, now).0.sid.value)
    ensures Owner(s, Step(cfg, s, input, now).0).None? ==> Step(cfg, s, input, now).0 == s
  {
    var (s', cmds) := Step(cfg, s, input, now);
    if Owner(s, s').Some? {
      var id := Owner(s, s').value;
      SuffixesDiffer(SessionPrefix(cfg, id));
      var kinds := KindsOf(cfg, id, cmds);
      assert cmds == [] ==> kinds == [];
      assert |cmds| == 1 ==> kinds == [KindOf(cfg, Entry(id, cmds[0]))];
    }
  }

  lemma MoveFits(s: State, s': State, id: string, w: seq<Kind>, kinds: seq<Kind>)
    requires Consistent(s) && Consistent(s') && Owner(s, s') == Some(id)
    requires Move(s, s', id, kinds) && WordFits(s, id, w)
    requires s.sid.None? ==> w == []
    requires s.sid.Some? && s'.sid.Some? ==> s.sid == s'.sid
    ensures WordFits(s', id, w + kinds)
  {
    assert w + [] == w;
    if |kinds| == 1 {
      ReplyingGrows(w, kinds[0]);
    }
  }

  lemma WordOfTagged(cfg: Config, log: seq<Entry>, sid: Option<string>, cmds: seq<Command>, id: string)
    requires |cmds| <= 1
    ensures WordOf(cfg, log + Tagged(sid, cmds), id) ==
            WordOf(cfg, log, id) + (if sid == Some(id)
                                    then KindsOf(cfg, id, cmds)
                                    else [])
  {
    var t := Tagged(sid, cmds);
    if t == [] {
      assert log + t == log;
    } else {
      assert (log + t)[..|log|] == log;
    }
  }

  /** The same fact with the step's outcome as a given, so that nothing of Step
      has to be unfolded. */
  lemma StepFits(cfg: Config, r: Run, s': State, cmds: seq<Command>, id: string, input: Input)
    requires Consistent(r.state) && Consistent(s') && |cmds| <= 1
    requires WordFits(r.state, id, WordOf(cfg, r.log, id))
    requires input == Trigger(id) ==> WordOf(cfg, r.log, id) == []
    requires cmds != [] ==> Owner(r.state, s').Some?
    requires Owner(r.state, s').Some? ==>
               var owner := Owner(r.state, s').value; Move(r.state, s', owner, KindsOf(cfg, owner, cmds))
    requires r.state.sid.Some? && s'.sid.Some? ==> s'.sid == r.state.sid
    requires r.state.sid.None? && s'.sid.Some? ==> input == Trigger(s'.sid.value)
    requires Owner(r.state, s').None? ==> s' == r.state
    ensures var w' := WordOf(cfg, r.log + Tagged(Owner(r.state, s'), cmds), id);
            && WordFits(s', id, w')
            && (w' != WordOf(cfg, r.log, id) ==> r.state.sid == Some(id) || input == Trigger(id))
  {
    var owner := Owner(r.state, s');
    var w := WordOf(cfg, r.log, id);
    WordOfTagged(cfg, r.log, owner, cmds, id);
    assert w + [] == w;
    if owner == Some(id) {
      MoveFits(r.state, s', id, w, KindsOf(cfg, id, cmds));
    }
  }

  lemma AdvanceFits(cfg: Config, r: Run, e: Event, id: string)
    requires Consistent(r.state) && WordFits(r.state, id, WordOf(cfg, r.log, id))
    requires r.state.phase == Streaming && e.input.MicFrame? ==> e.input.bytes != []
    requires e.input == Trigger(id) ==> WordOf(cfg, r.log, id) == []
    ensures var r' := Advance(cfg, r, e);
            && Consistent(r'.state)
            && WordFits(r'.state, id, WordOf(cfg, r'.log, id))
            && (r'.state.sid == Some(id) ==> r.state.sid == Some(id) || e.input == Trigger(id))
            && (WordOf(cfg, r'.log, id) != WordOf(cfg, r.log, id) ==> r.state.sid == Some(id) || e.input == Trigger(id))
  {
    var (s', cmds) := Step(cfg, r.state, e.input, e.now);
    StepMoves(cfg, r.state, e.input, e.now);
    StepFits(cfg, r, s', cmds, id, e.input);
  }

  lemma DrawnGrows(events: seq<Event>, id: string)
    requires events != [] && FreshIds(events)
    ensures var init, e := events[..|events| - 1], events[|events| - 1];
            && (Drawn(init, id) ==> Drawn(events, id) && e.input != Trigger(id))
            && (e.input == Trigger(id) ==> Drawn(events, id))
  {
    var init, e := events[..|events| - 1], events[|events| - 1];
    if Drawn(init, id) {
      var i :| 0 <= i < |init| && init[i].input == Trigger(id);
      assert events[i].input == Trigger(id);
    }
  }

  /** In every run with fresh ids and no empty frame, each session publishes start,
      then frames, then exactly one empty end marker before its single
      SessionEnded; idle, without an id and without a deadline are the same. */
  lemma {:induction false} SessionLanguage(cfg: Config, events: seq<Event>, id: string)
    requires FreshIds(events) && FramesHaveSound(cfg, events)
    ensures var r := RunOf(cfg, events);
            Consistent(r.state) && WordFits(r.state, id, WordOf(cfg, r.log, id))
    ensures WordOf(cfg, RunOf(cfg, events).log, id) != [] ==> Drawn(events, id)
    ensures RunOf(cfg, events).state.sid == Some(id) ==> Drawn(events, id)
  {
    if events != [] {
      var init, e := events[..|events| - 1], events[|events| - 1];
      SessionLanguage(cfg, init, id);
      DrawnGrows(events, id);
      AdvanceFits(cfg, RunOf(cfg, init), e, id);
    }
  }

  ghost predicate Fits(cfg: Config, events: seq<Event>, id: string) {
    WordFits(RunOf(cfg, events).state, id, WordOf(cfg, RunOf(cfg, events).log, id))
  }

  ghost predicate KeepsLanguage(cfg: Config, events: seq<Event>) {
    forall n, id :: 0 <= n <= |events| ==> Fits(cfg, events[..n], id)
  }

  lemma {:induction false} SoundPrefix(cfg: Config, events: seq<Event>, n: nat)
    requires n <= |events| && FramesHaveSound(cfg, events)
    ensures FramesHaveSound(cfg, events[..n])
  {
    if n == |events| {
      assert events[..n] == events;
    } else {
      SoundPrefix(cfg, events[..|events| - 1], n);
      assert events[..|events| - 1][..n] == events[..n];
    }
  }

  lemma EmptyFrameBreaks(cfg: Config, r: Run, e: Event)
    requires Consistent(r.state) && r.state.phase == Streaming && e.input == MicFrame([])
    ensures var r' := Advance(cfg, r, e);
            !WordFits(r'.state, r.state.sid.value, WordOf(cfg, r'.log, r.state.sid.value))
  {
    var id := r.state.sid.value;
    var cmds := [Publish(SessionPrefix(cfg, id) + "audio", [])];
    SuffixesDiffer(SessionPrefix(cfg, id));
    WordOfTagged(cfg, r.log, Some(id), cmds, id);
    var w := WordOf(cfg, Advance(cfg, r, e).log, id);
    assert w[|w| - 1] == EndMarker;
  }

  lemma {:induction false} FirstEmptyFrame(cfg: Config, events: seq<Event>) returns (n: nat, id: string)
    requires !FramesHaveSound(cfg, events)
    ensures n <= |events| && !Fits(cfg, events[..n], id)
  {
    var init, e := events[..|events| - 1], events[|events| - 1];
    if !FramesHaveSound(cfg, init) {
      n, id := FirstEmptyFrame(cfg, init);
      assert init[..n] == events[..n];
    } else {
      AlwaysConsistent(cfg, init);
      EmptyFrameBreaks(cfg, RunOf(cfg, init), e);
      n, id := |events|, RunOf(cfg, init).state.sid.value;
      assert events[..n] == events;
    }
  }

  /** The non-empty-frame condition is exact: an empty frame that reaches a
      streaming session is published as a second end marker. */
  lemma LanguageIffFramesHaveSound(cfg: Config, events: seq<Event>)
    requires FreshIds(events)
    ensures KeepsLanguage(cfg, events) <==> FramesHaveSound(cfg, events)
  {
    if FramesHaveSound(cfg, events) {
      forall n, id | 0 <= n <= |events| ensures Fits(cfg, events[..n], id) {
        SoundPrefix(cfg, events, n);
        SessionLanguage(cfg, events[..n], id);
      }
    } else {
      var n, id := FirstEmptyFrame(cfg, events);
    }
  }

  // ----- Lifetime -----

  /** Time never runs backwards and no event is more than d after the tick before it. */
  predicate Paced(cfg: Config, events: seq<Event>, d: nat)
  {
    if events == [] then true
    else
      var init, e := events[..|events| - 1], events[|events| - 1];
      && Paced(cfg, init, d)
      && (init != [] ==> init[|init| - 1].now <= e.now)
      && RunOf(cfg, init).lastTick <= e.now <= RunOf(cfg, init).lastTick + d
  }

  ghost predicate WithinBudget(r: Run, d: nat) {
    match r.state.phase
    case Idle => true
    case Streaming =>
      r.state.deadlineMs == Some(r.triggeredAt + UTTERANCE_MAX_MS) && r.lastTick <= r.state.deadlineMs.value
    case _ => r.state.deadlineMs.Some? && r.lastTick <= r.state.deadlineMs.value <= r.triggeredAt + 40_000 + d
  }

  lemma BudgetStep(cfg: Config, r: Run, e: Event, d: nat)
    requires Consistent(r.state) && WithinBudget(r, d) && r.lastTick <= e.now <= r.lastTick + d
    ensures WithinBudget(Advance(cfg, r, e), d)
  {
  }

  lemma {:induction false} BudgetHolds(cfg: Config, events: seq<Event>, d: nat)
    requires Paced(cfg, events, d)
    ensures WithinBudget(RunOf(cfg, events), d)
  {
    if events != [] {
      BudgetHolds(cfg, events[..|events| - 1], d);
      AlwaysConsistent(cfg, events[..|events| - 1]);
      BudgetStep(cfg, RunOf(cfg, events[..|events| - 1]), events[|events| - 1], d);
    }
  }

  /** With ticks at most d apart, a session triggered at time t is never still
      open later than t + 40000 + 2d, whatever arrives in between. */
  lemma SessionEndsInTime(cfg: Config, events: seq<Event>, d: nat)
    requires events != [] && Paced(cfg, events, d)
    requires RunOf(cfg, events).state.phase != Idle
    ensures events[|events| - 1].now <= RunOf(cfg, events).triggeredAt + 40_000 + 2 * d
  {
    BudgetHolds(cfg, events, d);
    BudgetHolds(cfg, events[..|events| - 1], d);
  }
}
