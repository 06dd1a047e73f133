/** What the router says and asks for, over whole runs: the words of its answers, the
    prompts it hands to the LLM, and what the event bus hears. */
module Wording {
  import opened Ints
  import opened Options
  import opened Routing
  import opened Tokens
  import opened Turns

  predicate EndsAsSentence(text: string) {
    |text| > 0 && (text[|text| - 1] == '.' || text[|text| - 1] == '!' || text[|text| - 1] == '?')
  }

  /** What the satellite is owed for a response of the current utterance: a spoken text
      and the end of the answer, nothing yet if the LLM is asked, else the end alone. */
  function Owed(r: Response): seq<TtsMsg> {
    match r
    case Say(text) => [Token(if EndsAsSentence(text) then text else text + "."), EndOfAnswer]
    case AskLlm(_) => []
    case _ => [EndOfAnswer]
  }

  function OwedFor(i: Input): seq<TtsMsg> {
    match i case Answered(_, response, true) => Owed(response) case _ => []
  }

  /** The prompt for the LLM: an utterance no skill takes, or what a skill asks of it. */
  function AskedFor(i: Input): seq<string> {
    match i
    case Transcribed(Undispatched(prompt), _) => [prompt]
    case Transcribed(NoMatch(prompt), _) => [prompt]
    case Answered(_, AskLlm(prompt), true) => [prompt]
    case _ => []
  }

  /** In order of receipt. */
  function AllOwed(history: seq<Input>): seq<TtsMsg> {
    if history == [] then [] else AllOwed(history[..|history| - 1]) + OwedFor(history[|history| - 1])
  }

  function AllAsked(history: seq<Input>): seq<string> {
    if history == [] then [] else AllAsked(history[..|history| - 1]) + AskedFor(history[|history| - 1])
  }

  ghost predicate SaysWhatItOwes(s: System) {
    s.spoken + s.routerOut == AllOwed(s.history) && s.asked + s.prompts == AllAsked(s.history)
  }

  lemma HistorySays(s: System, s': System, i: Input)
    requires SaysWhatItOwes(s) && s.routerOut == [] && s'.history == s.history + [i]
    requires s'.spoken == s.spoken && s'.routerOut == OwedFor(i)
    requires s'.asked == s.asked && s'.prompts == s.prompts + AskedFor(i)
    ensures SaysWhatItOwes(s')
  {
    assert s'.history[..|s.history|] == s.history && s.spoken + s.routerOut == s.spoken;
    assert s.asked + (s.prompts + AskedFor(i)) == s.asked + s.prompts + AskedFor(i);
  }

  lemma FinalSays(v: View, route: Route, busy: bool)
    ensures HandleFinal(v, route).1.prompts == AskedFor(Transcribed(route, busy))
  {
  }

  lemma OutcomeSays(v: View, o: Outcome)
    ensures HandleOutcome(v, o).1.tokens == OwedFor(Answered(o.skill, o.response, o.epoch == v.epoch))
    ensures HandleOutcome(v, o).1.prompts == AskedFor(Answered(o.skill, o.response, o.epoch == v.epoch))
  {
  }

  lemma Shifted<T>(a: seq<T>, b: seq<T>)
    requires b != []
    ensures a + [b[0]] + b[1..] == a + b
  {
  }

  lemma SaysStep(s: System, l: Label)
    requires Enabled(s, l) && SaysWhatItOwes(s)
    ensures SaysWhatItOwes(Apply(s, l))
  {
    match l
    case Final(route) =>
      var busy := s.view.pending.Some? || s.view.priorWork;
      FinalSays(s.view, route, busy);
      HistorySays(s, Apply(s, l), Transcribed(route, busy));
    case Receive =>
      var o := s.outcomes[0];
      OutcomeSays(s.view, o);
      HistorySays(s, Apply(s, l), Answered(o.skill, o.response, o.epoch == s.view.epoch));
    case RouterSends => Shifted(s.spoken, s.routerOut);
    case LlmTakes(_, _) => Shifted(s.asked, s.prompts);
    case _ =>
  }

  /** In every interleaving: what the router has sent on the token channel, and still has
      to, is exactly what it owes for the responses of then current utterances, in order
      of receipt; and the prompts the LLM has taken, and still has to, are exactly those
      of the utterances no skill takes and of the current responses that ask for it. */
  lemma {:induction false} RouterSaysWhatItOwes(labels: seq<Label>)
    requires IsRun(labels)
    ensures SaysWhatItOwes(Reached(labels))
  {
    if labels != [] {
      RouterSaysWhatItOwes(labels[..|labels| - 1]);
      SaysStep(Reached(labels[..|labels| - 1]), labels[|labels| - 1]);
    }
  }

  // ----- The token channel -----

  /** all is a and b dovetailed, each in its order. */
  ghost predicate Dovetailed(all: seq<TtsMsg>, a: seq<TtsMsg>, b: seq<TtsMsg>)
    decreases |all|
  {
    if all == [] then a == [] && b == []
    else
      var init, last := all[..|all| - 1], all[|all| - 1];
      || (a != [] && a[|a| - 1] == last && Dovetailed(init, a[..|a| - 1], b))
      || (b != [] && b[|b| - 1] == last && Dovetailed(init, a, b[..|b| - 1]))
  }

  lemma DovetailGrows(all: seq<TtsMsg>, a: seq<TtsMsg>, b: seq<TtsMsg>, m: TtsMsg)
    requires Dovetailed(all, a, b)
    ensures Dovetailed(all + [m], a + [m], b) && Dovetailed(all + [m], a, b + [m])
  {
    assert (all + [m])[..|all|] == all && (a + [m])[..|a|] == a && (b + [m])[..|b|] == b;
  }

  /** The channel carries what the router and the LLM send, and nothing else. */
  lemma {:induction false} ChannelCarriesBoth(labels: seq<Label>)
    requires IsRun(labels)
    ensures var s := Reached(labels); Dovetailed(s.tokens, s.spoken, s.replied)
  {
    if labels != [] {
      var s, l := Reached(labels[..|labels| - 1]), labels[|labels| - 1];
      ChannelCarriesBoth(labels[..|labels| - 1]);
      if l.RouterSends? {
        DovetailGrows(s.tokens, s.spoken, s.replied, s.routerOut[0]);
      } else if l.LlmSends? {
        DovetailGrows(s.tokens, s.spoken, s.replied, s.llmOut[0]);
      }
    }
  }

  // ----- The event bus -----

  function Matched(route: Route): seq<Event> {
    match route
    case ToSkill(_, missing) => if missing then [IntentMatched, LlmFallback] else [IntentMatched]
    case Undispatched(_) => [IntentMatched, SkillInvoked, LlmFallback]
    case NoMatch(_) => [LlmFallback]
  }

  function Played(r: Response): seq<Event> {
    match r
    case AskLlm(_) => [LlmFallback]
    case Sampled => [AudioChunk]
    case Volume => [VolumeChanged]
    case _ => []
  }

  /** What the bus hears of one input. */
  function Reported(i: Input): seq<Event> {
    match i
    case Transcribed(route, busy) => (if busy then [BargeIn] else []) + Matched(route)
    case Answered(skill, response, isCurrent) => if isCurrent then Played(response) else [SkillCancelled(skill)]
  }

  function AllReported(history: seq<Input>): seq<Event> {
    if history == [] then [] else AllReported(history[..|history| - 1]) + Reported(history[|history| - 1])
  }

  lemma FinalReported(v: View, route: Route)
    ensures HandleFinal(v, route).1.events == Reported(Transcribed(route, v.pending.Some? || v.priorWork))
  {
  }

  lemma OutcomeReported(v: View, o: Outcome)
    ensures HandleOutcome(v, o).1.events == Reported(Answered(o.skill, o.response, o.epoch == v.epoch))
  {
  }

  lemma ReportedSnoc(history: seq<Input>, i: Input)
    ensures AllReported(history + [i]) == AllReported(history) + Reported(i)
  {
    assert (history + [i])[..|history|] == history;
  }

  lemma ReportedStep(s: System, l: Label)
    requires Enabled(s, l) && s.events == AllReported(s.history)
    ensures Apply(s, l).events == AllReported(Apply(s, l).history)
  {
    match l
    case Final(route) =>
      FinalReported(s.view, route);
      ReportedSnoc(s.history, Transcribed(route, s.view.pending.Some? || s.view.priorWork));
    case Receive =>
      var o := s.outcomes[0];
      OutcomeReported(s.view, o);
      ReportedSnoc(s.history, Answered(o.skill, o.response, o.epoch == s.view.epoch));
    case _ =>
  }

  /** The event bus hears, in order and nothing else, the barge-ins, what was matched,
      invoked or handed to the LLM, what was played, and the cancellations. */
  lemma {:induction false} EventsTellTheHistory(labels: seq<Label>)
    requires IsRun(labels)
    ensures Reached(labels).events == AllReported(Reached(labels).history)
  {
    if labels != [] {
      EventsTellTheHistory(labels[..|labels| - 1]);
      ReportedStep(Reached(labels[..|labels| - 1]), labels[|labels| - 1]);
    }
  }

  /** A final transcript counts as an interruption exactly when the utterance before it
      still has its outcome outstanding, or was already answered or handed to the LLM. */
  lemma BusyMeansOutstanding(labels: seq<Label>, route: Route)
    requires IsRun(labels) && Enabled(Reached(labels), Final(route)) && Reached(labels).finals <= U64_MAX
    ensures var s := Reached(labels);
            var busy := Spoken(labels) || exists d :: d in Outstanding(s) && d.epoch == s.view.epoch;
            Apply(s, Final(route)).history == s.history + [Transcribed(route, busy)]
  {
    PriorWorkIffSpoken(labels);
    PendingIffUnresolved(labels);
  }
}
