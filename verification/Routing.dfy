/** The router of one session: utterance epochs, one cancellable dispatch, barge-in. */
module Routing {
  import opened Ints
  import opened Options
  import opened Tokens

  /** What a skill's dispatch comes back with. */
  datatype Response =
    | Say(text: string)
    | AskLlm(prompt: string)
    | Empty
    | Sampled
    | Volume
    | SkillError

  /** A dispatch outcome; a cancelled dispatch reports an error. */
  datatype Outcome = Outcome(epoch: nat, skill: string, response: Response)

  datatype Pending = Pending(epoch: nat, skill: string)

  datatype Event =
    | BargeIn
    | IntentMatched
    | SkillInvoked
    | LlmFallback
    | SkillCancelled(skill: string)
    | AudioChunk
    | VolumeChanged

  /** Where the matcher and the wiring send a final transcript: to a skill, to the
      LLM after a match nobody can dispatch, or to the LLM for want of a match. */
  datatype Route =
    | ToSkill(skill: string, slotsMissing: bool)
    | Undispatched(prompt: string)
    | NoMatch(prompt: string)

  datatype View = View(epoch: nat, pending: Option<Pending>, priorWork: bool)

  /** What one arm of the loop sends out. */
  datatype Effects = Effects(tokens: seq<TtsMsg>, prompts: seq<string>, events: seq<Event>)

  function EnsureSentenceBoundary(text: string): string {
    if text != "" && text[|text| - 1] in {'.', '!', '?'} then text else text + "."
  }

  function HandleFinal(v: View, route: Route): (View, Effects) {
    var interrupts := v.pending.Some? || v.priorWork;
    var epoch := SaturatingNext(v.epoch);
    var barge := if interrupts then [BargeIn] else [];
    match route
    case ToSkill(skill, missing) =>
      (View(epoch, Some(Pending(epoch, skill)), false),
       Effects([], [], barge + [IntentMatched] + if missing then [LlmFallback] else []))
    case Undispatched(prompt) =>
      (View(epoch, None, true), Effects([], [prompt], barge + [IntentMatched, SkillInvoked, LlmFallback]))
    case NoMatch(prompt) =>
      (View(epoch, None, true), Effects([], [prompt], barge + [LlmFallback]))
  }

  function HandleOutcome(v: View, o: Outcome): (View, Effects) {
    var pending := if v.pending == Some(Pending(o.epoch, o.skill)) then None else v.pending;
    var v' := v.(pending := pending);
    if o.epoch != v.epoch then (v', Effects([], [], [SkillCancelled(o.skill)]))
    else
      match o.response
      case Say(text) => (v'.(priorWork := true), Effects([Token(EnsureSentenceBoundary(text)), EndOfAnswer], [], []))
      case AskLlm(prompt) => (v'.(priorWork := true), Effects([], [prompt], [LlmFallback]))
      case Empty => (v', Effects([EndOfAnswer], [], []))
      case Sampled => (v', Effects([EndOfAnswer], [], [AudioChunk]))
      case Volume => (v', Effects([EndOfAnswer], [], [VolumeChanged]))
      case SkillError => (v', Effects([EndOfAnswer], [], []))
  }

  class Router {
    var epoch: nat
    var pendingDispatch: Option<Pending>
    var priorWorkInFlight: bool

    ghost function Now(): View
      reads this
    {
      View(epoch, pendingDispatch, priorWorkInFlight)
    }

    constructor ()
      ensures Now() == View(0, None, false)
    {
      epoch, pendingDispatch, priorWorkInFlight := 0, None, false;
    }

    method OnFinal(route: Route) returns (out: Effects)
      modifies this
      ensures (Now(), out) == HandleFinal(old(Now()), route)
    {
      epoch := SaturatingNext(epoch);
      var hasPriorWork := pendingDispatch.Some? || priorWorkInFlight;
      var events := if hasPriorWork then [BargeIn] else [];
      if hasPriorWork {
        pendingDispatch := None;
        priorWorkInFlight := false;
      }
      match route
      case ToSkill(skill, slotsMissing) =>
        events := events + [IntentMatched];
        events := events + if slotsMissing then [LlmFallback] else [];
        pendingDispatch := Some(Pending(epoch, skill));
        return Effects([], [], events);
      case Undispatched(prompt) =>
        events := events + [IntentMatched, SkillInvoked, LlmFallback];
        priorWorkInFlight := true;
        return Effects([], [prompt], events);
      case NoMatch(prompt) =>
        events := events + [LlmFallback];
        priorWorkInFlight := true;
        return Effects([], [prompt], events);
    }

    method OnOutcome(o: Outcome) returns (out: Effects)
      modifies this
      ensures (Now(), out) == HandleOutcome(old(Now()), o)
    {
      if pendingDispatch.Some? && pendingDispatch.value.epoch == o.epoch && pendingDispatch.value.skill == o.skill {
        pendingDispatch := None;
      }
      if o.epoch != epoch {
        return Effects([], [], [SkillCancelled(o.skill)]);
      }
      var handsOffToLlm := o.response.AskLlm?;
      var tokens, prompts, events := [], [], [];
      match o.response {
        case Say(text) =>
          tokens := [Token(EnsureSentenceBoundary(text))];
          priorWorkInFlight := true;
        case AskLlm(prompt) =>
          events := [LlmFallback];
          prompts := [prompt];
          priorWorkInFlight := true;
        case Empty =>
        case Sampled => events := [AudioChunk];
        case Volume => events := [VolumeChanged];
        case SkillError =>
      }
      if !handsOffToLlm {
        tokens := tokens + [EndOfAnswer];
        if o.response.Say? {
          assert tokens == [Token(EnsureSentenceBoundary(o.response.text)), EndOfAnswer];
        } else {
          assert tokens == [EndOfAnswer];
        }
      }
      return Effects(tokens, prompts, events);
    }
  }
}
