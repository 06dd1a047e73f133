/** End-of-utterance detection on the satellite: an adaptive noise floor sets the
    bar a frame must reach to count as speech. */
module Silence {
  import opened Ints
  import opened Loudness
  import opened Options

  const FLOOR_WARMUP_FRAMES: nat := 10
  const LEVEL_MAX: nat := 32768
  const FLOOR_MAX: nat := 32776

  // ----- The noise floor as a function of everything heard so far -----

  function DivCeil8(a: nat): (q: nat)
    ensures a <= 8 * q < a + 8
  {
    (a + 7) / 8
  }

  function FloorStep(floor: Option<nat>, r: nat): nat {
    match floor
    case None => if r < 1 then 1 else r
    case Some(f) =>
      if r < f then f - DivCeil8(f - r)
      else f + if f / 4096 < 1 then 1 else f / 4096
  }

  /** levels: one entry per frame since construction, observed or pushed. */
  function FloorAfter(levels: seq<nat>): Option<nat> {
    if |levels| <= FLOOR_WARMUP_FRAMES then None
    else Some(FloorStep(FloorAfter(levels[..|levels| - 1]), levels[|levels| - 1]))
  }

  function Bar(minThreshold: nat, levels: seq<nat>): nat {
    var b := match FloorAfter(levels) case None => 0 case Some(f) => 3 * f;
    if b < minThreshold then minThreshold else b
  }

  ghost predicate AreLevels(levels: seq<nat>) {
    forall i :: 0 <= i < |levels| ==> levels[i] <= LEVEL_MAX
  }

  /** The learned floor stays in [0, 32776] for every history of frame levels. */
  lemma {:induction false} FloorBounded(levels: seq<nat>)
    requires AreLevels(levels)
    ensures FloorAfter(levels).Some? ==> FloorAfter(levels).value <= FLOOR_MAX
  {
    if |levels| > FLOOR_WARMUP_FRAMES {
      FloorBounded(levels[..|levels| - 1]);
    }
  }

  /** A quieter frame pulls the floor strictly down but never past itself; any
      other frame pushes it up by at most 1 + 1/4096 of it. */
  lemma FloorMoves(levels: seq<nat>, r: nat)
    requires FloorAfter(levels).Some?
    ensures FloorAfter(levels + [r]).Some?
    ensures var f, g := FloorAfter(levels).value, FloorAfter(levels + [r]).value;
            if r < f then r <= g < f else f < g <= f + 1 + f / 4096
  {
    assert (levels + [r])[..|levels|] == levels;
  }

  /** Ten frames teach nothing; the eleventh is the first floor, at least 1. */
  lemma FirstFloor(levels: seq<nat>)
    ensures |levels| <= 10 ==> FloorAfter(levels).None?
    ensures |levels| == 11 ==> FloorAfter(levels) == Some(if levels[10] == 0 then 1 else levels[10])
    ensures |levels| > 10 ==> FloorAfter(levels).Some?
  {
  }

  /** A quieter frame leaves seven eighths of the gap, rounded down; any other raises the
      floor by its 4096th, rounded down, but by 1 at least. */
  lemma FloorRates(levels: seq<nat>, r: nat)
    requires FloorAfter(levels).Some?
    ensures var f, g := FloorAfter(levels).value, FloorAfter(levels + [r]).value;
            if r < f then 8 * (g - r) <= 7 * (f - r) < 8 * (g - r) + 8
            else if f < 4096 then g == f + 1
            else 4096 * (g - f) <= f < 4096 * (g - f) + 4096
  {
    assert (levels + [r])[..|levels|] == levels;
  }

  /** In a steady room of level r the floor settles at r, alternating with r + 1, and the
      bar at three times that. */
  lemma {:induction false} SteadyRoom(levels: seq<nat>, r: nat, minThreshold: nat)
    requires 1 <= r < 8191 && |levels| > 10 && forall i :: 0 <= i < |levels| ==> levels[i] == r
    ensures var f := if |levels| % 2 == 1 then r else r + 1;
            && FloorAfter(levels) == Some(f)
            && Bar(minThreshold, levels) == if 3 * f < minThreshold then minThreshold else 3 * f
  {
    if |levels| > 11 {
      SteadyRoom(levels[..|levels| - 1], r, minThreshold);
    }
  }

  // ----- The utterance since the last reset -----

  /** A pushed frame: its level, and the bar in force before it was heard. */
  datatype Heard = Heard(level: nat, bar: nat)

  predicate Loud(h: Heard) {
    h.level >= h.bar
  }

  ghost predicate LastLoudAt(u: seq<Heard>, k: int) {
    && 0 <= k < |u|
    && Loud(u[k])
    && forall j :: k < j < |u| ==> !Loud(u[j])
  }

  /** The promise: the newest frame is quiet, speech has been heard, and the quiet
      run since the last loud frame has lasted at least silenceMs. */
  ghost predicate EndOfUtterance(u: seq<Heard>, silenceMs: nat, frameMs: nat) {
    && u != [] && !Loud(u[|u| - 1])
    && exists k :: LastLoudAt(u, k) && (|u| - 1 - k) * frameMs >= silenceMs
  }

  ghost function LastLoud(u: seq<Heard>): (k: int)
    ensures -1 <= k < |u|
  {
    if u == [] then -1
    else if Loud(u[|u| - 1]) then |u| - 1
    else LastLoud(u[..|u| - 1])
  }

  lemma {:induction false} LastLoudUnique(u: seq<Heard>)
    ensures forall k :: LastLoudAt(u, k) <==> 0 <= k && k == LastLoud(u)
  {
    if u != [] && !Loud(u[|u| - 1]) {
      var init := u[..|u| - 1];
      LastLoudUnique(init);
      forall k ensures LastLoudAt(u, k) <==> LastLoudAt(init, k) {
        if LastLoudAt(init, k) {
          assert Loud(u[k]);
        }
        if LastLoudAt(u, k) {
          assert k != |u| - 1;
          assert forall j :: k < j < |init| ==> init[j] == u[j];
        }
      }
    }
  }

  function RunMs(u: seq<Heard>, k: int, frameMs: nat): nat {
    if 0 <= k < |u| then (|u| - 1 - k) * frameMs else 0
  }

  lemma LastLoudGrows(u: seq<Heard>, h: Heard)
    ensures LastLoud(u + [h]) == if Loud(h) then |u| else LastLoud(u)
  {
    assert (u + [h])[..|u|] == u;
  }

  lemma QuietFrameAdds(u: seq<Heard>, k: int, h: Heard, frameMs: nat)
    requires 0 <= k < |u|
    ensures RunMs(u + [h], k, frameMs) == RunMs(u, k, frameMs) + frameMs
  {
    assert (|u| - k) * frameMs == (|u| - 1 - k) * frameMs + frameMs;
  }

  /** The quiet run after one more frame. */
  lemma RunAfter(u: seq<Heard>, h: Heard, frameMs: nat)
    ensures RunMs(u + [h], LastLoud(u + [h]), frameMs) ==
            if Loud(h) || LastLoud(u) < 0 then 0 else RunMs(u, LastLoud(u), frameMs) + frameMs
  {
    LastLoudGrows(u, h);
    if !Loud(h) && 0 <= LastLoud(u) {
      QuietFrameAdds(u, LastLoud(u), h, frameMs);
    }
  }

  /** The tracker's two counters decide exactly the promise. */
  lemma CountersDecide(u: seq<Heard>, silenceMs: nat, frameMs: nat)
    ensures EndOfUtterance(u, silenceMs, frameMs) <==>
              && u != [] && !Loud(u[|u| - 1])
              && 0 <= LastLoud(u) && RunMs(u, LastLoud(u), frameMs) >= silenceMs
  {
    LastLoudUnique(u);
    if 0 <= LastLoud(u) {
      assert LastLoudAt(u, LastLoud(u));
    }
  }

  ghost predicate SpeechEndsAt(u: seq<Heard>, k: nat) {
    && k < |u| && u[k].bar <= u[k].level
    && forall j :: k < j < |u| ==> u[j].level < u[j].bar
  }

  /** In levels: some frame reached the bar, all after it stayed below theirs, at least one
      did, and they last long enough. */
  lemma EndMeansQuietAfterSpeech(u: seq<Heard>, silenceMs: nat, frameMs: nat)
    ensures EndOfUtterance(u, silenceMs, frameMs) <==>
            exists k: nat :: SpeechEndsAt(u, k) && k < |u| - 1 && silenceMs <= (|u| - 1 - k) * frameMs
  {
    forall k: nat ensures SpeechEndsAt(u, k) <==> LastLoudAt(u, k) {
    }
  }

  class SilenceTracker {
    const minThreshold: u32
    const silenceMs: u32
    const frameMs: u32
    var runMs: u32
    var floor: Option<u32>
    var seenFrames: u32
    var speechStarted: bool
    ghost var levels: seq<nat>
    ghost var utterance: seq<Heard>

    ghost predicate FloorValid()
      reads this`levels, this`seenFrames, this`floor
    {
      && AreLevels(levels)
      && seenFrames as nat == (if |levels| < U32_MAX then |levels| else U32_MAX)
      && (floor.Some? <==> FloorAfter(levels).Some?)
      && (floor.Some? ==> floor.value as nat == FloorAfter(levels).value <= FLOOR_MAX)
    }

    ghost predicate RunValid()
      reads this`utterance, this`speechStarted, this`runMs
    {
      && (speechStarted <==> 0 <= LastLoud(utterance))
      && runMs as nat == RunMs(utterance, LastLoud(utterance), frameMs as nat)
    }

    ghost predicate Valid()
      reads this
    {
      FloorValid() && RunValid()
    }

    constructor (minThreshold: u32, silenceMs: u32, frameMs: u32)
      ensures Valid() && levels == [] && utterance == []
      ensures this.minThreshold == minThreshold && this.silenceMs == silenceMs && this.frameMs == frameMs
    {
      this.minThreshold, this.silenceMs, this.frameMs := minThreshold, silenceMs, frameMs;
      runMs, floor, seenFrames, speechStarted := 0, None, 0, false;
      levels, utterance := [], [];
    }

    method Reset()
      requires Valid()
      modifies this
      ensures Valid() && utterance == [] && levels == old(levels)
    {
      runMs, speechStarted := 0, false;
      utterance := [];
    }

    method Observe(frame: seq<i16>)
      requires Valid() && |frame| <= U32_MAX
      modifies this
      ensures Valid()
      ensures levels == old(levels) + [Level(frame)] && utterance == old(utterance)
    {
      var r := Rms(frame);
      UpdateFloor(r);
    }

    method Push(frame: seq<i16>) returns (ended: bool)
      requires Valid() && |frame| <= U32_MAX
      requires speechStarted && Level(frame) < Bar(minThreshold as nat, levels) ==>
                 runMs as nat + frameMs as nat <= U32_MAX
      modifies this
      ensures Valid()
      ensures levels == old(levels) + [Level(frame)]
      ensures utterance == old(utterance) + [Heard(Level(frame), Bar(minThreshold as nat, old(levels)))]
      ensures ended <==> EndOfUtterance(utterance, silenceMs as nat, frameMs as nat)
    {
      var r := Rms(frame);
      var threshold := Threshold();
      UpdateFloor(r);
      ended := Count(r, threshold);
    }

    /** The frame's effect on the utterance, its level against the bar. */
    method Count(r: u32, threshold: u32) returns (ended: bool)
      requires RunValid() && (speechStarted && r < threshold ==> runMs as nat + frameMs as nat <= U32_MAX)
      modifies this`speechStarted, this`runMs, this`utterance
      ensures RunValid() && utterance == old(utterance) + [Heard(r as nat, threshold as nat)]
      ensures ended <==> EndOfUtterance(utterance, silenceMs as nat, frameMs as nat)
    {
      ghost var h := Heard(r as nat, threshold as nat);
      LastLoudGrows(utterance, h);
      RunAfter(utterance, h, frameMs as nat);
      CountersDecide(utterance + [h], silenceMs as nat, frameMs as nat);
      if r >= threshold {
        speechStarted := true;
        runMs := 0;
        utterance := utterance + [h];
        return false;
      }
      if !speechStarted {
        utterance := utterance + [h];
        return false;
      }
      runMs := runMs + frameMs;
      utterance := utterance + [h];
      return runMs >= silenceMs;
    }

    /** Three times the floor; the saturation of the product is never reached. */
    method Threshold() returns (t: u32)
      requires Valid()
      ensures t as nat == Bar(minThreshold as nat, levels)
    {
      t := match floor case None => 0 case Some(f) => f * 3;
      if t < minThreshold {
        t := minThreshold;
      }
    }

    method UpdateFloor(r: u32)
      requires FloorValid() && r as nat <= LEVEL_MAX
      modifies this`seenFrames, this`floor, this`levels
      ensures FloorValid() && levels == old(levels) + [r as nat]
    {
      levels := levels + [r as nat];
      assert levels[..|levels| - 1] == old(levels);
      FloorBounded(levels);
      seenFrames := if seenFrames == U32_MAX as u32 then seenFrames else seenFrames + 1;
      if seenFrames <= FLOOR_WARMUP_FRAMES as u32 {
        return;
      }
      floor := Some(NextFloor(floor, r));
    }

    /** update_floor's new value, on u32: nothing underflows or overflows. */
    static function NextFloor(floor: Option<u32>, r: u32): (g: u32)
      requires r as nat <= LEVEL_MAX
      requires floor.Some? ==> floor.value as nat <= FLOOR_MAX
      ensures g as nat == FloorStep(if floor.None? then None else Some(floor.value as nat), r as nat)
    {
      match floor
      case None => if r < 1 then 1 else r
      case Some(f) =>
        if r < f then f - (f - r + 7) / 8
        else f + if f / 4096 < 1 then 1 else f / 4096
    }
  }
}
