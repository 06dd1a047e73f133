/** The circuit breaker in front of every provider, and the retrying synthesiser
    behind it. Times are readings of one clock. */
module Breaker {
  import opened Arithmetic
  import opened Options

  datatype Config = Config(failureThreshold: nat, openDuration: nat, halfOpenProbeGap: nat)

  datatype Circuit =
    | Closed(failures: nat)
    | Open(until: nat)
    | HalfOpen(lastProbe: nat)

  /** Ok, or the time the caller should wait. */
  datatype Verdict = Permitted | Rejected(retryAfter: nat)

  function CanCall(cfg: Config, c: Circuit, now: nat): (Circuit, Verdict) {
    match c
    case Closed(_) => (c, Permitted)
    case Open(until) => if until <= now then (HalfOpen(now), Permitted) else (c, Rejected(until - now))
    case HalfOpen(lastProbe) =>
      var elapsed := if lastProbe <= now then now - lastProbe else 0;
      if cfg.halfOpenProbeGap <= elapsed then (HalfOpen(now), Permitted)
      else (c, Rejected(cfg.halfOpenProbeGap - elapsed))
  }

  function RecordFailure(cfg: Config, c: Circuit, now: nat): Circuit {
    match c
    case Closed(failures) =>
      if cfg.failureThreshold <= failures + 1 then Open(now + cfg.openDuration) else Closed(failures + 1)
    case HalfOpen(_) => Open(now + cfg.openDuration)
    case Open(_) => c
  }

  const RESET: Circuit := Closed(0)

  /** The number of failures that open a fresh circuit: a threshold of 0 acts as 1. */
  function Trip(cfg: Config): (n: nat)
    ensures 1 <= n
  {
    if cfg.failureThreshold == 0 then 1 else cfg.failureThreshold
  }

  class CircuitBreaker {
    const cfg: Config
    var state: Circuit

    constructor (cfg: Config)
      ensures this.cfg == cfg && state == RESET
    {
      this.cfg := cfg;
      state := RESET;
    }

    method MayCall(now: nat) returns (v: Verdict)
      modifies this
      ensures (state, v) == CanCall(cfg, old(state), now)
    {
      match state
      case Closed(_) => return Permitted;
      case Open(until) =>
        if until <= now {
          state := HalfOpen(now);
          return Permitted;
        }
        return Rejected(until - now);
      case HalfOpen(lastProbe) =>
        var elapsed := if lastProbe <= now then now - lastProbe else 0;
        if cfg.halfOpenProbeGap <= elapsed {
          state := HalfOpen(now);
          return Permitted;
        }
        return Rejected(cfg.halfOpenProbeGap - elapsed);
    }

    method Succeeded()
      modifies this
      ensures state == RESET
    {
      state := Closed(0);
    }

    method Failed(now: nat)
      modifies this
      ensures state == RecordFailure(cfg, old(state), now)
    {
      match state
      case Closed(failures) =>
        var newFailures := failures + 1;
        if newFailures >= cfg.failureThreshold {
          state := Open(now + cfg.openDuration);
        } else {
          state := Closed(newFailures);
        }
      case HalfOpen(_) => state := Open(now + cfg.openDuration);
      case Open(_) =>
    }
  }

  // ----- The closed counter, for any callers in any order -----

  datatype Op = Ask(now: nat) | Success | Failure(now: nat)

  function After(cfg: Config, ops: seq<Op>): Circuit {
    if ops == [] then RESET
    else
      var c := After(cfg, ops[..|ops| - 1]);
      match ops[|ops| - 1]
      case Ask(now) => CanCall(cfg, c, now).0
      case Success => RESET
      case Failure(now) => RecordFailure(cfg, c, now)
  }

  function FailuresSinceSuccess(ops: seq<Op>): nat {
    if ops == [] then 0
    else
      match ops[|ops| - 1]
      case Ask(_) => FailuresSinceSuccess(ops[..|ops| - 1])
      case Success => 0
      case Failure(_) => FailuresSinceSuccess(ops[..|ops| - 1]) + 1
  }

  /** In every history the circuit is closed exactly while fewer failures than the
      trip count have been recorded since the last success, and then its counter
      is that number. */
  lemma {:induction false} ClosedIffFewFailures(cfg: Config, ops: seq<Op>)
    ensures After(cfg, ops).Closed? <==> FailuresSinceSuccess(ops) < Trip(cfg)
    ensures After(cfg, ops).Closed? ==> After(cfg, ops).failures == FailuresSinceSuccess(ops)
  {
    if ops != [] {
      ClosedIffFewFailures(cfg, ops[..|ops| - 1]);
    }
  }

  /** The clock reading an operation carries; a success has no bearing on the clock here. */
  function TimeOf(op: Op): nat {
    match op case Ask(now) => now case Failure(now) => now case Success => 0
  }

  /** When the last probe was let through, if no success has been recorded since: a
      permitted question while the circuit is not closed. */
  function LastProbe(cfg: Config, ops: seq<Op>): Option<nat> {
    if ops == [] then None
    else
      var init := ops[..|ops| - 1];
      match ops[|ops| - 1]
      case Success => None
      case Failure(_) => LastProbe(cfg, init)
      case Ask(now) =>
        if !After(cfg, init).Closed? && CanCall(cfg, After(cfg, init), now).1.Permitted? then Some(now)
        else LastProbe(cfg, init)
  }

  /** The reading of the failure that last opened the circuit. */
  function OpenedAt(cfg: Config, ops: seq<Op>): nat {
    if ops == [] then 0
    else
      var init, op := ops[..|ops| - 1], ops[|ops| - 1];
      if op.Failure? && !After(cfg, init).Open? && After(cfg, ops).Open? then op.now else OpenedAt(cfg, init)
  }

  /** The state in terms of the history, for readings in any order. */
  ghost predicate ProbeInv(cfg: Config, c: Circuit, last: Option<nat>, openedAt: nat) {
    match c
    case Closed(_) => last.None?
    case HalfOpen(p) => last == Some(p)
    case Open(until) => until == openedAt + cfg.openDuration
  }

  lemma {:induction false} ProbeRun(cfg: Config, ops: seq<Op>)
    ensures ProbeInv(cfg, After(cfg, ops), LastProbe(cfg, ops), OpenedAt(cfg, ops))
  {
    if ops != [] {
      ProbeRun(cfg, ops[..|ops| - 1]);
    }
  }

  /** The shortest time a probe should keep the next one away: the probe gap, or a
      whole open period if that is shorter. */
  function Spacing(cfg: Config): nat {
    if cfg.halfOpenProbeGap <= cfg.openDuration then cfg.halfOpenProbeGap else cfg.openDuration
  }

  /** Whoever asks next, at the last probe's reading or later, is refused too early. */
  ghost predicate NextProbeSpaced(cfg: Config, ops: seq<Op>, last: nat) {
    forall now: nat :: last <= now && CanCall(cfg, After(cfg, ops), now).1.Permitted? ==> last + Spacing(cfg) <= now
  }

  /** Callers read the clock before they take the lock, so readings may take effect
      out of order. Probes stay spaced exactly if the circuit was not opened again
      by a failure read too long before the probe. */
  lemma ProbesAreSpacedIff(cfg: Config, ops: seq<Op>)
    requires !After(cfg, ops).Closed? && LastProbe(cfg, ops).Some?
    ensures var last := LastProbe(cfg, ops).value;
            NextProbeSpaced(cfg, ops, last) <==>
            After(cfg, ops).HalfOpen? || Spacing(cfg) == 0
            || last + Spacing(cfg) <= OpenedAt(cfg, ops) + cfg.openDuration
  {
    ProbeRun(cfg, ops);
    var c, last := After(cfg, ops), LastProbe(cfg, ops).value;
    if c.Open? && Spacing(cfg) != 0 && c.until < last + Spacing(cfg) {
      var now := if c.until <= last then last else c.until;
      assert CanCall(cfg, c, now).1.Permitted? && now < last + Spacing(cfg);
    }
  }

  /** A failure read at 12 takes effect after the probe of 20, and the next probe is
      let through at 22. */
  lemma StaleFailureShortensTheGap(cfg: Config, ops: seq<Op>)
    requires cfg == Config(1, 10, 5) && ops == [Failure(0), Ask(20), Failure(12)]
    ensures LastProbe(cfg, ops) == Some(20) && CanCall(cfg, After(cfg, ops), 22).1.Permitted?
    ensures !NextProbeSpaced(cfg, ops, 20)
  {
    var one, two := [Failure(0)], [Failure(0), Ask(20)];
    assert one[..0] == [] && two[..1] == one && ops[..2] == two;
    assert After(cfg, one) == Open(10);
    assert After(cfg, two) == HalfOpen(20);
    assert After(cfg, ops) == Open(22);
  }

  ghost predicate Monotone(ops: seq<Op>) {
    forall i, j :: 0 <= i < j < |ops| && !ops[i].Success? && !ops[j].Success? ==> TimeOf(ops[i]) <= TimeOf(ops[j])
  }

  lemma {:induction false} ProbeBeforeOpening(cfg: Config, ops: seq<Op>, now: nat)
    requires Monotone(ops) && forall i :: 0 <= i < |ops| && !ops[i].Success? ==> TimeOf(ops[i]) <= now
    ensures LastProbe(cfg, ops).Some? ==> LastProbe(cfg, ops).value <= now
    ensures After(cfg, ops).Open? && LastProbe(cfg, ops).Some? ==> LastProbe(cfg, ops).value <= OpenedAt(cfg, ops)
  {
    if ops != [] {
      var init, op := ops[..|ops| - 1], ops[|ops| - 1];
      ProbeBeforeOpening(cfg, init, if op.Success? then now else TimeOf(op));
    }
  }

  /** Probes are rationed for all callers whose readings take effect in order: two
      probes with no success between them are at least the probe gap or a whole open
      period apart. */
  lemma ProbesAreSpaced(cfg: Config, ops: seq<Op>, now: nat)
    requires Monotone(ops) && forall i :: 0 <= i < |ops| && !ops[i].Success? ==> TimeOf(ops[i]) <= now
    requires !After(cfg, ops).Closed? && CanCall(cfg, After(cfg, ops), now).1.Permitted?
    requires LastProbe(cfg, ops).Some?
    ensures now >= LastProbe(cfg, ops).value + Spacing(cfg)
  {
    ProbeBeforeOpening(cfg, ops, now);
    ProbesAreSpacedIff(cfg, ops);
    assert NextProbeSpaced(cfg, ops, LastProbe(cfg, ops).value);
  }

  // ----- One synthesize call -----

  /** One inner call: when it was started, whether it succeeded, when it ended. */
  datatype Attempt = Attempt(start: nat, ok: bool, end: nat)

  /** A synthesize call: when it asked the breaker, and how its attempts would go. */
  datatype Call = Call(asked: nat, attempts: seq<Attempt>)

  datatype Reply = Spoken | CircuitOpen | Exhausted

  /** The number of attempts that are really made: up to the first success. */
  function Made(attempts: seq<Attempt>): (k: nat)
    ensures k <= |attempts|
  {
    if attempts == [] then 0
    else if attempts[0].ok then 1
    else 1 + Made(attempts[1..])
  }

  function AfterAttempts(cfg: Config, c: Circuit, attempts: seq<Attempt>): (Circuit, Reply)
    decreases |attempts|
  {
    if attempts == [] then (c, Exhausted)
    else if attempts[0].ok then (RESET, Spoken)
    else AfterAttempts(cfg, RecordFailure(cfg, c, attempts[0].end), attempts[1..])
  }

  function Starts(attempts: seq<Attempt>): seq<nat> {
    if attempts == [] then [] else Starts(attempts[..|attempts| - 1]) + [attempts[|attempts| - 1].start]
  }

  /** Attempts are made up to the first success, and only that makes the call a success. */
  lemma {:induction false} StopsAtSuccess(cfg: Config, c: Circuit, attempts: seq<Attempt>)
    ensures var k, r := Made(attempts), AfterAttempts(cfg, c, attempts);
            && (forall i :: 0 <= i < k - 1 ==> !attempts[i].ok)
            && (r.1 == Spoken <==> exists i :: 0 <= i < |attempts| && attempts[i].ok)
            && (r.1 == Spoken ==> 0 < k && attempts[k - 1].ok && r.0 == Closed(0))
            && (r.1 != Spoken ==> k == |attempts| && r.1 == Exhausted)
    decreases |attempts|
  {
    if attempts != [] && !attempts[0].ok {
      StopsAtSuccess(cfg, RecordFailure(cfg, c, attempts[0].end), attempts[1..]);
      assert forall i :: 0 < i < |attempts| ==> attempts[i] == attempts[1..][i - 1];
      if exists i :: 0 <= i < |attempts| && attempts[i].ok {
        var i :| 0 <= i < |attempts| && attempts[i].ok;
        assert attempts[1..][i - 1].ok;
      }
    }
  }

  /** RetryingTts::synthesize over a shared breaker; starts lists when inner calls began. */
  method Synthesize(breaker: CircuitBreaker, call: Call) returns (reply: Reply, starts: seq<nat>)
    modifies breaker
    ensures var (c, v) := CanCall(breaker.cfg, old(breaker.state), call.asked);
            if v.Rejected? then
              breaker.state == c && reply == CircuitOpen && starts == []
            else
              && (breaker.state, reply) == AfterAttempts(breaker.cfg, c, call.attempts)
              && starts == Starts(call.attempts[..Made(call.attempts)])
  {
    var v := breaker.MayCall(call.asked);
    if v.Rejected? {
      return CircuitOpen, [];
    }
    ghost var c := breaker.state;
    starts := [];
    for i := 0 to |call.attempts|
      invariant AfterAttempts(breaker.cfg, c, call.attempts)
             == AfterAttempts(breaker.cfg, breaker.state, call.attempts[i..])
      invariant Made(call.attempts) == i + Made(call.attempts[i..])
      invariant starts == Starts(call.attempts[..i])
    {
      var a := call.attempts[i];
      starts := starts + [a.start];
      assert call.attempts[..i + 1][..i] == call.attempts[..i];
      assert call.attempts[i..][1..] == call.attempts[i + 1..];
      if a.ok {
        breaker.Succeeded();
        return Spoken, starts;
      }
      breaker.Failed(a.end);
    }
    assert call.attempts[..|call.attempts|] == call.attempts;
    return Exhausted, starts;
  }

  // ----- Load on a dead backend -----

  /** What one sequential caller has done so far: the circuit, when each inner call
      started, and when the circuit first opened. */
  datatype Outage = Outage(circuit: Circuit, starts: seq<nat>, trippedAt: Option<nat>)

  /** When the failing attempts open the circuit. */
  function FirstOpening(cfg: Config, c: Circuit, attempts: seq<Attempt>): nat
    decreases |attempts|
  {
    if attempts == [] then 0
    else if RecordFailure(cfg, c, attempts[0].end).Open? then attempts[0].end
    else FirstOpening(cfg, RecordFailure(cfg, c, attempts[0].end), attempts[1..])
  }

  function AdvanceOutage(cfg: Config, o: Outage, call: Call): Outage {
    var (c, v) := CanCall(cfg, o.circuit, call.asked);
    if v.Rejected? then o.(circuit := c)
    else
      var c' := AfterAttempts(cfg, c, call.attempts).0;
      Outage(c', o.starts + Starts(call.attempts),
             if o.trippedAt.None? && c'.Open? then Some(FirstOpening(cfg, c, call.attempts)) else o.trippedAt)
  }

  function OutageOf(cfg: Config, calls: seq<Call>): Outage {
    if calls == [] then Outage(RESET, [], None)
    else AdvanceOutage(cfg, OutageOf(cfg, calls[..|calls| - 1]), calls[|calls| - 1])
  }

  /** The backend is down and the clock is monotone within a call. */
  ghost predicate FailingCall(call: Call, maxAttempts: nat) {
    && |call.attempts| == maxAttempts
    && (forall i :: 0 <= i < maxAttempts ==>
         && !call.attempts[i].ok
         && call.asked <= call.attempts[i].start <= call.attempts[i].end)
    && (forall i, j :: 0 <= i < j < maxAttempts ==> call.attempts[i].end <= call.attempts[j].start)
  }

  function StartedBy(starts: seq<nat>, t: nat): (n: nat)
    ensures n <= |starts|
  {
    if starts == [] then 0
    else StartedBy(starts[..|starts| - 1], t) + if starts[|starts| - 1] <= t then 1 else 0
  }

  lemma {:induction false} StartedByAppend(a: seq<nat>, b: seq<nat>, t: nat)
    ensures StartedBy(a + b, t) == StartedBy(a, t) + StartedBy(b, t)
  {
    if b == [] {
      assert a + b == a;
    } else {
      StartedByAppend(a, b[..|b| - 1], t);
      assert (a + b)[..|a + b| - 1] == a + b[..|b| - 1];
    }
  }

  lemma {:induction false} NoneStartedBefore(attempts: seq<Attempt>, t: nat)
    requires forall i :: 0 <= i < |attempts| ==> t < attempts[i].start
    ensures StartedBy(Starts(attempts), t) == 0
  {
    if attempts != [] {
      NoneStartedBefore(attempts[..|attempts| - 1], t);
    }
  }

  lemma {:induction false} StartsLength(attempts: seq<Attempt>)
    ensures |Starts(attempts)| == |attempts|
  {
    if attempts != [] {
      StartsLength(attempts[..|attempts| - 1]);
    }
  }

  /** A run of failures moves the circuit along a straight line. */
  lemma {:induction false} FailureRun(cfg: Config, c: Circuit, attempts: seq<Attempt>)
    requires forall i :: 0 <= i < |attempts| ==> !attempts[i].ok
    requires c.Closed? ==> c.failures < Trip(cfg)
    ensures var c' := AfterAttempts(cfg, c, attempts).0;
            match c
            case Open(_) => c' == c
            case HalfOpen(_) => c' == if attempts == [] then c else Open(attempts[0].end + cfg.openDuration)
            case Closed(f) =>
              if f + |attempts| < Trip(cfg) then c' == Closed(f + |attempts|)
              else c' == Open(FirstOpening(cfg, c, attempts) + cfg.openDuration)
    ensures c.Closed? && Trip(cfg) <= c.failures + |attempts| ==>
              exists i :: 0 <= i < |attempts| && FirstOpening(cfg, c, attempts) == attempts[i].end
    decreases |attempts|
  {
    if attempts != [] {
      var c1 := RecordFailure(cfg, c, attempts[0].end);
      FailureRun(cfg, c1, attempts[1..]);
      if c1.Open? {
        assert FirstOpening(cfg, c, attempts) == attempts[0].end || !c.Closed?;
      } else if Trip(cfg) <= c.failures + |attempts| {
        var i :| 0 <= i < |attempts[1..]| && FirstOpening(cfg, c1, attempts[1..]) == attempts[1..][i].end;
        assert FirstOpening(cfg, c, attempts) == attempts[i + 1].end;
      }
    }
  }

  /** threshold + (attempts - 1) + attempts * floor(t / openDuration). */
  function LoadBound(cfg: Config, maxAttempts: nat, t: nat): int {
    Trip(cfg) + maxAttempts - 1 + maxAttempts * (if cfg.openDuration == 0 then 0 else t / cfg.openDuration)
  }

  /** The load counted up to t after the trip. */
  ghost predicate LoadHeld(cfg: Config, o: Outage, maxAttempts: nat, t: nat) {
    && o.trippedAt.Some?
    && StartedBy(o.starts, o.trippedAt.value + t) <= LoadBound(cfg, maxAttempts, t)
  }

  /** What is known between two calls. probes counts the half-open rounds since the trip. */
  ghost predicate OutageInv(cfg: Config, o: Outage, maxAttempts: nat, probes: nat) {
    if o.trippedAt.None? then
      o.circuit == Closed(|o.starts|) && |o.starts| < Trip(cfg)
    else
      && o.circuit.Open?
      && 1 <= maxAttempts
      && o.trippedAt.value + (probes + 1) * cfg.openDuration <= o.circuit.until
      && |o.starts| <= Trip(cfg) + maxAttempts - 1 + maxAttempts * probes
      && forall t: nat :: LoadHeld(cfg, o, maxAttempts, t)
  }

  lemma LoadBoundGrows(cfg: Config, maxAttempts: nat, t: nat, rounds: nat)
    requires 0 < cfg.openDuration && rounds * cfg.openDuration <= t
    ensures Trip(cfg) + maxAttempts - 1 + maxAttempts * rounds <= LoadBound(cfg, maxAttempts, t)
  {
    QuotientAtLeast(t, cfg.openDuration, rounds);
    var q := t / cfg.openDuration;
    assert maxAttempts * q == maxAttempts * rounds + maxAttempts * (q - rounds);
  }

  /** The call that opens the circuit. */
  lemma TrippingCall(cfg: Config, o: Outage, call: Call, maxAttempts: nat)
    requires 0 < cfg.openDuration
    requires OutageInv(cfg, o, maxAttempts, 0) && FailingCall(call, maxAttempts) && o.trippedAt.None?
    ensures OutageInv(cfg, AdvanceOutage(cfg, o, call), maxAttempts, 0)
  {
    var o' := AdvanceOutage(cfg, o, call);
    FailureRun(cfg, o.circuit, call.attempts);
    StartsLength(call.attempts);
    if o'.trippedAt.Some? {
      forall t: nat ensures LoadHeld(cfg, o', maxAttempts, t) {
        LoadBoundGrows(cfg, maxAttempts, t, 0);
      }
    }
  }

  /** A half-open round: it starts at least (probes + 1) open periods after the trip. */
  lemma ProbingCall(cfg: Config, o: Outage, call: Call, maxAttempts: nat, probes: nat)
    requires 0 < cfg.openDuration
    requires OutageInv(cfg, o, maxAttempts, probes) && FailingCall(call, maxAttempts) && o.trippedAt.Some?
    requires o.circuit.until <= call.asked
    ensures OutageInv(cfg, AdvanceOutage(cfg, o, call), maxAttempts, probes + 1)
  {
    var o' := AdvanceOutage(cfg, o, call);
    var trip := o.trippedAt.value;
    FailureRun(cfg, HalfOpen(call.asked), call.attempts);
    StartsLength(call.attempts);
    assert (probes + 2) * cfg.openDuration == (probes + 1) * cfg.openDuration + cfg.openDuration;
    assert maxAttempts * (probes + 1) == maxAttempts * probes + maxAttempts;
    forall t: nat ensures LoadHeld(cfg, o', maxAttempts, t) {
      assert LoadHeld(cfg, o, maxAttempts, t);
      if trip + t < call.asked {
        StartedByAppend(o.starts, Starts(call.attempts), trip + t);
        NoneStartedBefore(call.attempts, trip + t);
      } else {
        LoadBoundGrows(cfg, maxAttempts, t, probes + 1);
      }
    }
  }

  lemma OutageStep(cfg: Config, o: Outage, call: Call, maxAttempts: nat, probes: nat) returns (probes': nat)
    requires 0 < cfg.openDuration
    requires OutageInv(cfg, o, maxAttempts, probes) && FailingCall(call, maxAttempts)
    ensures OutageInv(cfg, AdvanceOutage(cfg, o, call), maxAttempts, probes')
  {
    probes' := probes;
    if o.trippedAt.None? {
      probes' := 0;
      TrippingCall(cfg, o, call, maxAttempts);
    } else if o.circuit.until <= call.asked {
      probes' := probes + 1;
      ProbingCall(cfg, o, call, maxAttempts, probes);
    }
  }

  lemma {:induction false} OutageRun(cfg: Config, calls: seq<Call>, maxAttempts: nat) returns (probes: nat)
    requires 0 < cfg.openDuration
    requires forall i :: 0 <= i < |calls| ==> FailingCall(calls[i], maxAttempts)
    ensures OutageInv(cfg, OutageOf(cfg, calls), maxAttempts, probes)
  {
    probes := 0;
    if calls != [] {
      probes := OutageRun(cfg, calls[..|calls| - 1], maxAttempts);
      probes := OutageStep(cfg, OutageOf(cfg, calls[..|calls| - 1]), calls[|calls| - 1], maxAttempts, probes);
    }
  }

  /** While every inner call fails, a sequential caller starting from a fresh
      breaker has, t after the circuit first opened, started at most
      threshold + (attempts - 1) + attempts * floor(t / openDuration) inner calls. */
  lemma LoadWhileDown(cfg: Config, calls: seq<Call>, maxAttempts: nat, t: nat)
    requires 0 < cfg.openDuration
    requires forall i :: 0 <= i < |calls| ==> FailingCall(calls[i], maxAttempts)
    requires OutageOf(cfg, calls).trippedAt.Some?
    ensures LoadHeld(cfg, OutageOf(cfg, calls), maxAttempts, t)
  {
    var probes := OutageRun(cfg, calls, maxAttempts);
  }

  function TotalAttempts(calls: seq<Call>): nat {
    if calls == [] then 0 else TotalAttempts(calls[..|calls| - 1]) + |calls[|calls| - 1].attempts|
  }

  /** Until the circuit opens, no call is refused: every attempt was made, and
      fewer than the trip count. */
  lemma {:induction false} UntrippedMakesEveryAttempt(cfg: Config, calls: seq<Call>, maxAttempts: nat)
    requires 0 < cfg.openDuration
    requires forall i :: 0 <= i < |calls| ==> FailingCall(calls[i], maxAttempts)
    requires OutageOf(cfg, calls).trippedAt.None?
    ensures |OutageOf(cfg, calls).starts| == TotalAttempts(calls) < Trip(cfg)
  {
    if calls != [] {
      var init := calls[..|calls| - 1];
      UntrippedMakesEveryAttempt(cfg, init, maxAttempts);
      StartsLength(calls[|calls| - 1].attempts);
      var before := OutageRun(cfg, init, maxAttempts);
      var after := OutageRun(cfg, calls, maxAttempts);
    }
  }

  // ----- When a question is permitted -----

  /** A closed circuit lets every question through; an open one exactly from a whole open
      period after the failure that opened it on; a half-open one exactly from a probe gap
      after the last probe on. For readings in any order. */
  lemma PermittedExactly(cfg: Config, ops: seq<Op>, now: nat)
    ensures CanCall(cfg, After(cfg, ops), now).1.Permitted? <==>
            match After(cfg, ops)
            case Closed(_) => true
            case Open(_) => OpenedAt(cfg, ops) + cfg.openDuration <= now
            case HalfOpen(_) =>
              cfg.halfOpenProbeGap == 0
              || (LastProbe(cfg, ops).Some? && LastProbe(cfg, ops).value + cfg.halfOpenProbeGap <= now)
  {
    ProbeRun(cfg, ops);
  }

  /** The last question was let through although the circuit was not closed. */
  predicate ProbedAgain(cfg: Config, ops: seq<Op>)
    requires ops != [] && ops[|ops| - 1].Ask?
  {
    var c := After(cfg, ops[..|ops| - 1]);
    !c.Closed? && CanCall(cfg, c, ops[|ops| - 1].now).1.Permitted?
  }

  /** A probe was let through, and nothing has been recorded since. */
  predicate Probing(cfg: Config, ops: seq<Op>) {
    ops != [] &&
    var init := ops[..|ops| - 1];
    ops[|ops| - 1].Ask? && (ProbedAgain(cfg, ops) || Probing(cfg, init))
  }

  /** Exactly then the circuit is half open. */
  lemma {:induction false} HalfOpenIffProbing(cfg: Config, ops: seq<Op>)
    ensures After(cfg, ops).HalfOpen? <==> Probing(cfg, ops)
  {
    if ops != [] {
      HalfOpenIffProbing(cfg, ops[..|ops| - 1]);
    }
  }

  /** The wait a refusal names is exact: asked again after less, the caller is refused
      again, and after exactly that time it is let through. */
  lemma RetryAfterIsExact(cfg: Config, c: Circuit, now: nat, wait: nat, later: nat)
    requires CanCall(cfg, c, now) == (c, Rejected(wait)) && now <= later
    requires c.HalfOpen? ==> c.lastProbe <= now
    ensures CanCall(cfg, c, later).1.Permitted? <==> now + wait <= later
    ensures 0 < wait
  {
  }
}
