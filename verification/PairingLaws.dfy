/** What pairing promises, for every list of commands: different devices share no id,
    every device is made of matching commands, and nothing pairable is left behind. */
module PairingLaws {
  import opened Options
  import opened Pairing
  import opened Text

  // ----- Devices and the ids they take -----

  function OptSet(o: Option<nat>): set<nat> {
    if o.None? then {} else {o.value}
  }

  function ShutterIds(s: Shutter): set<nat> {
    {s.upId, s.downId} + OptSet(s.stopId) + OptSet(s.sliderId)
  }

  function ActionIds(a: Action): set<nat> {
    {a.onId, a.offId}
  }

  /** The ids of all devices of a list. */
  ghost function AllIds<T>(out: seq<T>, ids: T -> set<nat>): set<nat> {
    if out == [] then {} else AllIds(out[..|out| - 1], ids) + ids(out[|out| - 1])
  }

  ghost predicate Apart<T>(out: seq<T>, ids: T -> set<nat>) {
    forall i, j :: 0 <= i < j < |out| ==> ids(out[i]) !! ids(out[j])
  }

  /** The devices of a pass are pairwise disjoint, avoid what was used before, and their
      ids are consumed. */
  ghost predicate Accounted<T>(p: Pass<T>, used0: set<nat>, ids: T -> set<nat>) {
    Apart(p.out, ids) && AllIds(p.out, ids) + used0 <= p.used && AllIds(p.out, ids) !! used0
  }

  lemma {:induction false} IdsOfMember<T>(out: seq<T>, ids: T -> set<nat>, i: nat)
    requires i < |out|
    ensures ids(out[i]) <= AllIds(out, ids)
  {
    if i < |out| - 1 {
      IdsOfMember(out[..|out| - 1], ids, i);
    }
  }

  lemma {:induction false} MemberOfIds<T>(out: seq<T>, ids: T -> set<nat>, x: nat) returns (i: nat)
    requires x in AllIds(out, ids)
    ensures i < |out| && x in ids(out[i])
  {
    if x in ids(out[|out| - 1]) {
      i := |out| - 1;
    } else {
      i := MemberOfIds(out[..|out| - 1], ids, x);
    }
  }

  lemma IdsAppend<T>(out: seq<T>, ids: T -> set<nat>, t: T)
    ensures AllIds(out + [t], ids) == AllIds(out, ids) + ids(t)
  {
    assert (out + [t])[..|out|] == out;
  }

  /** Recording a device whose ids are all unused. */
  lemma Recorded<T>(p: Pass<T>, used0: set<nat>, ids: T -> set<nat>, t: T, used: set<nat>)
    requires Accounted(p, used0, ids) && ids(t) !! p.used && p.used + ids(t) <= used
    ensures Accounted(Pass(used, p.out + [t]), used0, ids)
  {
    IdsAppend(p.out, ids, t);
    forall i | 0 <= i < |p.out| ensures ids(p.out[i]) !! ids(t) {
      IdsOfMember(p.out, ids, i);
    }
  }

  // ----- What a device is made of -----

  /** up and down belong together: by generic type or by aligned names. */
  ghost predicate IsUpDown(u: Unicode, up: ActionCmd, down: ActionCmd) {
    || (IsGeneric(up, "FLAP_UP") && IsGeneric(down, "FLAP_DOWN"))
    || (exists i :: 0 <= i < |SHUTTER_UP| && IsNamed(u, up, SHUTTER_UP[i]) && IsNamed(u, down, SHUTTER_DOWN[i]))
  }

  ghost predicate IsPrefixCouple(on: ActionCmd, off: ActionCmd) {
    exists p: string :: IsGeneric(on, p + "_ON") && IsGeneric(off, p + "_OFF")
  }

  ghost predicate IsNameCouple(u: Unicode, on: ActionCmd, off: ActionCmd) {
    exists i :: 0 <= i < |NAME_ON| && IsNamed(u, on, NAME_ON[i]) && IsNamed(u, off, NAME_OFF[i])
  }

  /** Two commands of one id become a device only by their names, and only if the
      generic pass has no use for them. */
  ghost predicate IsOnOff(u: Unicode, on: ActionCmd, off: ActionCmd) {
    if on.id == off.id then IsNameCouple(u, on, off) && !IsPrefixCouple(on, off) && !IsPrefixCouple(off, on)
    else IsPrefixCouple(on, off) || IsNameCouple(u, on, off)
  }

  ghost predicate ShutterFrom(u: Unicode, cmds: seq<ActionCmd>, s: Shutter) {
    && (exists up, down ::
          up in cmds && down in cmds && up.id == s.upId && down.id == s.downId && IsUpDown(u, up, down))
    && (s.stopId.Some? ==> exists c :: c in cmds && c.id == s.stopId.value && IsStop(u, c))
    && (s.sliderId.Some? ==> exists c :: c in cmds && c.id == s.sliderId.value && IsSlider(u, c))
    && OptSet(s.stopId) !! {s.upId, s.downId}
    && OptSet(s.sliderId) !! {s.upId, s.downId} + OptSet(s.stopId)
  }

  ghost predicate ActionFrom(u: Unicode, cmds: seq<ActionCmd>, a: Action) {
    exists on, off :: on in cmds && off in cmds && on.id == a.onId && off.id == a.offId && IsOnOff(u, on, off)
  }

  // ----- Shutters -----

  ghost predicate AllUsed(cmds: seq<ActionCmd>, used: set<nat>, want: Want) {
    forall c :: c in cmds && want(c) ==> c.id in used
  }

  /** A shutter lacks a stop only when every stop command is consumed, and a slider
      only when every slider command is. */
  ghost predicate Attached(u: Unicode, cmds: seq<ActionCmd>, p: Pass<Shutter>) {
    && (forall s :: s in p.out && s.stopId.None? ==> AllUsed(cmds, p.used, Stops(u)))
    && (forall s :: s in p.out && s.sliderId.None? ==> AllUsed(cmds, p.used, Sliders(u)))
  }

  ghost predicate ShuttersSound(u: Unicode, cmds: seq<ActionCmd>, used0: set<nat>, p: Pass<Shutter>) {
    && Accounted(p, used0, ShutterIds)
    && p.used == used0 + AllIds(p.out, ShutterIds)
    && (forall s :: s in p.out ==> ShutterFrom(u, cmds, s))
    && Attached(u, cmds, p)
  }

  /** q comes after p: nothing is taken back. */
  ghost predicate Extends<T>(p: Pass<T>, q: Pass<T>) {
    p.used <= q.used && p.out <= q.out
  }

  lemma PushedIds(u: Unicode, cmds: seq<ActionCmd>, up: ActionCmd, down: ActionCmd, p: Pass<Shutter>)
    requires up in cmds && down in cmds && IsUpDown(u, up, down) && up.id !in p.used && down.id !in p.used
    ensures var q := PushedShutter(u, cmds, up, down, p);
            && |q.out| == |p.out| + 1 && q.out[..|p.out|] == p.out
            && var s := q.out[|p.out|];
               && ShutterFrom(u, cmds, s) && ShutterIds(s) !! p.used && q.used == p.used + ShutterIds(s)
               && s.upId == up.id && s.downId == down.id
               && (s.stopId.None? ==> AllUsed(cmds, q.used, Stops(u)))
               && (s.sliderId.None? ==> AllUsed(cmds, q.used, Sliders(u)))
  {
  }

  lemma AttachedGrows(u: Unicode, cmds: seq<ActionCmd>, p: Pass<Shutter>, s: Shutter, used: set<nat>)
    requires Attached(u, cmds, p) && p.used <= used
    requires s.stopId.None? ==> AllUsed(cmds, used, Stops(u))
    requires s.sliderId.None? ==> AllUsed(cmds, used, Sliders(u))
    ensures Attached(u, cmds, Pass(used, p.out + [s]))
  {
  }

  /** push_shutter keeps everything that holds of the shutters found so far. */
  lemma PushedSound(u: Unicode, cmds: seq<ActionCmd>, used0: set<nat>, up: ActionCmd, down: ActionCmd, p: Pass<Shutter>)
    requires ShuttersSound(u, cmds, used0, p)
    requires up in cmds && down in cmds && IsUpDown(u, up, down) && up.id !in p.used && down.id !in p.used
    ensures var q := PushedShutter(u, cmds, up, down, p);
            ShuttersSound(u, cmds, used0, q) && Extends(p, q) && {up.id, down.id} <= q.used
  {
    PushedIds(u, cmds, up, down, p);
    var q := PushedShutter(u, cmds, up, down, p);
    var s := q.out[|p.out|];
    assert q.out == p.out + [s];
    Recorded(p, used0, ShutterIds, s, q.used);
    IdsAppend(p.out, ShutterIds, s);
    AttachedGrows(u, cmds, p, s, q.used);
  }

  /** No unused FLAP_UP among some coexists with an unused FLAP_DOWN. */
  ghost predicate FlapsExhausted(some: seq<ActionCmd>, cmds: seq<ActionCmd>, used: set<nat>) {
    forall c, d :: c in some && d in cmds && IsGeneric(c, "FLAP_UP") && IsGeneric(d, "FLAP_DOWN") ==>
      c.id in used || d.id in used
  }

  lemma FlapStepSound(u: Unicode, cmds: seq<ActionCmd>, used0: set<nat>, c: ActionCmd, p: Pass<Shutter>)
    requires ShuttersSound(u, cmds, used0, p) && c in cmds
    ensures var q := FlapStep(u, cmds, c, p);
            ShuttersSound(u, cmds, used0, q) && Extends(p, q) && FlapsExhausted([c], cmds, q.used)
  {
    var down := FindUnused(cmds, p.used, Generic("FLAP_DOWN"));
    if c.id !in p.used && IsGeneric(c, "FLAP_UP") && down.Some? {
      PushedSound(u, cmds, used0, c, down.value, p);
    }
  }

  lemma FlapsGrow(cmds: seq<ActionCmd>, k: nat, before: set<nat>, used: set<nat>)
    requires k < |cmds| && before <= used
    requires FlapsExhausted(cmds[..k], cmds, before) && FlapsExhausted([cmds[k]], cmds, used)
    ensures FlapsExhausted(cmds[..k + 1], cmds, used)
  {
    assert cmds[..k + 1] == cmds[..k] + [cmds[k]];
  }

  lemma FlapsFurther(u: Unicode, cmds: seq<ActionCmd>, used0: set<nat>, k: nat, p: Pass<Shutter>)
    requires k < |cmds| && ShuttersSound(u, cmds, used0, p) && FlapsExhausted(cmds[..k], cmds, p.used)
    ensures var q := FlapStep(u, cmds, cmds[k], p);
            ShuttersSound(u, cmds, used0, q) && FlapsExhausted(cmds[..k + 1], cmds, q.used)
  {
    FlapStepSound(u, cmds, used0, cmds[k], p);
    FlapsGrow(cmds, k, p.used, FlapStep(u, cmds, cmds[k], p).used);
  }

  lemma {:induction false} FlapPassSound(u: Unicode, cmds: seq<ActionCmd>, used0: set<nat>, k: nat)
    requires k <= |cmds|
    ensures var p := FlapPass(u, cmds, used0, k);
            ShuttersSound(u, cmds, used0, p) && FlapsExhausted(cmds[..k], cmds, p.used)
  {
    if k != 0 {
      FlapPassSound(u, cmds, used0, k - 1);
      FlapsFurther(u, cmds, used0, k - 1, FlapPass(u, cmds, used0, k - 1));
    }
  }

  ghost predicate NamedId(u: Unicode, cmds: seq<ActionCmd>, id: nat, name: string) {
    exists c :: c in cmds && c.id == id && IsNamed(u, c, name)
  }

  /** Couple i of the vocabulary has been served: a shutter was made of it, or no
      couple of unused commands of those names is left. */
  ghost predicate ShutterServed(u: Unicode, cmds: seq<ActionCmd>, p: Pass<Shutter>, i: nat)
    requires i < |SHUTTER_UP|
  {
    || (exists s ::
          s in p.out && NamedId(u, cmds, s.upId, SHUTTER_UP[i]) && NamedId(u, cmds, s.downId, SHUTTER_DOWN[i]))
    || AllUsed(cmds, p.used, Named(u, SHUTTER_UP[i])) || AllUsed(cmds, p.used, Named(u, SHUTTER_DOWN[i]))
  }

  lemma ShutterServiceStays(u: Unicode, cmds: seq<ActionCmd>, p: Pass<Shutter>, q: Pass<Shutter>, i: nat)
    requires i < |SHUTTER_UP| && ShutterServed(u, cmds, p, i) && Extends(p, q)
    ensures ShutterServed(u, cmds, q, i)
  {
    assert forall s :: s in p.out ==> s in q.out;
  }

  lemma PushedServes(u: Unicode, cmds: seq<ActionCmd>, i: nat, up: ActionCmd, down: ActionCmd, p: Pass<Shutter>)
    requires i < |SHUTTER_UP| && up in cmds && down in cmds
    requires IsNamed(u, up, SHUTTER_UP[i]) && IsNamed(u, down, SHUTTER_DOWN[i])
    ensures ShutterServed(u, cmds, PushedShutter(u, cmds, up, down, p), i)
  {
    var q := PushedShutter(u, cmds, up, down, p);
    assert q.out[|p.out|] in q.out;
    assert NamedId(u, cmds, up.id, SHUTTER_UP[i]) && NamedId(u, cmds, down.id, SHUTTER_DOWN[i]);
  }

  lemma ShutterNameSound(u: Unicode, cmds: seq<ActionCmd>, used0: set<nat>, i: nat, p: Pass<Shutter>)
    requires ShuttersSound(u, cmds, used0, p) && i < |SHUTTER_UP|
    ensures var q := ShutterNameStep(u, cmds, i, p);
            ShuttersSound(u, cmds, used0, q) && Extends(p, q) && ShutterServed(u, cmds, q, i)
  {
    var up := FindUnused(cmds, p.used, Named(u, SHUTTER_UP[i]));
    var down := FindUnused(cmds, p.used, Named(u, SHUTTER_DOWN[i]));
    if up.Some? && down.Some? {
      assert IsNamed(u, up.value, SHUTTER_UP[i]) && IsNamed(u, down.value, SHUTTER_DOWN[i]);
      PushedSound(u, cmds, used0, up.value, down.value, p);
      PushedServes(u, cmds, i, up.value, down.value, p);
    }
  }

  lemma AllStayServed(u: Unicode, cmds: seq<ActionCmd>, p: Pass<Shutter>, q: Pass<Shutter>, n: nat)
    requires n <= |SHUTTER_UP| && Extends(p, q) && forall j: nat :: j < n ==> ShutterServed(u, cmds, p, j)
    ensures forall j: nat :: j < n ==> ShutterServed(u, cmds, q, j)
  {
    forall j: nat | j < n ensures ShutterServed(u, cmds, q, j) {
      ShutterServiceStays(u, cmds, p, q, j);
    }
  }

  /** q is what p has become after the first n couples of names. */
  ghost predicate NamesServed(u: Unicode, cmds: seq<ActionCmd>, used0: set<nat>, p: Pass<Shutter>, q: Pass<Shutter>,
                              n: nat)
  {
    && n <= |SHUTTER_UP| && ShuttersSound(u, cmds, used0, q) && Extends(p, q)
    && forall j: nat :: j < n ==> ShutterServed(u, cmds, q, j)
  }

  lemma NamesFurther(u: Unicode, cmds: seq<ActionCmd>, used0: set<nat>, p: Pass<Shutter>, q: Pass<Shutter>, n: nat)
    requires n < |SHUTTER_UP| && NamesServed(u, cmds, used0, p, q, n)
    ensures NamesServed(u, cmds, used0, p, ShutterNameStep(u, cmds, n, q), n + 1)
  {
    ShutterNameSound(u, cmds, used0, n, q);
    AllStayServed(u, cmds, q, ShutterNameStep(u, cmds, n, q), n);
  }

  lemma {:induction false} NamesKeep(u: Unicode, cmds: seq<ActionCmd>, p: Pass<Shutter>, n: nat,
                                     kept: (nat, Pass<Shutter>) -> bool)
    requires n <= |SHUTTER_UP| && kept(0, p)
    requires forall i: nat, q :: i < |SHUTTER_UP| && kept(i, q) ==> kept(i + 1, ShutterNameStep(u, cmds, i, q))
    ensures kept(n, ShutterNames(u, cmds, p, n))
  {
    if n != 0 {
      NamesKeep(u, cmds, p, n - 1, kept);
    }
  }

  ghost function ServedBy(u: Unicode, cmds: seq<ActionCmd>, used0: set<nat>, p: Pass<Shutter>)
    : (nat, Pass<Shutter>) -> bool
  {
    (n: nat, q: Pass<Shutter>) => NamesServed(u, cmds, used0, p, q, n)
  }

  lemma ShutterNamesSound(u: Unicode, cmds: seq<ActionCmd>, used0: set<nat>, p: Pass<Shutter>, n: nat)
    requires ShuttersSound(u, cmds, used0, p) && n <= |SHUTTER_UP|
    ensures NamesServed(u, cmds, used0, p, ShutterNames(u, cmds, p, n), n)
  {
    var kept := ServedBy(u, cmds, used0, p);
    forall i: nat, q | i < |SHUTTER_UP| && kept(i, q) ensures kept(i + 1, ShutterNameStep(u, cmds, i, q)) {
      NamesFurther(u, cmds, used0, p, q, i);
    }
    NamesKeep(u, cmds, p, n, kept);
  }

  /** Nothing that could still make a shutter, or a part of one, is left behind. */
  ghost predicate ShuttersMaximal(u: Unicode, cmds: seq<ActionCmd>, p: Pass<Shutter>) {
    && FlapsExhausted(cmds, cmds, p.used) && Attached(u, cmds, p)
    && forall i: nat :: i < |SHUTTER_UP| ==> ShutterServed(u, cmds, p, i)
  }

  lemma ShuttersKept(u: Unicode, cmds: seq<ActionCmd>, used0: set<nat>)
    ensures ShuttersSound(u, cmds, used0, Shutters(u, cmds, used0))
    ensures ShuttersMaximal(u, cmds, Shutters(u, cmds, used0))
  {
    FlapPassSound(u, cmds, used0, |cmds|);
    assert cmds[..|cmds|] == cmds;
    ShutterNamesSound(u, cmds, used0, FlapPass(u, cmds, used0, |cmds|), |SHUTTER_UP|);
  }

  // ----- On/off devices -----

  /** An id that a P_ON and a P_OFF command share: the generic pass consumes it without
      making a device. */
  ghost predicate PrefixTwins(cmds: seq<ActionCmd>, x: nat) {
    exists c, d :: c in cmds && d in cmds && c.id == d.id == x && IsPrefixCouple(c, d)
  }

  ghost predicate ActionsSound(u: Unicode, cmds: seq<ActionCmd>, p: Pass<Action>) {
    && Accounted(p, {}, ActionIds)
    && (forall x :: x in p.used && x !in AllIds(p.out, ActionIds) ==> PrefixTwins(cmds, x))
    && (forall a :: a in p.out ==> ActionFrom(u, cmds, a))
  }

  /** No unused P_ON among some coexists with an unused P_OFF, whatever P. */
  ghost predicate PrefixesExhausted(some: seq<ActionCmd>, cmds: seq<ActionCmd>, used: set<nat>) {
    forall c, d :: c in some && d in cmds && IsPrefixCouple(c, d) ==> c.id in used || d.id in used
  }

  lemma ActionRecorded(u: Unicode, cmds: seq<ActionCmd>, on: ActionCmd, off: ActionCmd, p: Pass<Action>)
    requires ActionsSound(u, cmds, p) && on in cmds && off in cmds && IsOnOff(u, on, off)
    requires on.id !in p.used && off.id !in p.used
    ensures var q := Pass(p.used + {on.id, off.id}, p.out + [Action(on.id, off.id)]);
            ActionsSound(u, cmds, q) && Extends(p, q)
  {
    var a := Action(on.id, off.id);
    Recorded(p, {}, ActionIds, a, p.used + {on.id, off.id});
    IdsAppend(p.out, ActionIds, a);
    assert ActionFrom(u, cmds, a);
  }

  lemma PrefixOfCouple(c: ActionCmd)
    ensures PrefixOf(c).None? ==> forall d :: !IsPrefixCouple(c, d)
    ensures PrefixOf(c).Some? ==>
              forall d :: IsPrefixCouple(c, d) <==> IsGeneric(d, PrefixOf(c).value + "_OFF")
  {
    if PrefixOf(c).Some? {
      assert IsGeneric(c, PrefixOf(c).value + "_ON");
    }
  }

  lemma PrefixStepSound(u: Unicode, cmds: seq<ActionCmd>, c: ActionCmd, p: Pass<Action>)
    requires ActionsSound(u, cmds, p) && c in cmds
    ensures var q := PrefixStep(cmds, c, p);
            ActionsSound(u, cmds, q) && Extends(p, q) && PrefixesExhausted([c], cmds, q.used)
  {
    PrefixOfCouple(c);
    if PrefixOf(c).Some? {
      var off := FindUnused(cmds, p.used, Generic(PrefixOf(c).value + "_OFF"));
      if off.Some? && c.id !in p.used {
        assert IsPrefixCouple(c, off.value);
        if off.value.id == c.id {
          assert PrefixTwins(cmds, c.id);
        } else {
          ActionRecorded(u, cmds, c, off.value, p);
        }
      }
    }
  }

  lemma {:induction false} PrefixPassSound(u: Unicode, cmds: seq<ActionCmd>, k: nat)
    requires k <= |cmds|
    ensures var p := PrefixPass(cmds, k);
            ActionsSound(u, cmds, p) && PrefixesExhausted(cmds[..k], cmds, p.used)
  {
    if k != 0 {
      PrefixPassSound(u, cmds, k - 1);
      PrefixStepSound(u, cmds, cmds[k - 1], PrefixPass(cmds, k - 1));
      assert cmds[..k] == cmds[..k - 1] + [cmds[k - 1]];
    }
  }

  ghost predicate ActionServed(u: Unicode, cmds: seq<ActionCmd>, p: Pass<Action>, i: nat)
    requires i < |NAME_ON|
  {
    || (exists a :: a in p.out && NamedId(u, cmds, a.onId, NAME_ON[i]) && NamedId(u, cmds, a.offId, NAME_OFF[i]))
    || AllUsed(cmds, p.used, Named(u, NAME_ON[i])) || AllUsed(cmds, p.used, Named(u, NAME_OFF[i]))
  }

  lemma ActionServiceStays(u: Unicode, cmds: seq<ActionCmd>, p: Pass<Action>, q: Pass<Action>, i: nat)
    requires i < |NAME_ON| && ActionServed(u, cmds, p, i) && Extends(p, q)
    ensures ActionServed(u, cmds, q, i)
  {
    assert forall a :: a in p.out ==> a in q.out;
  }

  lemma ActionServes(u: Unicode, cmds: seq<ActionCmd>, i: nat, on: ActionCmd, off: ActionCmd, p: Pass<Action>)
    requires i < |NAME_ON| && on in cmds && off in cmds
    requires IsNamed(u, on, NAME_ON[i]) && IsNamed(u, off, NAME_OFF[i])
    ensures ActionServed(u, cmds, Pass(p.used + {on.id, off.id}, p.out + [Action(on.id, off.id)]), i)
  {
    assert Action(on.id, off.id) in p.out + [Action(on.id, off.id)];
    assert NamedId(u, cmds, on.id, NAME_ON[i]) && NamedId(u, cmds, off.id, NAME_OFF[i]);
  }

  lemma ActionNameSound(u: Unicode, cmds: seq<ActionCmd>, i: nat, p: Pass<Action>)
    requires ActionsSound(u, cmds, p) && PrefixesExhausted(cmds, cmds, p.used) && i < |NAME_ON|
    ensures var q := ActionNameStep(u, cmds, i, p);
            ActionsSound(u, cmds, q) && PrefixesExhausted(cmds, cmds, q.used) && Extends(p, q)
            && ActionServed(u, cmds, q, i)
  {
    var on := FindUnused(cmds, p.used, Named(u, NAME_ON[i]));
    var off := FindUnused(cmds, p.used, Named(u, NAME_OFF[i]));
    if on.Some? && off.Some? {
      assert IsNameCouple(u, on.value, off.value);
      ActionRecorded(u, cmds, on.value, off.value, p);
      ActionServes(u, cmds, i, on.value, off.value, p);
    }
  }

  lemma {:induction false} ActionNamesSound(u: Unicode, cmds: seq<ActionCmd>, p: Pass<Action>, i: nat)
    requires ActionsSound(u, cmds, p) && PrefixesExhausted(cmds, cmds, p.used) && i <= |NAME_ON|
    ensures var q := ActionNames(u, cmds, p, i);
            ActionsSound(u, cmds, q) && PrefixesExhausted(cmds, cmds, q.used) && Extends(p, q)
            && forall j: nat :: j < i ==> ActionServed(u, cmds, q, j)
  {
    if i != 0 {
      ActionNamesSound(u, cmds, p, i - 1);
      var before, after := ActionNames(u, cmds, p, i - 1), ActionNames(u, cmds, p, i);
      ActionNameSound(u, cmds, i - 1, before);
      forall j: nat | j < i - 1 ensures ActionServed(u, cmds, after, j) {
        ActionServiceStays(u, cmds, before, after, j);
      }
    }
  }

  ghost predicate ActionsMaximal(u: Unicode, cmds: seq<ActionCmd>, p: Pass<Action>) {
    PrefixesExhausted(cmds, cmds, p.used) && forall i: nat :: i < |NAME_ON| ==> ActionServed(u, cmds, p, i)
  }

  lemma ActionsKept(u: Unicode, cmds: seq<ActionCmd>)
    ensures ActionsSound(u, cmds, Actions(u, cmds)) && ActionsMaximal(u, cmds, Actions(u, cmds))
  {
    PrefixPassSound(u, cmds, |cmds|);
    assert cmds[..|cmds|] == cmds;
    ActionNamesSound(u, cmds, PrefixPass(cmds, |cmds|), |NAME_ON|);
  }

  // ----- One equipment -----

  /** For every command list, repeated ids or not: different devices share no id, and
      every device is made of matching commands of the list. */
  lemma DevicesShareNoId(u: Unicode, cmds: seq<ActionCmd>)
    ensures var shutters, actions := ShuttersOf(u, cmds).out, ActionsOf(u, cmds).out;
            && Apart(shutters, ShutterIds) && Apart(actions, ActionIds)
            && AllIds(shutters, ShutterIds) !! AllIds(actions, ActionIds)
            && (forall s :: s in shutters ==> ShutterFrom(u, cmds, s))
            && (forall a :: a in actions ==> ActionFrom(u, cmds, a))
  {
    var p, rest := ShuttersOf(u, cmds), Remaining(cmds, ShuttersOf(u, cmds).used);
    ShuttersKept(u, cmds, {});
    ActionsKept(u, rest);
    var actions := ActionsOf(u, cmds).out;
    forall x | x in AllIds(actions, ActionIds) ensures x !in p.used {
      var i := MemberOfIds(actions, ActionIds, x);
      assert ActionFrom(u, rest, actions[i]);
    }
    forall a | a in actions ensures ActionFrom(u, cmds, a) {
      assert ActionFrom(u, rest, a);
    }
  }

  /** And nothing that could be paired or attached is left: the shutter stage is maximal
      for the whole list, the on/off stage for what the shutters leave. */
  lemma NothingPairableIsLeft(u: Unicode, cmds: seq<ActionCmd>)
    ensures ShuttersMaximal(u, cmds, ShuttersOf(u, cmds))
    ensures ActionsMaximal(u, Remaining(cmds, ShuttersOf(u, cmds).used), ActionsOf(u, cmds))
  {
    ShuttersKept(u, cmds, {});
    ActionsKept(u, Remaining(cmds, ShuttersOf(u, cmds).used));
  }

  // ----- One device -----

  function Parts(s: Shutter): nat {
    2 + (if s.stopId.Some? then 1 else 0) + (if s.sliderId.Some? then 1 else 0)
  }

  /** Every device of the list has pairwise distinct ids of its own. */
  ghost predicate OwnIdsDistinct(u: Unicode, cmds: seq<ActionCmd>) {
    && (forall s :: s in ShuttersOf(u, cmds).out ==> s.upId != s.downId && |ShutterIds(s)| == Parts(s))
    && (forall a :: a in ActionsOf(u, cmds).out ==> a.onId != a.offId)
  }

  /** Two commands of one id that pairing would make a device of. */
  ghost predicate SelfCouple(u: Unicode, a: ActionCmd, b: ActionCmd) {
    a.id == b.id && (IsUpDown(u, a, b) || IsOnOff(u, a, b))
  }

  ghost predicate SelfPairable(u: Unicode, pool: seq<ActionCmd>) {
    exists a, b :: a in pool && b in pool && SelfCouple(u, a, b)
  }

  lemma PartsCounted(s: Shutter)
    requires s.upId != s.downId && OptSet(s.stopId) !! {s.upId, s.downId}
    requires OptSet(s.sliderId) !! {s.upId, s.downId} + OptSet(s.stopId)
    ensures |ShutterIds(s)| == Parts(s)
  {
    assert |{s.upId, s.downId}| == 2;
    assert |{s.upId, s.downId} + OptSet(s.stopId)| == 2 + |OptSet(s.stopId)|;
    assert |ShutterIds(s)| == 2 + |OptSet(s.stopId)| + |OptSet(s.sliderId)|;
  }

  lemma DistinctUnlessSelfPairable(u: Unicode, cmds: seq<ActionCmd>)
    requires !SelfPairable(u, cmds)
    ensures OwnIdsDistinct(u, cmds)
  {
    DevicesShareNoId(u, cmds);
    forall s | s in ShuttersOf(u, cmds).out ensures s.upId != s.downId && |ShutterIds(s)| == Parts(s) {
      var up, down :| up in cmds && down in cmds && up.id == s.upId && down.id == s.downId && IsUpDown(u, up, down);
      assert !SelfCouple(u, up, down);
      PartsCounted(s);
    }
    forall a | a in ActionsOf(u, cmds).out ensures a.onId != a.offId {
      assert ActionFrom(u, cmds, a);
      var on, off :| on in cmds && off in cmds && on.id == a.onId && off.id == a.offId && IsOnOff(u, on, off);
      assert !SelfCouple(u, on, off);
    }
  }

  /** A list of two commands of one id: whatever is found pairs the id with itself. */
  lemma OneIdOnly(u: Unicode, a: ActionCmd, b: ActionCmd)
    requires a.id == b.id
    ensures forall s :: s in ShuttersOf(u, [a, b]).out ==> s.upId == s.downId
    ensures forall x :: x in ActionsOf(u, [a, b]).out ==> x.onId == x.offId
  {
    var cmds := [a, b];
    DevicesShareNoId(u, cmds);
    forall s | s in ShuttersOf(u, cmds).out ensures s.upId == s.downId {
      assert ShutterFrom(u, cmds, s);
    }
    forall x | x in ActionsOf(u, cmds).out ensures x.onId == x.offId {
      assert ActionFrom(u, cmds, x);
    }
  }

  lemma SelfUpDownFound(u: Unicode, a: ActionCmd, b: ActionCmd)
    requires a.id == b.id && IsUpDown(u, a, b)
    ensures ShuttersOf(u, [a, b]).out != []
  {
    var cmds := [a, b];
    ShuttersKept(u, cmds, {});
    if !(IsGeneric(a, "FLAP_UP") && IsGeneric(b, "FLAP_DOWN")) {
      var i: nat :| i < |SHUTTER_UP| && IsNamed(u, a, SHUTTER_UP[i]) && IsNamed(u, b, SHUTTER_DOWN[i]);
      assert ShutterServed(u, cmds, ShuttersOf(u, cmds), i);
      assert Named(u, SHUTTER_UP[i])(a) && Named(u, SHUTTER_DOWN[i])(b);
    }
  }

  lemma NotItsOwnCouple(c: ActionCmd)
    ensures !IsPrefixCouple(c, c)
  {
    forall p: string ensures !(IsGeneric(c, p + "_ON") && IsGeneric(c, p + "_OFF")) {
      assert |p + "_ON"| != |p + "_OFF"|;
    }
  }

  lemma NoTwinsHere(cmds: seq<ActionCmd>, a: ActionCmd, b: ActionCmd)
    requires forall c :: c in cmds ==> c == a || c == b
    requires !IsPrefixCouple(a, b) && !IsPrefixCouple(b, a)
    ensures forall x :: !PrefixTwins(cmds, x)
  {
    NotItsOwnCouple(a);
    NotItsOwnCouple(b);
  }

  lemma SelfOnOffFound(u: Unicode, a: ActionCmd, b: ActionCmd)
    requires a.id == b.id && IsOnOff(u, a, b) && ShuttersOf(u, [a, b]).out == []
    ensures ActionsOf(u, [a, b]).out != []
  {
    var cmds := [a, b];
    ShuttersKept(u, cmds, {});
    var rest := Remaining(cmds, ShuttersOf(u, cmds).used);
    assert a in cmds && b in cmds;
    assert a in rest && b in rest;
    ActionsKept(u, rest);
    var i: nat :| i < |NAME_ON| && IsNamed(u, a, NAME_ON[i]) && IsNamed(u, b, NAME_OFF[i]);
    assert ActionServed(u, rest, ActionsOf(u, cmds), i);
    assert Named(u, NAME_ON[i])(a) && Named(u, NAME_OFF[i])(b);
    NoTwinsHere(rest, a, b);
  }

  lemma SelfCoupleFound(u: Unicode, a: ActionCmd, b: ActionCmd)
    requires SelfCouple(u, a, b)
    ensures !OwnIdsDistinct(u, [a, b])
  {
    OneIdOnly(u, a, b);
    if IsUpDown(u, a, b) {
      SelfUpDownFound(u, a, b);
    } else if ShuttersOf(u, [a, b]).out == [] {
      SelfOnOffFound(u, a, b);
    }
    if ShuttersOf(u, [a, b]).out != [] {
      assert ShuttersOf(u, [a, b]).out[0] in ShuttersOf(u, [a, b]).out;
    } else {
      assert ActionsOf(u, [a, b]).out[0] in ActionsOf(u, [a, b]).out;
    }
  }

  /** Exactly when one device's own ids can coincide: every list drawn from a pool of
      commands gives devices with distinct ids of their own if and only if no two
      commands of the pool share an id and would pair with each other. */
  lemma OwnIdsDistinctIff(u: Unicode, pool: seq<ActionCmd>)
    ensures (forall cmds :: (forall c :: c in cmds ==> c in pool) ==> OwnIdsDistinct(u, cmds))
            <==> !SelfPairable(u, pool)
  {
    if !SelfPairable(u, pool) {
      forall cmds | forall c :: c in cmds ==> c in pool
        ensures OwnIdsDistinct(u, cmds)
      {
        assert !SelfPairable(u, cmds);
        DistinctUnlessSelfPairable(u, cmds);
      }
    } else {
      var a, b :| a in pool && b in pool && SelfCouple(u, a, b);
      SelfCoupleFound(u, a, b);
      assert forall c :: c in [a, b] ==> c in pool;
    }
  }

  /** A raise and a lower command with one id make a shutter of that id twice over. */
  lemma RepeatedIdPairsWithItself(u: Unicode, name: string, other: string)
    ensures var up := ActionCmd(1, name, Some("FLAP_UP"), "other");
            var down := ActionCmd(1, other, Some("FLAP_DOWN"), "other");
            && ShuttersOf(u, [up, down]).out != []
            && ShuttersOf(u, [up, down]).out[0].upId == ShuttersOf(u, [up, down]).out[0].downId
  {
    var up := ActionCmd(1, name, Some("FLAP_UP"), "other");
    var down := ActionCmd(1, other, Some("FLAP_DOWN"), "other");
    SelfUpDownFound(u, up, down);
    OneIdOnly(u, up, down);
    assert ShuttersOf(u, [up, down]).out[0] in ShuttersOf(u, [up, down]).out;
  }

  // ----- Unique ids -----

  ghost predicate UniqueIds(cmds: seq<ActionCmd>) {
    forall c, d :: c in cmds && d in cmds && c.id == d.id ==> c == d
  }

  lemma NamesDiffer(i: nat)
    requires i < |SHUTTER_UP|
    ensures SHUTTER_UP[i] != SHUTTER_DOWN[i]
    ensures i < |NAME_ON| ==> NAME_ON[i] != NAME_OFF[i]
  {
    assert SHUTTER_UP[i][0] != SHUTTER_DOWN[i][0];
    assert i < |NAME_ON| ==> |NAME_ON[i]| != |NAME_OFF[i]|;
  }

  lemma NotACoupleWithItself(u: Unicode, c: ActionCmd)
    ensures !IsUpDown(u, c, c) && !IsOnOff(u, c, c)
  {
    assert "FLAP_UP" != "FLAP_DOWN";
    forall i: nat | i < |SHUTTER_UP| ensures !(IsNamed(u, c, SHUTTER_UP[i]) && IsNamed(u, c, SHUTTER_DOWN[i])) {
      NamesDiffer(i);
    }
    forall i: nat | i < |NAME_ON| ensures !(IsNamed(u, c, NAME_ON[i]) && IsNamed(u, c, NAME_OFF[i])) {
      NamesDiffer(i);
    }
  }

  /** With unique ids all ids of all devices are pairwise distinct, and every id consumed
      belongs to a device. */
  lemma UniqueIdsGiveDistinctDevices(u: Unicode, cmds: seq<ActionCmd>)
    requires UniqueIds(cmds)
    ensures OwnIdsDistinct(u, cmds)
    ensures ShuttersOf(u, cmds).used == AllIds(ShuttersOf(u, cmds).out, ShutterIds)
    ensures ActionsOf(u, cmds).used == AllIds(ActionsOf(u, cmds).out, ActionIds)
  {
    forall a, b | a in cmds && b in cmds ensures !SelfCouple(u, a, b) {
      if a == b {
        NotACoupleWithItself(u, a);
      }
    }
    DistinctUnlessSelfPairable(u, cmds);
    var rest := Remaining(cmds, ShuttersOf(u, cmds).used);
    ShuttersKept(u, cmds, {});
    ActionsKept(u, rest);
    forall x ensures !PrefixTwins(rest, x) {
      forall c, d | c in rest && d in rest && c.id == d.id ensures !IsPrefixCouple(c, d) {
        NotItsOwnCouple(c);
      }
    }
  }
}
