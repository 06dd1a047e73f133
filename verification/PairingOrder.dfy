/** Which commands become the devices of an equipment: always the first ones of their
    kind that are still unused, the generic pass before the names, the names in the
    order of the vocabulary. */
module PairingOrder {
  import opened Options
  import opened Pairing
  import opened PairingLaws
  import opened Text

  /** The command at i is the first of its kind that is not used. */
  ghost predicate PickedAt(cmds: seq<ActionCmd>, used: set<nat>, want: Want, id: nat, i: nat) {
    && i < |cmds| && cmds[i].id == id && want(cmds[i]) && id !in used
    && forall j :: 0 <= j < i && want(cmds[j]) ==> cmds[j].id in used
  }

  ghost predicate Picked(cmds: seq<ActionCmd>, used: set<nat>, want: Want, id: nat) {
    exists i: nat :: PickedAt(cmds, used, want, id, i)
  }

  /** find takes the first one, or there is none. */
  lemma {:induction false} FindsTheFirst(cmds: seq<ActionCmd>, used: set<nat>, want: Want)
    ensures var r := FindUnused(cmds, used, want);
            if r.Some? then Picked(cmds, used, want, r.value.id) else AllUsed(cmds, used, want)
  {
    if cmds != [] {
      if cmds[0].id !in used && want(cmds[0]) {
        assert PickedAt(cmds, used, want, cmds[0].id, 0);
      } else {
        FindsTheFirst(cmds[1..], used, want);
        if FindUnused(cmds, used, want).Some? {
          var id := FindUnused(cmds, used, want).value.id;
          var i: nat :| PickedAt(cmds[1..], used, want, id, i);
          assert forall j :: 0 < j < i + 1 ==> cmds[j] == cmds[1..][j - 1];
          assert PickedAt(cmds, used, want, id, i + 1);
        }
      }
    }
  }

  // ----- Shutters -----

  /** how is 0 for the generic types, and i + 1 for couple i of the vocabulary. */
  ghost predicate CoupleChosen(u: Unicode, cmds: seq<ActionCmd>, used: set<nat>, up: nat, down: nat, how: nat) {
    if how == 0 then Picked(cmds, used, Generic("FLAP_UP"), up) && Picked(cmds, used, Generic("FLAP_DOWN"), down)
    else
      && how <= |SHUTTER_UP|
      && Picked(cmds, used, Named(u, SHUTTER_UP[how - 1]), up)
      && Picked(cmds, used, Named(u, SHUTTER_DOWN[how - 1]), down)
  }

  ghost predicate PartChosen(cmds: seq<ActionCmd>, used: set<nat>, want: Want, part: Option<nat>) {
    if part.Some? then Picked(cmds, used, want, part.value) else AllUsed(cmds, used, want)
  }

  /** The couple, then the first stop, then the first slider. */
  ghost predicate ShutterChosen(u: Unicode, cmds: seq<ActionCmd>, used: set<nat>, s: Shutter, how: nat) {
    && CoupleChosen(u, cmds, used, s.upId, s.downId, how)
    && PartChosen(cmds, used + {s.upId, s.downId}, Stops(u), s.stopId)
    && PartChosen(cmds, used + {s.upId, s.downId} + OptSet(s.stopId), Sliders(u), s.sliderId)
  }

  /** The generic pass comes first, and a couple of names makes one device at most. */
  predicate InTurn(hows: seq<nat>, top: nat) {
    && (forall k :: 0 <= k < |hows| ==> hows[k] <= top)
    && forall k, l :: 0 <= k < l < |hows| ==> hows[k] < hows[l] || hows[k] == hows[l] == 0
  }

  ghost predicate ShuttersChosen(u: Unicode, cmds: seq<ActionCmd>, used0: set<nat>, out: seq<Shutter>, hows: seq<nat>) {
    && |hows| == |out|
    && forall k :: 0 <= k < |out| ==>
         ShutterChosen(u, cmds, used0 + AllIds(out[..k], ShutterIds), out[k], hows[k])
  }

  ghost predicate ShuttersTraced(u: Unicode, cmds: seq<ActionCmd>, used0: set<nat>, p: Pass<Shutter>, hows: seq<nat>,
                                 top: nat)
  {
    ShuttersChosen(u, cmds, used0, p.out, hows) && InTurn(hows, top) && p.used == used0 + AllIds(p.out, ShutterIds)
  }

  lemma PushedChosen(u: Unicode, cmds: seq<ActionCmd>, up: ActionCmd, down: ActionCmd, p: Pass<Shutter>, how: nat)
    requires CoupleChosen(u, cmds, p.used, up.id, down.id, how)
    ensures var q := PushedShutter(u, cmds, up, down, p);
            && |q.out| == |p.out| + 1 && q.out[..|p.out|] == p.out
            && ShutterChosen(u, cmds, p.used, q.out[|p.out|], how) && q.used == p.used + ShutterIds(q.out[|p.out|])
  {
    var couple := p.used + {up.id, down.id};
    var stop := FindUnused(cmds, couple, Stops(u));
    FindsTheFirst(cmds, couple, Stops(u));
    FindsTheFirst(cmds, Mark(couple, stop), Sliders(u));
    assert Mark(couple, stop) == couple + OptSet(IdOf(stop));
  }

  lemma ChosenGrows(u: Unicode, cmds: seq<ActionCmd>, used0: set<nat>, out: seq<Shutter>, hows: seq<nat>, s: Shutter,
                    how: nat)
    requires ShuttersChosen(u, cmds, used0, out, hows)
    requires ShutterChosen(u, cmds, used0 + AllIds(out, ShutterIds), s, how)
    ensures ShuttersChosen(u, cmds, used0, out + [s], hows + [how])
  {
    var all := out + [s];
    forall k | 0 <= k < |all|
      ensures ShutterChosen(u, cmds, used0 + AllIds(all[..k], ShutterIds), all[k], (hows + [how])[k])
    {
      assert all[..k] == if k < |out| then out[..k] else out;
      assert out[..|out|] == out;
    }
  }

  lemma TurnGrows(hows: seq<nat>, top: nat, how: nat)
    requires InTurn(hows, top) && (top < how || top == how == 0)
    ensures InTurn(hows + [how], how)
  {
  }

  lemma TracedFurther(u: Unicode, cmds: seq<ActionCmd>, used0: set<nat>, up: ActionCmd, down: ActionCmd,
                      p: Pass<Shutter>, hows: seq<nat>, top: nat, how: nat)
    requires ShuttersTraced(u, cmds, used0, p, hows, top) && CoupleChosen(u, cmds, p.used, up.id, down.id, how)
    requires top < how || top == how == 0
    ensures ShuttersTraced(u, cmds, used0, PushedShutter(u, cmds, up, down, p), hows + [how], how)
  {
    var q := PushedShutter(u, cmds, up, down, p);
    PushedChosen(u, cmds, up, down, p, how);
    var s := q.out[|p.out|];
    assert q.out == p.out + [s];
    ChosenGrows(u, cmds, used0, p.out, hows, s, how);
    TurnGrows(hows, top, how);
    IdsAppend(p.out, ShutterIds, s);
  }

  lemma FlapPicked(u: Unicode, cmds: seq<ActionCmd>, used: set<nat>, k: nat)
    requires k < |cmds| && FlapsExhausted(cmds[..k], cmds, used)
    requires cmds[k].id !in used && IsGeneric(cmds[k], "FLAP_UP")
    requires FindUnused(cmds, used, Generic("FLAP_DOWN")).Some?
    ensures CoupleChosen(u, cmds, used, cmds[k].id, FindUnused(cmds, used, Generic("FLAP_DOWN")).value.id, 0)
  {
    var down := FindUnused(cmds, used, Generic("FLAP_DOWN")).value;
    FindsTheFirst(cmds, used, Generic("FLAP_DOWN"));
    forall j | 0 <= j < k && Generic("FLAP_UP")(cmds[j]) ensures cmds[j].id in used {
      assert cmds[j] == cmds[..k][j] && IsGeneric(down, "FLAP_DOWN");
    }
    assert PickedAt(cmds, used, Generic("FLAP_UP"), cmds[k].id, k);
  }

  lemma NamesPicked(u: Unicode, cmds: seq<ActionCmd>, used: set<nat>, i: nat)
    requires i < |SHUTTER_UP|
    ensures var up := FindUnused(cmds, used, Named(u, SHUTTER_UP[i]));
            var down := FindUnused(cmds, used, Named(u, SHUTTER_DOWN[i]));
            up.Some? && down.Some? ==> CoupleChosen(u, cmds, used, up.value.id, down.value.id, i + 1)
  {
    FindsTheFirst(cmds, used, Named(u, SHUTTER_UP[i]));
    FindsTheFirst(cmds, used, Named(u, SHUTTER_DOWN[i]));
  }

  /** What holds at the start and is kept by every step of a pass holds at its end. */
  lemma {:induction false} FlapsKeep(u: Unicode, cmds: seq<ActionCmd>, used0: set<nat>, k: nat,
                                     kept: (nat, Pass<Shutter>) -> bool)
    requires k <= |cmds| && kept(0, FlapPass(u, cmds, used0, 0))
    requires forall i: nat, p :: i < |cmds| && kept(i, p) ==> kept(i + 1, FlapStep(u, cmds, cmds[i], p))
    ensures kept(k, FlapPass(u, cmds, used0, k))
  {
    if k != 0 {
      FlapsKeep(u, cmds, used0, k - 1, kept);
    }
  }

  ghost predicate Traceable(u: Unicode, cmds: seq<ActionCmd>, used0: set<nat>, p: Pass<Shutter>, top: nat) {
    exists hows :: ShuttersTraced(u, cmds, used0, p, hows, top)
  }

  lemma TopGrows(u: Unicode, cmds: seq<ActionCmd>, used0: set<nat>, p: Pass<Shutter>, top: nat, more: nat)
    requires Traceable(u, cmds, used0, p, top) && top <= more
    ensures Traceable(u, cmds, used0, p, more)
  {
    var hows :| ShuttersTraced(u, cmds, used0, p, hows, top);
    assert ShuttersTraced(u, cmds, used0, p, hows, more);
  }

  lemma PushTraceable(u: Unicode, cmds: seq<ActionCmd>, used0: set<nat>, up: ActionCmd, down: ActionCmd,
                      p: Pass<Shutter>, top: nat, how: nat)
    requires Traceable(u, cmds, used0, p, top) && CoupleChosen(u, cmds, p.used, up.id, down.id, how)
    requires top < how || top == how == 0
    ensures Traceable(u, cmds, used0, PushedShutter(u, cmds, up, down, p), how)
  {
    var hows :| ShuttersTraced(u, cmds, used0, p, hows, top);
    TracedFurther(u, cmds, used0, up, down, p, hows, top, how);
  }

  lemma NameStepTraced(u: Unicode, cmds: seq<ActionCmd>, used0: set<nat>, i: nat, p: Pass<Shutter>)
    requires i < |SHUTTER_UP| && Traceable(u, cmds, used0, p, i)
    ensures Traceable(u, cmds, used0, ShutterNameStep(u, cmds, i, p), i + 1)
  {
    var up := FindUnused(cmds, p.used, Named(u, SHUTTER_UP[i]));
    var down := FindUnused(cmds, p.used, Named(u, SHUTTER_DOWN[i]));
    if up.Some? && down.Some? {
      NamesPicked(u, cmds, p.used, i);
      PushTraceable(u, cmds, used0, up.value, down.value, p, i, i + 1);
    } else {
      TopGrows(u, cmds, used0, p, i, i + 1);
    }
  }

  lemma FlapStepTraced(u: Unicode, cmds: seq<ActionCmd>, used0: set<nat>, k: nat, p: Pass<Shutter>)
    requires k < |cmds| && Traceable(u, cmds, used0, p, 0) && FlapsExhausted(cmds[..k], cmds, p.used)
    ensures Traceable(u, cmds, used0, FlapStep(u, cmds, cmds[k], p), 0)
  {
    var down := FindUnused(cmds, p.used, Generic("FLAP_DOWN"));
    if cmds[k].id !in p.used && IsGeneric(cmds[k], "FLAP_UP") && down.Some? {
      FlapPicked(u, cmds, p.used, k);
      PushTraceable(u, cmds, used0, cmds[k], down.value, p, 0, 0);
    }
  }

  ghost function FlapTrace(u: Unicode, cmds: seq<ActionCmd>, used0: set<nat>): (nat, Pass<Shutter>) -> bool {
    (k: nat, p: Pass<Shutter>) =>
      k <= |cmds| && p == FlapPass(u, cmds, used0, k) && Traceable(u, cmds, used0, p, 0)
  }

  ghost function NameTrace(u: Unicode, cmds: seq<ActionCmd>, used0: set<nat>): (nat, Pass<Shutter>) -> bool {
    (i: nat, p: Pass<Shutter>) => Traceable(u, cmds, used0, p, i)
  }

  lemma NoShutterYet(u: Unicode, cmds: seq<ActionCmd>, used0: set<nat>)
    ensures Traceable(u, cmds, used0, FlapPass(u, cmds, used0, 0), 0)
  {
    assert ShuttersTraced(u, cmds, used0, FlapPass(u, cmds, used0, 0), [], 0);
  }

  lemma FlapTraceStep(u: Unicode, cmds: seq<ActionCmd>, used0: set<nat>, k: nat, p: Pass<Shutter>)
    requires k < |cmds| && FlapTrace(u, cmds, used0)(k, p)
    ensures FlapTrace(u, cmds, used0)(k + 1, FlapStep(u, cmds, cmds[k], p))
  {
    FlapPassSound(u, cmds, used0, k);
    FlapStepTraced(u, cmds, used0, k, p);
  }

  lemma FlapTraceSteps(u: Unicode, cmds: seq<ActionCmd>, used0: set<nat>)
    ensures var kept := FlapTrace(u, cmds, used0);
            forall k: nat, p :: k < |cmds| && kept(k, p) ==> kept(k + 1, FlapStep(u, cmds, cmds[k], p))
  {
    forall k: nat, p | k < |cmds| && FlapTrace(u, cmds, used0)(k, p)
      ensures FlapTrace(u, cmds, used0)(k + 1, FlapStep(u, cmds, cmds[k], p))
    {
      FlapTraceStep(u, cmds, used0, k, p);
    }
  }

  lemma FlapsTraced(u: Unicode, cmds: seq<ActionCmd>, used0: set<nat>)
    ensures Traceable(u, cmds, used0, FlapPass(u, cmds, used0, |cmds|), 0)
  {
    NoShutterYet(u, cmds, used0);
    FlapTraceSteps(u, cmds, used0);
    FlapsKeep(u, cmds, used0, |cmds|, FlapTrace(u, cmds, used0));
  }

  lemma ShuttersTraceable(u: Unicode, cmds: seq<ActionCmd>, used0: set<nat>)
    ensures Traceable(u, cmds, used0, Shutters(u, cmds, used0), |SHUTTER_UP|)
  {
    var kept := NameTrace(u, cmds, used0);
    FlapsTraced(u, cmds, used0);
    forall i: nat, p | i < |SHUTTER_UP| && kept(i, p) ensures kept(i + 1, ShutterNameStep(u, cmds, i, p)) {
      NameStepTraced(u, cmds, used0, i, p);
    }
    NamesKeep(u, cmds, FlapPass(u, cmds, used0, |cmds|), |SHUTTER_UP|, kept);
  }

  /** For every equipment: each shutter is made of the first unused commands of its kind,
      its stop and slider included, given the ids of the shutters before it; the generic
      types come before the names, and those in the order of the vocabulary. */
  lemma ShuttersTakeTheFirst(u: Unicode, cmds: seq<ActionCmd>)
    ensures exists hows :: InTurn(hows, |SHUTTER_UP|) && ShuttersChosen(u, cmds, {}, ShuttersOf(u, cmds).out, hows)
  {
    ShuttersTraceable(u, cmds, {});
    var hows :| ShuttersTraced(u, cmds, {}, Shutters(u, cmds, {}), hows, |SHUTTER_UP|);
  }

  // ----- On/off devices -----

  ghost predicate PrefixChosen(cmds: seq<ActionCmd>, used: set<nat>, a: Action, p: string) {
    Picked(cmds, used, Generic(p + "_ON"), a.onId) && Picked(cmds, used, Generic(p + "_OFF"), a.offId)
  }

  ghost predicate ActionChosen(u: Unicode, cmds: seq<ActionCmd>, used: set<nat>, a: Action, how: nat) {
    if how == 0 then
      exists p: string :: PrefixChosen(cmds, used, a, p)
    else
      && how <= |NAME_ON|
      && Picked(cmds, used, Named(u, NAME_ON[how - 1]), a.onId)
      && Picked(cmds, used, Named(u, NAME_OFF[how - 1]), a.offId)
  }

  /** What was used by then: the ids of the devices before, and perhaps ids that a P_ON and
      a P_OFF command share. */
  ghost predicate UsedBefore(cmds: seq<ActionCmd>, out: seq<Action>, used: set<nat>) {
    AllIds(out, ActionIds) <= used && forall x :: x in used && x !in AllIds(out, ActionIds) ==> PrefixTwins(cmds, x)
  }

  ghost predicate ActionsChosen(u: Unicode, cmds: seq<ActionCmd>, out: seq<Action>, useds: seq<set<nat>>,
                                hows: seq<nat>)
  {
    && |hows| == |useds| == |out|
    && forall k :: 0 <= k < |out| ==>
         UsedBefore(cmds, out[..k], useds[k]) && ActionChosen(u, cmds, useds[k], out[k], hows[k])
  }

  lemma ActionsGrow(u: Unicode, cmds: seq<ActionCmd>, out: seq<Action>, useds: seq<set<nat>>, hows: seq<nat>, a: Action,
                    used: set<nat>, how: nat)
    requires ActionsChosen(u, cmds, out, useds, hows)
    requires UsedBefore(cmds, out, used) && ActionChosen(u, cmds, used, a, how)
    ensures ActionsChosen(u, cmds, out + [a], useds + [used], hows + [how])
  {
    var all := out + [a];
    forall k | 0 <= k < |all|
      ensures UsedBefore(cmds, all[..k], (useds + [used])[k])
      ensures ActionChosen(u, cmds, (useds + [used])[k], all[k], (hows + [how])[k])
    {
      assert all[..k] == if k < |out| then out[..k] else out;
    }
  }

  lemma PrefixPicked(u: Unicode, cmds: seq<ActionCmd>, used: set<nat>, k: nat)
    requires k < |cmds| && PrefixesExhausted(cmds[..k], cmds, used)
    requires cmds[k].id !in used && PrefixOf(cmds[k]).Some?
    requires FindUnused(cmds, used, Generic(PrefixOf(cmds[k]).value + "_OFF")).Some?
    ensures var off := FindUnused(cmds, used, Generic(PrefixOf(cmds[k]).value + "_OFF")).value;
            ActionChosen(u, cmds, used, Action(cmds[k].id, off.id), 0)
  {
    var p := PrefixOf(cmds[k]).value;
    var off := FindUnused(cmds, used, Generic(p + "_OFF")).value;
    FindsTheFirst(cmds, used, Generic(p + "_OFF"));
    forall j | 0 <= j < k && Generic(p + "_ON")(cmds[j]) ensures cmds[j].id in used {
      assert cmds[j] == cmds[..k][j] && IsPrefixCouple(cmds[j], off);
    }
    assert PickedAt(cmds, used, Generic(p + "_ON"), cmds[k].id, k);
    assert PrefixChosen(cmds, used, Action(cmds[k].id, off.id), p);
  }

  lemma SoundMeansUsedBefore(u: Unicode, cmds: seq<ActionCmd>, p: Pass<Action>)
    requires ActionsSound(u, cmds, p)
    ensures UsedBefore(cmds, p.out, p.used)
  {
  }

  ghost predicate ActionsTraced(u: Unicode, cmds: seq<ActionCmd>, p: Pass<Action>, useds: seq<set<nat>>, hows: seq<nat>,
                                top: nat)
  {
    ActionsChosen(u, cmds, p.out, useds, hows) && InTurn(hows, top)
  }

  ghost predicate ActionTraceable(u: Unicode, cmds: seq<ActionCmd>, p: Pass<Action>, top: nat) {
    UsedBefore(cmds, p.out, p.used) && exists useds, hows :: ActionsTraced(u, cmds, p, useds, hows, top)
  }

  lemma ActionTopGrows(u: Unicode, cmds: seq<ActionCmd>, p: Pass<Action>, q: Pass<Action>, top: nat, more: nat)
    requires ActionTraceable(u, cmds, p, top) && UsedBefore(cmds, q.out, q.used) && q.out == p.out && top <= more
    ensures ActionTraceable(u, cmds, q, more)
  {
    var useds, hows :| ActionsTraced(u, cmds, p, useds, hows, top);
    assert ActionsTraced(u, cmds, q, useds, hows, more);
  }

  lemma TraceGrows(u: Unicode, cmds: seq<ActionCmd>, p: Pass<Action>, useds: seq<set<nat>>, hows: seq<nat>, top: nat,
                   a: Action, q: Pass<Action>, how: nat)
    requires ActionsTraced(u, cmds, p, useds, hows, top) && UsedBefore(cmds, p.out, p.used) && q.out == p.out + [a]
    requires ActionChosen(u, cmds, p.used, a, how) && (top < how || top == how == 0)
    ensures ActionsTraced(u, cmds, q, useds + [p.used], hows + [how], how)
  {
    ActionsGrow(u, cmds, p.out, useds, hows, a, p.used, how);
    TurnGrows(hows, top, how);
  }

  lemma ActionTraced(u: Unicode, cmds: seq<ActionCmd>, p: Pass<Action>, top: nat, a: Action, q: Pass<Action>, how: nat)
    requires ActionTraceable(u, cmds, p, top) && UsedBefore(cmds, q.out, q.used) && q.out == p.out + [a]
    requires ActionChosen(u, cmds, p.used, a, how) && (top < how || top == how == 0)
    ensures ActionTraceable(u, cmds, q, how)
  {
    var useds, hows :| ActionsTraced(u, cmds, p, useds, hows, top);
    TraceGrows(u, cmds, p, useds, hows, top, a, q, how);
  }

  lemma PrefixStepTraced(u: Unicode, cmds: seq<ActionCmd>, k: nat, p: Pass<Action>)
    requires k < |cmds| && ActionTraceable(u, cmds, p, 0) && PrefixesExhausted(cmds[..k], cmds, p.used)
    requires ActionsSound(u, cmds, p)
    ensures ActionTraceable(u, cmds, PrefixStep(cmds, cmds[k], p), 0)
  {
    var q, c := PrefixStep(cmds, cmds[k], p), cmds[k];
    PrefixStepSound(u, cmds, c, p);
    SoundMeansUsedBefore(u, cmds, q);
    if q.out == p.out {
      ActionTopGrows(u, cmds, p, q, 0, 0);
    } else {
      var off := FindUnused(cmds, p.used, Generic(PrefixOf(c).value + "_OFF"));
      PrefixPicked(u, cmds, p.used, k);
      ActionTraced(u, cmds, p, 0, Action(c.id, off.value.id), q, 0);
    }
  }

  lemma ActionNamesPicked(u: Unicode, cmds: seq<ActionCmd>, used: set<nat>, i: nat)
    requires i < |NAME_ON|
    ensures var on := FindUnused(cmds, used, Named(u, NAME_ON[i]));
            var off := FindUnused(cmds, used, Named(u, NAME_OFF[i]));
            on.Some? && off.Some? ==> ActionChosen(u, cmds, used, Action(on.value.id, off.value.id), i + 1)
  {
    FindsTheFirst(cmds, used, Named(u, NAME_ON[i]));
    FindsTheFirst(cmds, used, Named(u, NAME_OFF[i]));
  }

  lemma ActionNameStepTraced(u: Unicode, cmds: seq<ActionCmd>, i: nat, p: Pass<Action>)
    requires i < |NAME_ON| && ActionTraceable(u, cmds, p, i) && PrefixesExhausted(cmds, cmds, p.used)
    requires ActionsSound(u, cmds, p)
    ensures ActionTraceable(u, cmds, ActionNameStep(u, cmds, i, p), i + 1)
    ensures PrefixesExhausted(cmds, cmds, ActionNameStep(u, cmds, i, p).used)
    ensures ActionsSound(u, cmds, ActionNameStep(u, cmds, i, p))
  {
    var q := ActionNameStep(u, cmds, i, p);
    var on := FindUnused(cmds, p.used, Named(u, NAME_ON[i]));
    var off := FindUnused(cmds, p.used, Named(u, NAME_OFF[i]));
    ActionNameSound(u, cmds, i, p);
    SoundMeansUsedBefore(u, cmds, q);
    ActionNamesPicked(u, cmds, p.used, i);
    if on.Some? && off.Some? {
      ActionTraced(u, cmds, p, i, Action(on.value.id, off.value.id), q, i + 1);
    } else {
      ActionTopGrows(u, cmds, p, q, i, i + 1);
    }
  }

  lemma {:induction false} PrefixesKeep(cmds: seq<ActionCmd>, k: nat, kept: (nat, Pass<Action>) -> bool)
    requires k <= |cmds| && kept(0, PrefixPass(cmds, 0))
    requires forall i: nat, p :: i < |cmds| && kept(i, p) ==> kept(i + 1, PrefixStep(cmds, cmds[i], p))
    ensures kept(k, PrefixPass(cmds, k))
  {
    if k != 0 {
      PrefixesKeep(cmds, k - 1, kept);
    }
  }

  lemma {:induction false} ActionNamesKeep(u: Unicode, cmds: seq<ActionCmd>, p: Pass<Action>, n: nat,
                                           kept: (nat, Pass<Action>) -> bool)
    requires n <= |NAME_ON| && kept(0, p)
    requires forall i: nat, q :: i < |NAME_ON| && kept(i, q) ==> kept(i + 1, ActionNameStep(u, cmds, i, q))
    ensures kept(n, ActionNames(u, cmds, p, n))
  {
    if n != 0 {
      ActionNamesKeep(u, cmds, p, n - 1, kept);
    }
  }

  ghost function PrefixTrace(u: Unicode, cmds: seq<ActionCmd>): (nat, Pass<Action>) -> bool {
    (k: nat, p: Pass<Action>) => k <= |cmds| && p == PrefixPass(cmds, k) && ActionTraceable(u, cmds, p, 0)
  }

  ghost function ActionNameTrace(u: Unicode, cmds: seq<ActionCmd>): (nat, Pass<Action>) -> bool {
    (i: nat, p: Pass<Action>) =>
      ActionTraceable(u, cmds, p, i) && PrefixesExhausted(cmds, cmds, p.used) && ActionsSound(u, cmds, p)
  }

  lemma NoActionYet(u: Unicode, cmds: seq<ActionCmd>)
    ensures ActionTraceable(u, cmds, PrefixPass(cmds, 0), 0)
  {
    assert ActionsTraced(u, cmds, PrefixPass(cmds, 0), [], [], 0);
  }

  lemma PrefixTraceStep(u: Unicode, cmds: seq<ActionCmd>, k: nat, p: Pass<Action>)
    requires k < |cmds| && PrefixTrace(u, cmds)(k, p)
    ensures PrefixTrace(u, cmds)(k + 1, PrefixStep(cmds, cmds[k], p))
  {
    PrefixPassSound(u, cmds, k);
    PrefixStepTraced(u, cmds, k, p);
  }

  lemma PrefixTraceSteps(u: Unicode, cmds: seq<ActionCmd>)
    ensures var kept := PrefixTrace(u, cmds);
            forall k: nat, p :: k < |cmds| && kept(k, p) ==> kept(k + 1, PrefixStep(cmds, cmds[k], p))
  {
    forall k: nat, p | k < |cmds| && PrefixTrace(u, cmds)(k, p)
      ensures PrefixTrace(u, cmds)(k + 1, PrefixStep(cmds, cmds[k], p))
    {
      PrefixTraceStep(u, cmds, k, p);
    }
  }

  lemma PrefixesTraced(u: Unicode, cmds: seq<ActionCmd>)
    ensures ActionTraceable(u, cmds, PrefixPass(cmds, |cmds|), 0)
  {
    NoActionYet(u, cmds);
    PrefixTraceSteps(u, cmds);
    PrefixesKeep(cmds, |cmds|, PrefixTrace(u, cmds));
  }

  lemma ActionsAreTraced(u: Unicode, cmds: seq<ActionCmd>)
    ensures ActionTraceable(u, cmds, Actions(u, cmds), |NAME_ON|)
  {
    var kept := ActionNameTrace(u, cmds);
    PrefixesTraced(u, cmds);
    PrefixPassSound(u, cmds, |cmds|);
    assert cmds[..|cmds|] == cmds;
    forall i: nat, p | i < |NAME_ON| && kept(i, p) ensures kept(i + 1, ActionNameStep(u, cmds, i, p)) {
      ActionNameStepTraced(u, cmds, i, p);
    }
    ActionNamesKeep(u, cmds, PrefixPass(cmds, |cmds|), |NAME_ON|, kept);
  }

  /** Each device of the pass is made of the first unused commands of its kind, the
      generic prefixes before the names, and those in the order of the vocabulary. */
  ghost predicate FirstActions(u: Unicode, cmds: seq<ActionCmd>, p: Pass<Action>) {
    exists useds, hows :: ActionsTraced(u, cmds, p, useds, hows, |NAME_ON|)
  }

  lemma ActionsFirst(u: Unicode, cmds: seq<ActionCmd>)
    ensures FirstActions(u, cmds, Actions(u, cmds))
  {
    ActionsAreTraced(u, cmds);
  }

  /** The same for on/off devices, among the commands the shutters leave. */
  lemma ActionsTakeTheFirst(u: Unicode, cmds: seq<ActionCmd>)
    ensures FirstActions(u, Remaining(cmds, ShuttersOf(u, cmds).used), ActionsOf(u, cmds))
  {
    ActionsFirst(u, Remaining(cmds, ShuttersOf(u, cmds).used));
  }

  // ----- The vocabulary -----

  function Couples(a: seq<string>, b: seq<string>): (r: seq<(string, string)>)
    requires |a| == |b|
    ensures |r| == |a| && forall i :: 0 <= i < |a| ==> r[i] == (a[i], b[i])
  {
    seq(|a|, i requires 0 <= i < |a| => (a[i], b[i]))
  }

  /** What names and types mean: which commands attach as stop and slider, and which names
      pair up. */
  lemma Vocabulary(u: Unicode, c: ActionCmd)
    ensures Stops(u)(c) <==> c.generic == Some("FLAP_STOP") || Lower(u, c.name) in {"stop", "arrêter"}
    ensures Sliders(u)(c) <==>
              c.generic == Some("FLAP_SLIDER") || c.subtype == "slider" || Lower(u, c.name) == "position"
    ensures forall name :: Named(u, name)(c) <==> Lower(u, c.name) == name
    ensures Couples(SHUTTER_UP, SHUTTER_DOWN) ==
            [("monter", "descendre"), ("monté", "descendu"), ("up", "down"), ("ouvrir", "fermer"), ("open", "close")]
    ensures Couples(NAME_ON, NAME_OFF) ==
            [("on", "off"), ("allumer", "éteindre"), ("marche", "arrêt"), ("activer", "désactiver")]
  {
  }
}
