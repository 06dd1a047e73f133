/** Discovery of shutters and on/off devices among an equipment's action commands:
    greedy pairing over a shared set of consumed command ids. */
module Pairing {
  import opened Options
  import opened Text

  datatype ActionCmd = ActionCmd(id: nat, name: string, generic: Option<string>, subtype: string)

  datatype Shutter = Shutter(upId: nat, downId: nat, stopId: Option<nat>, sliderId: Option<nat>)

  datatype Action = Action(onId: nat, offId: nat)

  const NAME_ON := ["on", "allumer", "marche", "activer"]
  const NAME_OFF := ["off", "éteindre", "arrêt", "désactiver"]
  const SHUTTER_UP := ["monter", "monté", "up", "ouvrir", "open"]
  const SHUTTER_DOWN := ["descendre", "descendu", "down", "fermer", "close"]
  const SHUTTER_STOP_NAMES := ["stop", "arrêter"]

  /** Where a pass stands: the ids consumed and the devices found. */
  datatype Pass<T> = Pass(used: set<nat>, out: seq<T>)

  type Want = ActionCmd -> bool

  // ----- What a command can be -----

  predicate IsGeneric(c: ActionCmd, g: string) {
    c.generic == Some(g)
  }

  predicate IsNamed(u: Unicode, c: ActionCmd, name: string) {
    Lower(u, c.name) == name
  }

  predicate IsStop(u: Unicode, c: ActionCmd) {
    IsGeneric(c, "FLAP_STOP") || Lower(u, c.name) in SHUTTER_STOP_NAMES
  }

  predicate IsSlider(u: Unicode, c: ActionCmd) {
    IsGeneric(c, "FLAP_SLIDER") || c.subtype == "slider" || IsNamed(u, c, "position")
  }

  function Generic(g: string): Want {
    (c: ActionCmd) => IsGeneric(c, g)
  }

  function Named(u: Unicode, name: string): Want {
    (c: ActionCmd) => IsNamed(u, c, name)
  }

  function Stops(u: Unicode): Want {
    (c: ActionCmd) => IsStop(u, c)
  }

  function Sliders(u: Unicode): Want {
    (c: ActionCmd) => IsSlider(u, c)
  }

  /** iter().find over the commands not consumed yet. */
  function FindUnused(cmds: seq<ActionCmd>, used: set<nat>, want: Want): (r: Option<ActionCmd>)
    ensures r.Some? ==> r.value in cmds && r.value.id !in used && want(r.value)
    ensures r.None? ==> forall c :: c in cmds && want(c) ==> c.id in used
  {
    if cmds == [] then None
    else if cmds[0].id !in used && want(cmds[0]) then Some(cmds[0])
    else
      assert forall c :: c in cmds <==> c == cmds[0] || c in cmds[1..];
      FindUnused(cmds[1..], used, want)
  }

  // ----- The passes as functions -----

  function IdOf(c: Option<ActionCmd>): Option<nat> {
    if c.None? then None else Some(c.value.id)
  }

  function Mark(used: set<nat>, c: Option<ActionCmd>): set<nat> {
    if c.None? then used else used + {c.value.id}
  }

  function PushedShutter(u: Unicode, cmds: seq<ActionCmd>, up: ActionCmd, down: ActionCmd, p: Pass<Shutter>)
    : Pass<Shutter>
  {
    var couple := p.used + {up.id, down.id};
    var stop := FindUnused(cmds, couple, Stops(u));
    var slider := FindUnused(cmds, Mark(couple, stop), Sliders(u));
    Pass(Mark(Mark(couple, stop), slider), p.out + [Shutter(up.id, down.id, IdOf(stop), IdOf(slider))])
  }

  function FlapStep(u: Unicode, cmds: seq<ActionCmd>, c: ActionCmd, p: Pass<Shutter>): Pass<Shutter> {
    var down := FindUnused(cmds, p.used, Generic("FLAP_DOWN"));
    if c.id in p.used || !IsGeneric(c, "FLAP_UP") || down.None? then p else PushedShutter(u, cmds, c, down.value, p)
  }

  function FlapPass(u: Unicode, cmds: seq<ActionCmd>, used0: set<nat>, k: nat): Pass<Shutter>
    requires k <= |cmds|
  {
    if k == 0 then Pass(used0, []) else FlapStep(u, cmds, cmds[k - 1], FlapPass(u, cmds, used0, k - 1))
  }

  function ShutterNameStep(u: Unicode, cmds: seq<ActionCmd>, i: nat, p: Pass<Shutter>): Pass<Shutter>
    requires i < |SHUTTER_UP|
  {
    var up := FindUnused(cmds, p.used, Named(u, SHUTTER_UP[i]));
    var down := FindUnused(cmds, p.used, Named(u, SHUTTER_DOWN[i]));
    if up.None? || down.None? then p else PushedShutter(u, cmds, up.value, down.value, p)
  }

  function ShutterNames(u: Unicode, cmds: seq<ActionCmd>, p: Pass<Shutter>, i: nat): Pass<Shutter>
    requires i <= |SHUTTER_UP|
  {
    if i == 0 then p else ShutterNameStep(u, cmds, i - 1, ShutterNames(u, cmds, p, i - 1))
  }

  function Shutters(u: Unicode, cmds: seq<ActionCmd>, used0: set<nat>): Pass<Shutter> {
    ShutterNames(u, cmds, FlapPass(u, cmds, used0, |cmds|), |SHUTTER_UP|)
  }

  function StripSuffix(s: string, suffix: string): (r: Option<string>)
    ensures r.Some? ==> s == r.value + suffix
    ensures forall p: string :: s == p + suffix ==> r == Some(p)
  {
    if |suffix| <= |s| && s[|s| - |suffix|..] == suffix then Some(s[..|s| - |suffix|]) else None
  }

  function PrefixOf(c: ActionCmd): Option<string> {
    if c.generic.None? then None else StripSuffix(c.generic.value, "_ON")
  }

  /** The couple is recorded only if both insertions into used are new. */
  function PrefixStep(cmds: seq<ActionCmd>, c: ActionCmd, p: Pass<Action>): Pass<Action> {
    var prefix := PrefixOf(c);
    if prefix.None? then p
    else
      var off := FindUnused(cmds, p.used, Generic(prefix.value + "_OFF"));
      if off.None? || c.id in p.used then p
      else if off.value.id == c.id then p.(used := p.used + {c.id})
      else Pass(p.used + {c.id, off.value.id}, p.out + [Action(c.id, off.value.id)])
  }

  function PrefixPass(cmds: seq<ActionCmd>, k: nat): Pass<Action>
    requires k <= |cmds|
  {
    if k == 0 then Pass({}, []) else PrefixStep(cmds, cmds[k - 1], PrefixPass(cmds, k - 1))
  }

  function ActionNameStep(u: Unicode, cmds: seq<ActionCmd>, i: nat, p: Pass<Action>): Pass<Action>
    requires i < |NAME_ON|
  {
    var on := FindUnused(cmds, p.used, Named(u, NAME_ON[i]));
    var off := FindUnused(cmds, p.used, Named(u, NAME_OFF[i]));
    if on.None? || off.None? then p
    else Pass(p.used + {on.value.id, off.value.id}, p.out + [Action(on.value.id, off.value.id)])
  }

  function ActionNames(u: Unicode, cmds: seq<ActionCmd>, p: Pass<Action>, i: nat): Pass<Action>
    requires i <= |NAME_ON|
  {
    if i == 0 then p else ActionNameStep(u, cmds, i - 1, ActionNames(u, cmds, p, i - 1))
  }

  function Actions(u: Unicode, cmds: seq<ActionCmd>): Pass<Action> {
    ActionNames(u, cmds, PrefixPass(cmds, |cmds|), |NAME_ON|)
  }

  function Remaining(cmds: seq<ActionCmd>, used: set<nat>): (r: seq<ActionCmd>)
    ensures forall c :: c in r <==> c in cmds && c.id !in used
  {
    if cmds == [] then []
    else
      assert forall c :: c in cmds <==> c == cmds[0] || c in cmds[1..];
      (if cmds[0].id in used then [] else [cmds[0]]) + Remaining(cmds[1..], used)
  }

  /** One equipment: shutters first, then on/off devices from what is left. */
  function ShuttersOf(u: Unicode, cmds: seq<ActionCmd>): Pass<Shutter> {
    Shutters(u, cmds, {})
  }

  function ActionsOf(u: Unicode, cmds: seq<ActionCmd>): Pass<Action> {
    Actions(u, Remaining(cmds, ShuttersOf(u, cmds).used))
  }

  // ----- The code -----

  /** push_shutter: attaches a stop and a slider to a fresh couple. */
  method PushShutter(u: Unicode, cmds: seq<ActionCmd>, up: ActionCmd, down: ActionCmd, usedIn: set<nat>,
                     outIn: seq<Shutter>)
    returns (used: set<nat>, out: seq<Shutter>)
    ensures Pass(used, out) == PushedShutter(u, cmds, up, down, Pass(usedIn, outIn))
  {
    used := usedIn + {up.id} + {down.id};
    assert used == usedIn + {up.id, down.id};
    var stop := FindUnused(cmds, used, Stops(u));
    if stop.Some? {
      used := used + {stop.value.id};
    }
    var slider := FindUnused(cmds, used, Sliders(u));
    if slider.Some? {
      used := used + {slider.value.id};
    }
    out := outIn + [Shutter(up.id, down.id, IdOf(stop), IdOf(slider))];
  }

  method PairShutters(u: Unicode, cmds: seq<ActionCmd>, used0: set<nat>) returns (used: set<nat>, out: seq<Shutter>)
    ensures Pass(used, out) == Shutters(u, cmds, used0)
  {
    used, out := used0, [];
    for k := 0 to |cmds|
      invariant Pass(used, out) == FlapPass(u, cmds, used0, k)
    {
      var c := cmds[k];
      if c.id in used || !IsGeneric(c, "FLAP_UP") {
        continue;
      }
      var down := FindUnused(cmds, used, Generic("FLAP_DOWN"));
      if down.Some? {
        used, out := PushShutter(u, cmds, c, down.value, used, out);
      }
    }
    ghost var flaps := Pass(used, out);
    for i := 0 to |SHUTTER_UP|
      invariant Pass(used, out) == ShutterNames(u, cmds, flaps, i)
    {
      var up := FindUnused(cmds, used, Named(u, SHUTTER_UP[i]));
      var down := FindUnused(cmds, used, Named(u, SHUTTER_DOWN[i]));
      if up.Some? && down.Some? {
        used, out := PushShutter(u, cmds, up.value, down.value, used, out);
      }
    }
  }

  method PairActions(u: Unicode, cmds: seq<ActionCmd>) returns (used: set<nat>, out: seq<Action>)
    ensures Pass(used, out) == Actions(u, cmds)
  {
    used, out := {}, [];
    for k := 0 to |cmds|
      invariant Pass(used, out) == PrefixPass(cmds, k)
    {
      used, out := PairPrefix(cmds, cmds[k], used, out);
    }
    ghost var prefixes := Pass(used, out);
    for i := 0 to |NAME_ON|
      invariant Pass(used, out) == ActionNames(u, cmds, prefixes, i)
    {
      var on := FindUnused(cmds, used, Named(u, NAME_ON[i]));
      var off := FindUnused(cmds, used, Named(u, NAME_OFF[i]));
      if on.Some? && off.Some? {
        used := used + {on.value.id, off.value.id};
        out := out + [Action(on.value.id, off.value.id)];
      }
    }
  }

  /** The body of pass 1. */
  method PairPrefix(cmds: seq<ActionCmd>, c: ActionCmd, usedIn: set<nat>, outIn: seq<Action>)
    returns (used: set<nat>, out: seq<Action>)
    ensures Pass(used, out) == PrefixStep(cmds, c, Pass(usedIn, outIn))
  {
    used, out := usedIn, outIn;
    var prefix := PrefixOf(c);
    if prefix.None? {
      return;
    }
    var off := FindUnused(cmds, used, Generic(prefix.value + "_OFF"));
    if off.Some? && c.id !in used {
      used := used + {c.id};
      if off.value.id !in used {
        used := used + {off.value.id};
        assert used == usedIn + {c.id, off.value.id};
        out := out + [Action(c.id, off.value.id)];
      }
    }
  }

  method Discover(u: Unicode, cmds: seq<ActionCmd>) returns (shutters: seq<Shutter>, actions: seq<Action>)
    ensures shutters == ShuttersOf(u, cmds).out && actions == ActionsOf(u, cmds).out
  {
    var used, usedToo;
    used, shutters := PairShutters(u, cmds, {});
    var remaining := Remaining(cmds, used);
    usedToo, actions := PairActions(u, remaining);
  }
}
