/** route and the actor's exit path as they run on their own: every statement that
    touches shared state is one step of the bridge's machine. */
module Assist {
  import opened Bridge
  import opened Chunks
  import opened Options
  import Text
  import Topics

  ghost predicate OthersKept(before: map<Device, nat>, after: map<Device, nat>, device: Device) {
    forall d :: d != device ==> (d in after <==> d in before) && (d in after ==> after[d] == before[d])
  }

  /** What one uninterrupted call of route does, whatever branch it takes: the question
      ends the queue of an open channel that the map holds for its device, or the
      backlog there is full and nothing changes. */
  ghost predicate OneCall(s: State, s': State, device: Device, text: Question, i: nat) {
    && |s.chans| <= |s'.chans|
    && i < |s'.calls| && s'.calls[i].device == device && s'.calls[i].question == text
    && OthersKept(s.devices, s'.devices, device)
    && (forall c :: 0 <= c < |s.chans| && !(device in s.devices && s.devices[device] == c) ==>
          s'.chans[c] == s.chans[c])
    && if s'.calls[i].pc.Dropped? then s'.chans == s.chans && s'.devices == s.devices && BacklogFull(s, device)
       else
         && s'.calls[i].pc.Placed?
         && device in s'.devices
         && s'.calls[i].pc.chan == s'.devices[device] < |s'.chans|
         && var chan := s'.chans[s'.devices[device]];
            Open(chan) && chan.queue != [] && chan.queue[|chan.queue| - 1] == text
  }

  lemma CallFrom(s: State, s1: State, s': State, device: Device, text: Question, i: nat)
    requires s.chans == s1.chans && s.devices == s1.devices
    requires OneCall(s1, s', device, text, i)
    ensures OneCall(s, s', device, text, i)
  {
  }

  class AssistBridge {
    var devices: map<Device, nat>
    var chans: seq<Chan>
    var shutdown: bool
    var calls: seq<Call>
    ghost var arrived: seq<Question>
    ghost var history: seq<Label>

    ghost function View(): State
      reads this
    {
      State(devices, chans, calls, arrived, shutdown)
    }

    /** The bridge is where the steps taken so far lead. */
    ghost predicate Valid()
      reads this
    {
      IsRun(history) && Reached(history) == View()
    }

    constructor ()
      ensures Valid() && View() == NEW
    {
      devices, chans, shutdown := map[], [], false;
      calls, arrived, history := [], [], [];
    }

    ghost method Took(l: Label)
      requires IsRun(history) && Enabled(Reached(history), l) && Apply(Reached(history), l) == View()
      modifies this`history
      ensures Valid()
    {
      Extend(history, l);
      history := history + [l];
    }

    ghost method TookRoute(i: nat, step: RouteStep)
      requires IsRun(history) && CanRoute(Reached(history), i, step) && Routed(Reached(history), i, step) == View()
      modifies this`history
      ensures Valid()
    {
      Took(Label.Route(i, step));
    }

    ghost method TookAct(c: nat, step: ActorStep)
      requires IsRun(history) && CanAct(Reached(history), c, step) && !step.RemoveOwn?
      requires SetChan(Reached(history), c, Stepped(Reached(history), c, step)) == View()
      modifies this`history
      ensures Valid()
    {
      Took(Act(c, step));
    }

    method Mark(i: nat, pc: Pc)
      requires i < |calls|
      modifies this`calls
      ensures calls == old(calls)[i := old(calls)[i].(pc := pc)]
    {
      calls := calls[i := calls[i].(pc := pc)];
    }

    /** A publish from the broker: true when the topic belongs to the bridge, even if
        the payload was dropped as malformed. */
    method Handle(u: Text.Unicode, textField: Bytes -> Option<string>, prefix: string, topic: string, payload: Bytes)
      returns (mine: bool)
      requires Valid()
      modifies this
      ensures Valid() && shutdown == old(shutdown)
      ensures mine <==> exists d :: Topics.IsDeviceId(d) && topic == prefix + Topics.QUESTIONS + d
      ensures var text := Topics.ParseText(u, textField, payload);
              if mine && text.Some? then
                && arrived == old(arrived) + [text.value]
                && exists d :: topic == prefix + Topics.QUESTIONS + d
                            && OneCall(old(View()), View(), d, text.value, |old(calls)|)
              else View() == old(View())
    {
      var device := Topics.ParseTranscription(prefix, topic);
      forall d ensures device == Some(d) <==> Topics.IsDeviceId(d) && topic == prefix + Topics.QUESTIONS + d {
        Topics.ParsesExactly(prefix, topic, d);
      }
      if device.None? {
        return false;
      }
      var text := Topics.ParseText(u, textField, payload);
      if text.None? {
        return true;
      }
      Admit(device.value, text.value);
      return true;
    }

    /** A well-formed question. */
    method Admit(device: Device, text: Question)
      requires Valid()
      modifies this
      ensures Valid() && arrived == old(arrived) + [text] && shutdown == old(shutdown)
      ensures OneCall(old(View()), View(), device, text, |old(calls)|)
    {
      ghost var s := View();
      Note(device, text);
      ghost var s1 := View();
      Route(device, text, |calls| - 1);
      CallFrom(s, s1, View(), device, text, |s.calls|);
    }

    method Note(device: Device, text: Question)
      requires Valid()
      modifies this
      ensures Valid() && View() == old(View()).(calls := calls, arrived := arrived)
      ensures calls == old(calls) + [Call(device, text, Looking)] && arrived == old(arrived) + [text]
    {
      calls := calls + [Call(device, text, Looking)];
      arrived := arrived + [text];
      Took(Arrive(device, text));
    }

    method Route(device: Device, text: Question, i: nat)
      requires Valid() && i < |calls| && calls[i] == Call(device, text, Looking)
      modifies this
      ensures Valid() && arrived == old(arrived) && shutdown == old(shutdown)
      ensures OneCall(old(View()), View(), device, text, i) && |calls| == |old(calls)|
    {
      var settled := Offer(device, text, i);
      if !settled {
        Respawn(device, text, i);
      }
    }

    /** The fast path, and the removal of a closed channel's entry: false when a new
        channel has to be built. */
    method Offer(device: Device, text: Question, i: nat) returns (settled: bool)
      requires Valid() && i < |calls| && calls[i] == Call(device, text, Looking)
      modifies this
      ensures Valid() && arrived == old(arrived) && shutdown == old(shutdown) && |calls| == |old(calls)|
      ensures settled ==> OneCall(old(View()), View(), device, text, i)
      ensures !settled ==> calls[i] == Call(device, text, Creating) && chans == old(chans)
                           && devices == old(devices) - {device}
    {
      RunsAreSound(history);
      if device !in devices {
        Mark(i, Creating);
        TookRoute(i, Look);
        return false;
      }
      var c := devices[device];
      if Open(chans[c]) {
        TrySend(device, text, i);
        return true;
      }
      Mark(i, Removing);
      TookRoute(i, Look);
      devices := devices - {device};
      Mark(i, Creating);
      TookRoute(i, Remove);
      return false;
    }

    /** try_send into the open channel the map holds. */
    method TrySend(device: Device, text: Question, i: nat)
      requires Valid() && i < |calls| && calls[i] == Call(device, text, Looking)
      requires device in devices && devices[device] < |chans| && Open(chans[devices[device]])
      modifies this
      ensures Valid() && arrived == old(arrived) && shutdown == old(shutdown) && |calls| == |old(calls)|
      ensures OneCall(old(View()), View(), device, text, i)
    {
      var c := devices[device];
      if |chans[c].queue| < BACKLOG {
        chans := chans[c := Accept(chans[c], text)];
        Mark(i, Placed(c));
      } else {
        RunsAreSound(history);
        LookDrops(View(), i);
        Mark(i, Dropped);
      }
      TookRoute(i, Look);
    }

    /** A fresh channel holding the question, its map entry, and its actor. */
    method Respawn(device: Device, text: Question, i: nat)
      requires Valid() && i < |calls| && calls[i] == Call(device, text, Creating)
      modifies this
      ensures Valid() && arrived == old(arrived) && shutdown == old(shutdown)
      ensures calls == old(calls)[i := Call(device, text, Placed(|old(chans)|))]
      ensures devices == old(devices)[device := |old(chans)|]
      ensures chans == old(chans) + [Opened(device, text).(phase := Live)]
    {
      var c := Register(device, text, i);
      chans := chans[c := chans[c].(phase := Live)];
      Mark(i, Placed(c));
      TookRoute(i, Spawn);
    }

    method Register(device: Device, text: Question, i: nat) returns (c: nat)
      requires Valid() && i < |calls| && calls[i] == Call(device, text, Creating)
      modifies this
      ensures Valid() && arrived == old(arrived) && shutdown == old(shutdown)
      ensures c == |old(chans)| && calls == old(calls)[i := Call(device, text, Spawning(c))]
      ensures devices == old(devices)[device := c] && chans == old(chans) + [Opened(device, text)]
    {
      c := |chans|;
      chans := chans + [Opened(device, text)];
      Mark(i, Inserting(c));
      TookRoute(i, Create);
      devices := devices[device := c];
      Mark(i, Spawning(c));
      TookRoute(i, Insert);
    }

    /** What an actor does once it has left its loop. */
    method Exit(c: nat)
      requires Valid() && ChanAt(View(), c, Leaving)
      modifies this
      ensures Valid() && ChanAt(View(), c, Exited) && arrived == old(arrived) && shutdown == old(shutdown)
      ensures chans[c].consumed == old(chans[c].consumed)
      ensures if shutdown then chans[c].discarded == old(chans[c].queue) else chans[c].rerouted == old(chans[c].queue)
      ensures forall d :: d in devices ==> devices[d] != c
      ensures OthersKept(old(devices), devices, old(chans[c].device))
    {
      Unmap(c);
      DrainAll(c);
      Conclude(c);
    }

    /** remove_if, then close. */
    method Unmap(c: nat)
      requires Valid() && ChanAt(View(), c, Leaving)
      modifies this
      ensures Valid() && arrived == old(arrived) && shutdown == old(shutdown) && |chans| == |old(chans)|
      ensures chans[c] == old(chans[c]).(phase := Draining)
      ensures chans[c].unrouted == chans[c].rerouted == chans[c].discarded == []
      ensures devices == RemoveIf(old(devices), chans[c].device, c)
    {
      RunsAreSound(history);
      assert Fate(chans[c]);
      var device := chans[c].device;
      if device in devices && devices[device] == c {
        devices := devices - {device};
      }
      chans := chans[c := chans[c].(phase := Removed)];
      Took(Act(c, RemoveOwn));
      chans := chans[c := chans[c].(phase := Draining)];
      TookAct(c, Close);
    }

    /** Leftovers are dropped during shutdown and routed again otherwise. */
    method Conclude(c: nat)
      requires Valid() && ChanAt(View(), c, Draining) && chans[c].queue == []
      requires chans[c].rerouted == chans[c].discarded == []
      modifies this
      ensures Valid() && ChanAt(View(), c, Exited) && arrived == old(arrived) && shutdown == old(shutdown)
      ensures chans[c].consumed == old(chans[c].consumed)
      ensures if shutdown then chans[c].discarded == old(chans[c].unrouted)
              else chans[c].rerouted == old(chans[c].unrouted)
      ensures forall d :: d in devices ==> devices[d] != c
      ensures OthersKept(old(devices), devices, old(chans[c].device))
    {
      if chans[c].unrouted == [] {
        chans := chans[c := chans[c].(phase := Exited)];
        TookAct(c, Decide);
      } else if shutdown {
        chans := chans[c := chans[c].(phase := Exited, discarded := chans[c].unrouted, unrouted := [])];
        TookAct(c, Decide);
      } else {
        chans := chans[c := chans[c].(phase := Rerouting(None))];
        TookAct(c, Decide);
        RouteAll(c);
      }
      RunsAreSound(history);
    }

    method DrainAll(c: nat)
      requires Valid() && ChanAt(View(), c, Draining) && chans[c].unrouted == []
      modifies this
      ensures Valid() && arrived == old(arrived) && shutdown == old(shutdown) && devices == old(devices)
      ensures |chans| == |old(chans)|
      ensures chans[c] == old(chans[c]).(queue := [], unrouted := old(chans[c].queue))
    {
      while chans[c].queue != []
        invariant Valid() && arrived == old(arrived) && shutdown == old(shutdown) && devices == old(devices)
        invariant |chans| == |old(chans)|
        invariant chans[c] == old(chans[c]).(queue := chans[c].queue, unrouted := chans[c].unrouted)
        invariant chans[c].unrouted + chans[c].queue == old(chans[c].queue)
        decreases |chans[c].queue|
      {
        var chan := chans[c];
        chans := chans[c := chan.(queue := chan.queue[1..], unrouted := chan.unrouted + [chan.queue[0]])];
        Shift(chan.unrouted, chan.queue);
        TookAct(c, Drain);
      }
      assert chans[c].unrouted + [] == chans[c].unrouted;
    }

    method RouteAll(c: nat)
      requires Valid() && ChanAt(View(), c, Rerouting(None)) && chans[c].rerouted == []
      modifies this
      ensures Valid() && ChanAt(View(), c, Exited) && arrived == old(arrived) && shutdown == old(shutdown)
      ensures chans[c].consumed == old(chans[c].consumed) && chans[c].rerouted == old(chans[c].unrouted)
      ensures OthersKept(old(devices), devices, old(chans[c].device))
    {
      var device := chans[c].device;
      while chans[c].unrouted != []
        invariant Valid() && arrived == old(arrived) && shutdown == old(shutdown)
        invariant ReadyToRoute(View(), c)
        invariant chans[c].device == device && chans[c].consumed == old(chans[c].consumed)
        invariant chans[c].rerouted + chans[c].unrouted == old(chans[c].unrouted)
        invariant OthersKept(old(devices), devices, device)
        decreases |chans[c].unrouted|
      {
        RunsAreSound(history);
        var chan := chans[c];
        var i := |calls|;
        Shift(chan.rerouted, chan.unrouted);
        chans := chans[c := chan.(unrouted := chan.unrouted[1..], rerouted := chan.rerouted + [chan.unrouted[0]],
                                  phase := Rerouting(Some(i)))];
        calls := calls + [Call(device, chan.unrouted[0], Looking)];
        Took(Reroute(c));
        Route(device, chan.unrouted[0], i);
      }
      chans := chans[c := chans[c].(phase := Exited)];
      TookAct(c, Leave);
    }
  }
}
