/** When an operator reset closes the trip latch again: the exact condition on the inputs
    before it, over every timed run. */
module WatchdogReset {
  import opened Wrappers
  import opened Watchdog

  // ---- what the inputs say ----

  /** A client is connected: the last event to decide that was an accept, and no loss and
      no message that raises has come since. */
  predicate HasClient(events: seq<Event>)
  {
    events != [] &&
    var before, e := events[..|events| - 1], events[|events| - 1];
    e.Accept? || (HasClient(before) && !e.Lost? && !(e.Message? && e.m.compMethod.BadMethod?))
  }

  /** The next event is a reset that a client sends and the process takes. */
  predicate TakesReset(before: seq<Event>, e: Event) {
    HasClient(before) && e.Message? && e.m.tripReset && !e.m.compMethod.BadMethod?
  }

  ghost predicate ResetTakenAt(events: seq<Event>, i: nat) { i < |events| && TakesReset(events[..i], events[i]) }

  /** A loop turn has passed the end of the pulse of the reset at i. */
  ghost predicate PulseDropped(c: Config, events: seq<Event>, i: nat)
    requires i < |events|
  {
    exists j :: i < j < |events| && events[j].Wake? && events[j].at >= events[i].at + c.pulse
  }

  ghost predicate PulsesOver(c: Config, events: seq<Event>) {
    forall i: nat :: ResetTakenAt(events, i) ==> PulseDropped(c, events, i)
  }

  /** The heartbeat pin at the start and after each event. */
  function Beats(c: Config, from: real, events: seq<Event>): (r: seq<bool>)
    ensures |r| == |events| + 1
  {
    (if events == [] then [] else Beats(c, from, events[..|events| - 1])) + [Run(c, Start(from), events).wd.pins.heartbeat]
  }

  predicate EdgeAt(beats: seq<bool>, i: nat) { i + 1 < |beats| && beats[i + 1] != beats[i] }

  /** Some heartbeat edge lies less than the oneshot width before t. */
  ghost predicate EdgeWithin(c: Config, from: real, events: seq<Event>, t: real) {
    exists i: nat :: EdgeAt(Beats(c, from, events), i) && t < events[i].at + c.width
  }

  // ---- and what the state makes of it ----

  lemma ClientStep(c: Config, w: Wd, e: Event)
    ensures WdStep(c, w, e).client <==> e.Accept? || (w.client && !e.Lost? && !(e.Message? && e.m.compMethod.BadMethod?))
  {
  }

  lemma {:induction false} ClientIs(c: Config, from: real, events: seq<Event>)
    ensures Run(c, Start(from), events).wd.client <==> HasClient(events)
  {
    if events != [] {
      ClientIs(c, from, events[..|events| - 1]);
      ClientStep(c, Run(c, Start(from), events[..|events| - 1]).wd, events[|events| - 1]);
    }
  }

  lemma OffStep(c: Config, w: Wd, e: Event)
    ensures WdStep(c, w, e).resetOffAt ==
            if w.client && e.Message? && e.m.tripReset && !e.m.compMethod.BadMethod? then Some(e.at + c.pulse)
            else if e.Wake? && w.resetOffAt.Some? && e.at >= w.resetOffAt.value then None
            else w.resetOffAt
  {
  }

  lemma ResetTakenEarlier(events: seq<Event>, i: nat)
    requires events != [] && i < |events| - 1
    ensures ResetTakenAt(events, i) <==> ResetTakenAt(events[..|events| - 1], i)
  {
    assert events[..|events| - 1][..i] == events[..i];
  }

  lemma ResetTakenLast(events: seq<Event>)
    requires events != []
    ensures ResetTakenAt(events, |events| - 1) <==> TakesReset(events[..|events| - 1], events[|events| - 1])
  {
  }

  lemma DroppedEarlier(c: Config, events: seq<Event>, i: nat)
    requires events != [] && i < |events| - 1
    ensures PulseDropped(c, events, i) <==>
              || PulseDropped(c, events[..|events| - 1], i)
              || (events[|events| - 1].Wake? && events[|events| - 1].at >= events[i].at + c.pulse)
  {
    var before := events[..|events| - 1];
    assert forall j :: 0 <= j < |before| ==> before[j] == events[j];
  }

  /** The end of the pulse on record is that of the latest reset taken, and none is on
      record exactly when every pulse has been dropped. */
  ghost predicate OffIs(c: Config, off: Option<real>, events: seq<Event>) {
    match off
    case None => PulsesOver(c, events)
    case Some(end) =>
      && (forall i: nat :: ResetTakenAt(events, i) ==> events[i].at + c.pulse <= end)
      && exists i: nat :: ResetTakenAt(events, i) && events[i].at + c.pulse == end && !PulseDropped(c, events, i)
  }

  lemma OffAfterReset(c: Config, from: real, events: seq<Event>)
    requires events != [] && Timed(from, events) && ResetTakenAt(events, |events| - 1)
    ensures OffIs(c, Some(events[|events| - 1].at + c.pulse), events)
  {
    var i := |events| - 1;
    assert ResetTakenAt(events, i) && !PulseDropped(c, events, i);
  }

  lemma OffAfterWake(c: Config, off: Option<real>, events: seq<Event>)
    requires events != [] && OffIs(c, off, events[..|events| - 1])
    requires events[|events| - 1].Wake? && (off.None? || events[|events| - 1].at >= off.value)
    ensures PulsesOver(c, events)
  {
    forall i: nat | ResetTakenAt(events, i) ensures PulseDropped(c, events, i) {
      assert i < |events| - 1 by { assert !ResetTakenAt(events, |events| - 1); }
      ResetTakenEarlier(events, i);
      DroppedEarlier(c, events, i);
    }
  }

  lemma OffKept(c: Config, off: Option<real>, events: seq<Event>)
    requires events != [] && OffIs(c, off, events[..|events| - 1]) && !ResetTakenAt(events, |events| - 1)
    requires !(events[|events| - 1].Wake? && (off.None? || events[|events| - 1].at >= off.value))
    ensures OffIs(c, off, events)
  {
    var before := events[..|events| - 1];
    forall i: nat | ResetTakenAt(events, i)
      ensures i < |before| && ResetTakenAt(before, i) && before[i] == events[i]
      ensures PulseDropped(c, before, i) ==> PulseDropped(c, events, i)
    {
      assert i != |before|;
      ResetTakenEarlier(events, i);
      DroppedEarlier(c, events, i);
    }
    if off.Some? {
      var i: nat :| ResetTakenAt(before, i) && before[i].at + c.pulse == off.value && !PulseDropped(c, before, i);
      ResetTakenEarlier(events, i);
      DroppedEarlier(c, events, i);
    }
  }

  lemma {:induction false} PulsesAre(c: Config, from: real, events: seq<Event>)
    requires Timed(from, events)
    ensures OffIs(c, Run(c, Start(from), events).wd.resetOffAt, events)
  {
    if events != [] {
      var before, e := events[..|events| - 1], events[|events| - 1];
      var w := Run(c, Start(from), before).wd;
      TimedPrefix(from, events);
      PulsesAre(c, from, before);
      ClientIs(c, from, before);
      OffStep(c, w, e);
      ResetTakenLast(events);
      if ResetTakenAt(events, |events| - 1) {
        OffAfterReset(c, from, events);
      } else if e.Wake? && (w.resetOffAt.None? || e.at >= w.resetOffAt.value) {
        OffAfterWake(c, w.resetOffAt, events);
      } else {
        OffKept(c, w.resetOffAt, events);
      }
    }
  }

  lemma {:induction false} PinLowExactlyWhenPulsesOver(c: Config, from: real, events: seq<Event>)
    requires ValidConfig(c) && Timed(from, events)
    ensures !Run(c, Start(from), events).wd.pins.tripReset <==> PulsesOver(c, events)
  {
    RunKeepsInv(c, from, events);
    PulsesAre(c, from, events);
  }

  /** `edge` is the time of the last of the edges. */
  ghost predicate EdgeIs(edge: Option<real>, events: seq<Event>, beats: seq<bool>)
    requires |beats| == |events| + 1
  {
    && (forall i: nat :: EdgeAt(beats, i) ==> edge.Some? && events[i].at <= edge.value)
    && (edge.Some? ==> exists i: nat :: EdgeAt(beats, i) && events[i].at == edge.value)
  }

  lemma EdgeSnoc(edge: Option<real>, before: seq<Event>, beats: seq<bool>, e: Event, beat: bool)
    requires |beats| == |before| + 1 && EdgeIs(edge, before, beats)
    requires forall i :: 0 <= i < |before| ==> before[i].at <= e.at
    ensures EdgeIs(if beat != beats[|before|] then Some(e.at) else edge, before + [e], beats + [beat])
  {
    var all, now := before + [e], beats + [beat];
    forall i: nat | EdgeAt(now, i)
      ensures if i < |before| then EdgeAt(beats, i) && all[i] == before[i] else beat != beats[|before|] && all[i] == e
    {
    }
    if beat != beats[|before|] {
      assert EdgeAt(now, |before|) && all[|before|].at == e.at;
    } else if edge.Some? {
      var i: nat :| EdgeAt(beats, i) && before[i].at == edge.value;
      assert EdgeAt(now, i) && all[i].at == edge.value;
    }
  }

  lemma BeatsLast(c: Config, from: real, events: seq<Event>)
    ensures Beats(c, from, events)[|events|] == Run(c, Start(from), events).wd.pins.heartbeat
  {
  }

  lemma EdgeStep(c: Config, s: Chain, e: Event)
    ensures Step(c, s, e).edge == if Step(c, s, e).wd.pins.heartbeat != s.wd.pins.heartbeat then Some(e.at) else s.edge
  {
  }

  lemma {:induction false} EdgesAre(c: Config, from: real, events: seq<Event>)
    requires Timed(from, events)
    ensures EdgeIs(Run(c, Start(from), events).edge, events, Beats(c, from, events))
  {
    if events != [] {
      var before, e := events[..|events| - 1], events[|events| - 1];
      TimedPrefix(from, events);
      EdgesAre(c, from, before);
      BeatsLast(c, from, before);
      EdgeStep(c, Run(c, Start(from), before), e);
      assert before + [e] == events;
      EdgeSnoc(Run(c, Start(from), before).edge, before, Beats(c, from, before), e,
               Run(c, Start(from), events).wd.pins.heartbeat);
    }
  }

  lemma {:induction false} OneshotRunsExactlyWhenEdgeWithin(c: Config, from: real, events: seq<Event>, t: real)
    requires Timed(from, events)
    ensures PulseOn(c, Run(c, Start(from), events).edge, t) <==> EdgeWithin(c, from, events, t)
  {
    EdgesAre(c, from, events);
  }

  // ---- the exact condition ----

  lemma OnlyResetsClose(c: Config, s: Chain, e: Event)
    requires PinsInv(s.wd) && !s.latchOk
    ensures Step(c, s, e).latchOk <==>
              && s.wd.client && e.Message? && e.m.tripReset && !e.m.compMethod.BadMethod?
              && !s.wd.pins.tripReset && PulseOn(c, Step(c, s, e).edge, e.at)
  {
  }

  lemma RunLast(c: Config, s: Chain, events: seq<Event>, e: Event)
    ensures Run(c, s, events + [e]) == Step(c, Run(c, s, events), e)
  {
    assert (events + [e])[..|events|] == events;
  }

  /** From every run's state with the latch open, the next event closes it if and only if
      it is a reset from a client, the pulse of every earlier reset has been dropped, and
      the last heartbeat edge, before the message or caused by it, lies less than the
      oneshot width back. */
  lemma {:induction false} ResetClosesExactlyWhen(c: Config, from: real, events: seq<Event>, e: Event)
    requires ValidConfig(c) && Timed(from, events + [e]) && !Run(c, Start(from), events).latchOk
    ensures Run(c, Start(from), events + [e]).latchOk <==>
              TakesReset(events, e) && PulsesOver(c, events) && EdgeWithin(c, from, events + [e], e.at)
  {
    assert (events + [e])[..|events|] == events;
    TimedPrefix(from, events + [e]);
    RunKeepsInv(c, from, events);
    ClientIs(c, from, events);
    PinLowExactlyWhenPulsesOver(c, from, events);
    OneshotRunsExactlyWhenEdgeWithin(c, from, events + [e], e.at);
    RunLast(c, Start(from), events, e);
    OnlyResetsClose(c, Run(c, Start(from), events), e);
  }

  /** The chain boots open and stays so until a client's first reset. */
  lemma {:induction false} FirstEnableNeedsReset(c: Config, from: real, events: seq<Event>) returns (i: nat)
    requires ValidConfig(c) && Timed(from, events) && Run(c, Start(from), events).latchOk
    ensures ResetTakenAt(events, i)
  {
    var before, e := events[..|events| - 1], events[|events| - 1];
    TimedPrefix(from, events);
    if Run(c, Start(from), before).latchOk {
      i := FirstEnableNeedsReset(c, from, before);
      ResetTakenEarlier(events, i);
    } else {
      assert before + [e] == events;
      ResetClosesExactlyWhen(c, from, before, e);
      i := |before|;
    }
  }

  // ---- a reset that is ignored ----

  const RESET: Msg := Msg(false, None, None, None, NoMethod, true)

  /** A client connects and makes the heartbeat rise one period later. */
  function Rising(p: real): seq<Event> { [Message(p, HELLO), Top(p), Wake(p)] }

  lemma RisingEdge(c: Config, s: Chain)
    requires ValidConfig(c) && s.wd.client && s.wd.localHbAt == 0.0 && !s.wd.localHb && !s.wd.pins.heartbeat && !s.latchOk
    ensures var n := Run(c, s, Rising(c.period));
            && n.wd.client && !n.latchOk && n.edge == Some(c.period) && n.now == c.period
            && (n.wd.pins.tripReset <==> s.wd.pins.tripReset && !(s.wd.resetOffAt.Some? && c.period >= s.wd.resetOffAt.value))
  {
    var a := Step(c, s, Message(c.period, HELLO));
    assert a.wd.client && a.wd.requested && a.wd.freshAt == Some(c.period) && a.wd.localHbAt == 0.0 && !a.latchOk
        && !a.wd.localHb && !a.wd.pins.heartbeat && a.wd.pins.tripReset == s.wd.pins.tripReset && a.wd.resetOffAt == s.wd.resetOffAt;
    var b := Step(c, a, Top(c.period));
    assert b.wd.client && b.wd.pins.heartbeat && b.edge == Some(c.period) && !b.latchOk
        && b.wd.pins.tripReset == s.wd.pins.tripReset && b.wd.resetOffAt == s.wd.resetOffAt;
    RunLast(c, s, [], Message(c.period, HELLO));
    RunLast(c, s, [] + [Message(c.period, HELLO)], Top(c.period));
    RunLast(c, s, [] + [Message(c.period, HELLO)] + [Top(c.period)], Wake(c.period));
    assert Rising(c.period) == [] + [Message(c.period, HELLO)] + [Top(c.period)] + [Wake(c.period)];
  }

  lemma {:induction false} RunConcat(c: Config, s: Chain, a: seq<Event>, b: seq<Event>)
    ensures Run(c, s, a + b) == Run(c, Run(c, s, a), b)
    decreases |b|
  {
    if b == [] {
      assert a + b == a;
    } else {
      RunConcat(c, s, a, b[..|b| - 1]);
      assert (a + b)[..|a + b| - 1] == a + b[..|b| - 1];
    }
  }

  lemma ThenReset(c: Config, s: Chain)
    requires ValidConfig(c) && s.wd.client && !s.latchOk && s.edge == Some(s.now)
    ensures Step(c, s, Message(s.now, RESET)).latchOk <==> !s.wd.pins.tripReset
  {
  }

  lemma AfterAccept(c: Config)
    ensures var a, b := Run(c, Start(0.0), [Accept(0.0)]), Run(c, Start(0.0), [Accept(0.0), Message(0.0, RESET)]);
            && a == Step(c, Start(0.0), Accept(0.0))
            && b == Step(c, a, Message(0.0, RESET))
  {
    RunLast(c, Start(0.0), [], Accept(0.0));
    RunLast(c, Start(0.0), [Accept(0.0)], Message(0.0, RESET));
    assert [] + [Accept(0.0)] == [Accept(0.0)] && [Accept(0.0)] + [Message(0.0, RESET)] == [Accept(0.0), Message(0.0, RESET)];
  }

  lemma ResetAfterRise(c: Config, first: seq<Event>)
    requires ValidConfig(c)
    requires var s := Run(c, Start(0.0), first);
             s.wd.client && s.wd.localHbAt == 0.0 && !s.wd.localHb && !s.wd.pins.heartbeat && !s.latchOk
    ensures var s := Run(c, Start(0.0), first);
            Run(c, Start(0.0), first + Rising(c.period) + [Message(c.period, RESET)]).latchOk <==>
              !(s.wd.pins.tripReset && !(s.wd.resetOffAt.Some? && c.period >= s.wd.resetOffAt.value))
  {
    RisingEdge(c, Run(c, Start(0.0), first));
    RunConcat(c, Start(0.0), first, Rising(c.period));
    RunLast(c, Start(0.0), first + Rising(c.period), Message(c.period, RESET));
    ThenReset(c, Run(c, Start(0.0), first + Rising(c.period)));
  }

  /** A reset before the first heartbeat edge makes the one behind that edge be ignored,
      with the oneshot running, if and only if the pulse is longer than the period, as
      50 ms and 30 Hz make it; without the first one the same reset closes the latch. */
  lemma {:induction false} EarlyResetSpoilsTheNext(c: Config)
    requires ValidConfig(c)
    ensures Run(c, Start(0.0), [Accept(0.0)] + Rising(c.period) + [Message(c.period, RESET)]).latchOk
    ensures Run(c, Start(0.0), [Accept(0.0), Message(0.0, RESET)] + Rising(c.period) + [Message(c.period, RESET)]).latchOk <==>
              c.pulse <= c.period
  {
    AfterAccept(c);
    var a := Run(c, Start(0.0), [Accept(0.0)]);
    assert a.wd.client && !a.wd.pins.tripReset && a.wd.localHbAt == 0.0 && !a.latchOk && a.edge == None;
    ResetAfterRise(c, [Accept(0.0)]);
    var b := Run(c, Start(0.0), [Accept(0.0), Message(0.0, RESET)]);
    assert b.wd.client && b.wd.pins.tripReset && b.wd.resetOffAt == Some(c.pulse) && b.wd.localHbAt == 0.0 && !b.latchOk;
    ResetAfterRise(c, [Accept(0.0), Message(0.0, RESET)]);
  }
}
