/** What the watchdog's output pins show: over every timed run each is the last value a
    handled message gave for its own field. */
module WatchdogOutputs {
  import opened Wrappers
  import opened Watchdog
  import opened WatchdogReset

  datatype Output = ToolChanged | CompEnable

  function PinOf(p: Pins, o: Output): bool {
    match o
    case ToolChanged => p.toolChanged
    case CompEnable => p.compEnable
  }

  /** What a message says of an output. */
  function SaidOf(m: Msg, o: Output): Option<bool> {
    match o
    case ToolChanged => m.toolChanged
    case CompEnable => m.compEnable
  }

  predicate Raises(e: Event) { e.Message? && e.m.compMethod.BadMethod? }

  /** The message at i was handled to its end: a client was there and it did not raise. */
  ghost predicate HandledAt(events: seq<Event>, i: nat) {
    i < |events| && HasClient(events[..i]) && events[i].Message? && !Raises(events[i])
  }

  ghost predicate Says(events: seq<Event>, o: Output, i: nat) { HandledAt(events, i) && SaidOf(events[i].m, o).Some? }

  /** An accept, a loss or a message that raises drops both outputs. */
  predicate Drops(e: Event) { e.Accept? || e.Lost? || Raises(e) }

  /** The last handled message to say something of the output, nothing having dropped it since. */
  ghost predicate LastSaid(events: seq<Event>, o: Output, i: nat) {
    Says(events, o, i) && forall j | i < j < |events| :: !Drops(events[j]) && !Says(events, o, j)
  }

  /** The pin shows the last thing said, and is low when nothing was. */
  ghost predicate Shows(events: seq<Event>, o: Output, pin: bool) {
    && (forall i: nat :: LastSaid(events, o, i) ==> pin == SaidOf(events[i].m, o).value)
    && ((forall i: nat :: !LastSaid(events, o, i)) ==> !pin)
  }

  lemma HandledSnoc(before: seq<Event>, e: Event, i: nat)
    ensures i < |before| ==> (HandledAt(before + [e], i) <==> HandledAt(before, i))
    ensures i == |before| ==> (HandledAt(before + [e], i) <==> HasClient(before) && e.Message? && !Raises(e))
  {
    if i <= |before| {
      assert (before + [e])[..i] == before[..i];
      assert before[..|before|] == before;
    }
  }

  /** The new event says nothing of the output and does not drop it. */
  lemma SaidBefore(before: seq<Event>, e: Event, o: Output, i: nat)
    requires !Drops(e) && !Says(before + [e], o, |before|)
    ensures LastSaid(before + [e], o, i) <==> LastSaid(before, o, i)
  {
    var all := before + [e];
    HandledSnoc(before, e, i);
    forall j: nat | j < |before| ensures Says(all, o, j) <==> Says(before, o, j) {
      HandledSnoc(before, e, j);
    }
  }

  lemma PinKept(before: seq<Event>, e: Event, o: Output, pin: bool)
    requires Shows(before, o, pin) && !Drops(e) && !Says(before + [e], o, |before|)
    ensures Shows(before + [e], o, pin)
  {
    forall i: nat ensures LastSaid(before + [e], o, i) <==> LastSaid(before, o, i) {
      SaidBefore(before, e, o, i);
    }
    forall i: nat | LastSaid(before + [e], o, i) ensures (before + [e])[i] == before[i] && i < |before| {
    }
  }

  lemma PinSaid(before: seq<Event>, e: Event, o: Output)
    requires Says(before + [e], o, |before|)
    ensures Shows(before + [e], o, SaidOf(e.m, o).value)
  {
    var all := before + [e];
    assert LastSaid(all, o, |before|);
    forall i: nat | LastSaid(all, o, i) ensures i == |before| {
    }
  }

  lemma PinDropped(before: seq<Event>, e: Event, o: Output)
    requires Drops(e)
    ensures Shows(before + [e], o, false)
  {
    var all := before + [e];
    assert all[|before|] == e && !Says(all, o, |before|);
    forall i: nat | Says(all, o, i) ensures !LastSaid(all, o, i) {
      assert i < |before| && Drops(all[|before|]);
    }
  }

  lemma OutputMessage(c: Config, w: Wd, m: Msg, now: real, o: Output)
    requires w.client && !m.compMethod.BadMethod?
    ensures PinOf(OnMessage(c, w, m, now).pins, o) == if SaidOf(m, o).Some? then SaidOf(m, o).value else PinOf(w.pins, o)
  {
  }

  lemma OutputStep(c: Config, w: Wd, e: Event, o: Output)
    requires PinsInv(w)
    ensures PinOf(WdStep(c, w, e).pins, o) ==
            if Drops(e) then false
            else if w.client && e.Message? && SaidOf(e.m, o).Some? then SaidOf(e.m, o).value
            else PinOf(w.pins, o)
  {
    if e.Message? && w.client && !Raises(e) {
      OutputMessage(c, w, e.m, e.at, o);
    }
  }

  /** Over every run `tool-changed` and `compensation-enable` each show the last value that
      a handled message carried for that very field since the last accept, loss or
      raising message, and are low if none did. */
  lemma {:induction false} OutputsShowLastSaid(c: Config, from: real, events: seq<Event>, o: Output)
    requires ValidConfig(c) && Timed(from, events)
    ensures Shows(events, o, PinOf(Run(c, Start(from), events).wd.pins, o))
  {
    if events != [] {
      var before, e := events[..|events| - 1], events[|events| - 1];
      var w := Run(c, Start(from), before).wd;
      assert before + [e] == events;
      TimedPrefix(from, events);
      OutputsShowLastSaid(c, from, before, o);
      RunKeepsInv(c, from, before);
      ClientIs(c, from, before);
      OutputStep(c, w, e, o);
      HandledSnoc(before, e, |before|);
      if Drops(e) {
        PinDropped(before, e, o);
      } else if Says(events, o, |before|) {
        PinSaid(before, e, o);
      } else {
        PinKept(before, e, o, PinOf(w.pins, o));
      }
    }
  }

  // ---- the compensation method, which nothing resets ----

  ghost predicate SetsMethod(events: seq<Event>, i: nat) { HandledAt(events, i) && events[i].m.compMethod.Method? }

  ghost predicate LastMethod(events: seq<Event>, i: nat) {
    SetsMethod(events, i) && forall j | i < j < |events| :: !SetsMethod(events, j)
  }

  ghost predicate ShowsMethod(events: seq<Event>, n: nat) {
    && (forall i: nat :: LastMethod(events, i) ==> n == events[i].m.compMethod.n)
    && ((forall i: nat :: !LastMethod(events, i)) ==> n == 2)
  }

  lemma MethodBefore(before: seq<Event>, e: Event, i: nat)
    requires !SetsMethod(before + [e], |before|)
    ensures LastMethod(before + [e], i) <==> LastMethod(before, i)
  {
    HandledSnoc(before, e, i);
    forall j: nat | j < |before| ensures SetsMethod(before + [e], j) <==> SetsMethod(before, j) {
      HandledSnoc(before, e, j);
    }
  }

  lemma MethodKept(before: seq<Event>, e: Event, n: nat)
    requires ShowsMethod(before, n) && !SetsMethod(before + [e], |before|)
    ensures ShowsMethod(before + [e], n)
  {
    forall i: nat ensures LastMethod(before + [e], i) <==> LastMethod(before, i) {
      MethodBefore(before, e, i);
    }
    forall i: nat | LastMethod(before + [e], i) ensures i < |before| && (before + [e])[i] == before[i] {
    }
  }

  lemma MethodSet(before: seq<Event>, e: Event)
    requires SetsMethod(before + [e], |before|)
    ensures ShowsMethod(before + [e], e.m.compMethod.n)
  {
    assert LastMethod(before + [e], |before|);
    forall i: nat | LastMethod(before + [e], i) ensures i == |before| {
    }
  }

  lemma MethodStep(c: Config, w: Wd, e: Event)
    ensures WdStep(c, w, e).pins.compMethod ==
            if w.client && e.Message? && e.m.compMethod.Method? then e.m.compMethod.n else w.pins.compMethod
  {
  }

  /** `compensation-method` shows the last number a handled message carried, through every
      accept, loss and error, and 2 before the first. */
  lemma {:induction false} MethodShowsLastSet(c: Config, from: real, events: seq<Event>)
    ensures ShowsMethod(events, Run(c, Start(from), events).wd.pins.compMethod)
  {
    if events != [] {
      var before, e := events[..|events| - 1], events[|events| - 1];
      assert before + [e] == events;
      MethodShowsLastSet(c, from, before);
      ClientIs(c, from, before);
      MethodStep(c, Run(c, Start(from), before).wd, e);
      HandledSnoc(before, e, |before|);
      if SetsMethod(events, |before|) {
        MethodSet(before, e);
      } else {
        MethodKept(before, e, Run(c, Start(from), before).wd.pins.compMethod);
      }
    }
  }
}
