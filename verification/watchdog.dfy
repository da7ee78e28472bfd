/** The heartbeat safety chain: the watchdog process that drives the HAL pins, the
    retriggerable oneshot on its heartbeat pin, and the sticky trip latch.  A timed
    transition system: messages arrive and the loop is delayed arbitrarily. */
module Watchdog {
  import opened Wrappers

  /** Seconds: gateway freshness timeout, local heartbeat period, oneshot width,
      length of the reset pulse. */
  datatype Config = Config(timeout: real, period: real, width: real, pulse: real)

  predicate ValidConfig(c: Config) { c.timeout > 0.0 && c.period > 0.0 && c.width > 0.0 && c.pulse > 0.0 }

  datatype MethodField = NoMethod | Method(n: nat) | BadMethod

  /** A decoded message; `heartbeat` and `tripReset` say whether those are present. */
  datatype Msg = Msg(heartbeat: bool, connected: Option<bool>, toolChanged: Option<bool>,
                     compEnable: Option<bool>, compMethod: MethodField, tripReset: bool)

  predicate Refreshes(m: Msg) { m.connected == Some(true) || (m.heartbeat && m.connected == None) }

  datatype Pins = Pins(connected: bool, heartbeat: bool, toolChanged: bool, compEnable: bool, compMethod: nat, tripReset: bool)

  datatype Wd = Wd(client: bool, requested: bool, freshAt: Option<real>, localHb: bool, localHbAt: real,
                   resetOffAt: Option<real>, pins: Pins)

  const LOW := Pins(false, false, false, false, 2, false)

  function Boot(at: real): Wd { Wd(false, false, None, false, at, None, LOW) }

  predicate Fresh(c: Config, w: Wd, now: real) {
    w.client && w.requested && w.freshAt.Some? && now - w.freshAt.value <= c.timeout
  }

  // ---- the atomic sections of the loop ----

  function TopOfLoop(c: Config, w: Wd, now: real): Wd {
    if Fresh(c, w, now) then
      if now - w.localHbAt >= c.period then
        w.(pins := w.pins.(connected := true, heartbeat := !w.localHb), localHb := !w.localHb, localHbAt := now)
      else
        w.(pins := w.pins.(connected := true))
    else
      w.(pins := w.pins.(heartbeat := false,
                         connected := w.pins.connected && !(w.requested && w.client && w.freshAt.Some?)),
         localHb := false, localHbAt := now)
  }

  function PulseOff(w: Wd, now: real): Wd {
    if w.resetOffAt.Some? && now >= w.resetOffAt.value
    then w.(resetOffAt := None, pins := w.pins.(tripReset := false)) else w
  }

  /** What a new client, a lost client and any receive error have in common. */
  function ForcedLow(w: Wd, client: bool, now: real): Wd {
    w.(client := client, requested := false, freshAt := None, localHb := false, localHbAt := now,
       pins := w.pins.(connected := false, heartbeat := false, toolChanged := false, compEnable := false))
  }

  function WithConnected(w: Wd, m: Msg, now: real): Wd {
    match m.connected
    case None => w
    case Some(true) => w.(requested := true, freshAt := Some(now))
    case Some(false) =>
      w.(requested := false, freshAt := None, localHb := false, localHbAt := now,
         pins := w.pins.(connected := false, heartbeat := false))
  }

  function WithOutputs(p: Pins, m: Msg): Pins {
    p.(toolChanged := if m.toolChanged.Some? then m.toolChanged.value else p.toolChanged,
       compEnable := if m.compEnable.Some? then m.compEnable.value else p.compEnable,
       compMethod := if m.compMethod.Method? then m.compMethod.n else p.compMethod)
  }

  function OnMessage(c: Config, w: Wd, m: Msg, now: real): Wd {
    if !w.client then w
    else if m.compMethod.BadMethod? then ForcedLow(w, false, now)
    else
      var a := WithConnected(if m.heartbeat then w.(freshAt := Some(now)) else w, m, now);
      var b := a.(pins := WithOutputs(a.pins, m));
      if m.tripReset then b.(pins := b.pins.(tripReset := true), resetOffAt := Some(now + c.pulse)) else b
  }

  /** One event; `Top` and `Wake` are the two halves of a loop turn around the wait. */
  datatype Event =
    | Top(at: real)
    | Wake(at: real)
    | Accept(at: real)
    | Message(at: real, m: Msg)
    | Lost(at: real)

  function WdStep(c: Config, w: Wd, e: Event): Wd {
    match e
    case Top(at) => TopOfLoop(c, w, at)
    case Wake(at) => PulseOff(w, at)
    case Accept(at) => ForcedLow(w, true, at)
    case Message(at, m) => OnMessage(c, w, m, at)
    case Lost(at) => if w.client then ForcedLow(w, false, at) else w
  }

  class Process {
    const config: Config
    var client: bool
    var gatewayRequestedConnected: bool
    var gatewayFreshAt: Option<real>
    var localHeartbeat: bool
    var localHeartbeatAt: real
    var resetPulseOffAt: Option<real>
    var comp: Pins

    constructor (config: Config, at: real)
      ensures this.config == config && View() == Boot(at)
    {
      this.config := config;
      client, gatewayRequestedConnected, gatewayFreshAt := false, false, None;
      localHeartbeat, localHeartbeatAt, resetPulseOffAt, comp := false, at, None, LOW;
    }

    function View(): Wd
      reads this
    {
      Wd(client, gatewayRequestedConnected, gatewayFreshAt, localHeartbeat, localHeartbeatAt, resetPulseOffAt, comp)
    }

    method Freshness(now: real)
      modifies this
      ensures View() == WdStep(config, old(View()), Top(now))
    {
      var gatewayFresh := client && gatewayRequestedConnected && gatewayFreshAt.Some?
                   && now - gatewayFreshAt.value <= config.timeout;
      if gatewayFresh {
        comp := comp.(connected := true);
        if now - localHeartbeatAt >= config.period {
          localHeartbeat := !localHeartbeat;
          comp := comp.(heartbeat := localHeartbeat);
          localHeartbeatAt := now;
        }
      } else {
        if comp.heartbeat {
          comp := comp.(heartbeat := false);
        }
        localHeartbeat := false;
        localHeartbeatAt := now;
        if gatewayRequestedConnected && client && gatewayFreshAt.Some? {
          comp := comp.(connected := false);
        }
      }
    }

    method DropPulse(now: real)
      modifies this
      ensures View() == WdStep(config, old(View()), Wake(now))
    {
      if resetPulseOffAt.Some? && now >= resetPulseOffAt.value {
        comp := comp.(tripReset := false);
        resetPulseOffAt := None;
      }
    }

    method ForceLow(now: real, newClient: bool)
      modifies this
      ensures View() == ForcedLow(old(View()), newClient, now)
    {
      comp := comp.(connected := false, heartbeat := false, toolChanged := false, compEnable := false);
      gatewayRequestedConnected, gatewayFreshAt := false, None;
      localHeartbeat, localHeartbeatAt := false, now;
      client := newClient;
    }

    method Accepted(now: real)
      modifies this
      ensures View() == WdStep(config, old(View()), Accept(now))
    {
      ForceLow(now, true);
    }

    method Disconnected(now: real)
      modifies this
      ensures View() == WdStep(config, old(View()), Lost(now))
    {
      if client {
        ForceLow(now, false);
      }
    }

    method HandleConnected(m: Msg, now: real)
      modifies this
      ensures View() == WithConnected(old(View()), m, now)
    {
      if m.connected.Some? {
        gatewayRequestedConnected := m.connected.value;
        if gatewayRequestedConnected {
          gatewayFreshAt := Some(now);
        } else {
          comp := comp.(connected := false, heartbeat := false);
          gatewayFreshAt := None;
          localHeartbeat, localHeartbeatAt := false, now;
        }
      }
    }

    method HandleOutputs(m: Msg)
      modifies this`comp
      ensures comp == WithOutputs(old(comp), m)
    {
      if m.toolChanged.Some? { comp := comp.(toolChanged := m.toolChanged.value); }
      if m.compEnable.Some? { comp := comp.(compEnable := m.compEnable.value); }
      if m.compMethod.Method? { comp := comp.(compMethod := m.compMethod.n); }
    }

    /** One decoded message from the client; a bad compensation method raises. */
    method Received(now: real, m: Msg)
      modifies this
      ensures View() == WdStep(config, old(View()), Message(now, m))
    {
      if !client { return; }
      if m.heartbeat {
        gatewayFreshAt := Some(now);
      }
      HandleConnected(m, now);
      HandleOutputs(m);
      if m.compMethod.BadMethod? {
        ForceLow(now, false);
      } else if m.tripReset {
        comp := comp.(tripReset := true);
        resetPulseOffAt := Some(now + config.pulse);
      }
    }
  }

  // ---- the servo-thread components, sampled continuously ----

  /** The whole chain: `edge` is the last change of the heartbeat pin, `latchOk` the
      output of the trip latch, which boots latched. */
  datatype Chain = Chain(wd: Wd, edge: Option<real>, latchOk: bool, now: real)

  predicate PulseOn(c: Config, edge: Option<real>, t: real) { edge.Some? && t < edge.value + c.width }

  /** The latch opens on any FALSE sample of the oneshot; a rising reset edge closes
      it when the oneshot is TRUE. */
  function Step(c: Config, s: Chain, e: Event): Chain {
    var wd := WdStep(c, s.wd, e);
    var edge := if wd.pins.heartbeat != s.wd.pins.heartbeat then Some(e.at) else s.edge;
    var rising := wd.pins.tripReset && !s.wd.pins.tripReset;
    Chain(wd, edge,
          PulseOn(c, edge, e.at) && ((s.latchOk && PulseOn(c, s.edge, e.at)) || rising),
          e.at)
  }

  function Run(c: Config, s: Chain, events: seq<Event>): Chain {
    if events == [] then s else Step(c, Run(c, s, events[..|events| - 1]), events[|events| - 1])
  }

  function Start(at: real): Chain { Chain(Boot(at), None, false, at) }

  /** Times never go backwards. */
  ghost predicate Timed(from: real, events: seq<Event>) {
    (forall i :: 0 <= i < |events| ==> from <= events[i].at) &&
    (forall i, j :: 0 <= i < j < |events| ==> events[i].at <= events[j].at)
  }

  /** Machine enabled at time t, before the next event. */
  predicate Closed(c: Config, s: Chain, t: real) { s.wd.pins.connected && PulseOn(c, s.edge, t) && s.latchOk }

  // ---- what every run keeps ----

  ghost predicate RefreshAt(events: seq<Event>, t: real) {
    exists i :: 0 <= i < |events| && events[i].Message? && Refreshes(events[i].m) && events[i].at == t
  }

  ghost predicate TopAt(events: seq<Event>, t: real) {
    exists i :: 0 <= i < |events| && events[i].Top? && events[i].at == t
  }

  ghost predicate PinsInv(w: Wd) {
    && w.localHb == w.pins.heartbeat
    && (w.pins.heartbeat ==> w.pins.connected)
    && (w.pins.connected ==> w.requested)
    && (w.requested ==> w.client && w.freshAt.Some?)
    && (w.pins.tripReset <==> w.resetOffAt.Some?)
    && (w.pins.toolChanged || w.pins.compEnable ==> w.client)
  }

  /** While connected, the last heartbeat edge is no more than the timeout after the
      last refresh, and edges are never later than the local heartbeat clock. */
  ghost predicate TimeInv(c: Config, s: Chain) {
    && s.wd.localHbAt <= s.now
    && (s.edge.Some? ==> s.edge.value <= s.wd.localHbAt)
    && (s.wd.freshAt.Some? ==> s.wd.freshAt.value <= s.now)
    && (s.wd.pins.connected && s.edge.Some? && s.wd.freshAt.Some? ==> s.edge.value - s.wd.freshAt.value <= c.timeout)
  }

  lemma PinsMessage(c: Config, w: Wd, m: Msg, now: real)
    requires PinsInv(w)
    ensures PinsInv(OnMessage(c, w, m, now))
  {
  }

  lemma PinsStep(c: Config, w: Wd, e: Event)
    requires PinsInv(w)
    ensures PinsInv(WdStep(c, w, e))
  {
    if e.Message? {
      PinsMessage(c, w, e.m, e.at);
    }
  }

  /** A message drops the heartbeat or leaves it, and never raises `connected`. */
  lemma MessageShape(c: Config, w: Wd, m: Msg, now: real)
    requires PinsInv(w)
    ensures var n := OnMessage(c, w, m, now);
            && (n.pins.heartbeat == w.pins.heartbeat || !n.pins.connected)
            && (n.pins.connected ==> w.pins.connected)
            && (n.localHbAt == w.localHbAt || (n.localHbAt == now && !n.pins.heartbeat))
            && (n.pins.heartbeat != w.pins.heartbeat ==> n.localHbAt == now)
            && (n.freshAt == w.freshAt || n.freshAt == None || (n.freshAt == Some(now) && w.client && Refreshes(m)))
  {
  }

  lemma TimeStep(c: Config, s: Chain, e: Event)
    requires ValidConfig(c) && PinsInv(s.wd) && TimeInv(c, s) && s.now <= e.at
    ensures TimeInv(c, Step(c, s, e))
  {
    match e
    case Message(at, m) => MessageShape(c, s.wd, m, at);
    case Top(at) =>
    case Wake(at) =>
    case Accept(at) =>
    case Lost(at) =>
  }

  lemma TimedPrefix(from: real, events: seq<Event>)
    requires Timed(from, events) && events != []
    ensures Timed(from, events[..|events| - 1])
    ensures from <= events[|events| - 1].at
    ensures |events| > 1 ==> events[|events| - 2].at <= events[|events| - 1].at
  {
  }

  lemma {:induction false} RunKeepsInv(c: Config, from: real, events: seq<Event>)
    requires ValidConfig(c) && Timed(from, events)
    ensures var s := Run(c, Start(from), events);
            PinsInv(s.wd) && TimeInv(c, s) && s.now == if events == [] then from else events[|events| - 1].at
  {
    if events != [] {
      TimedPrefix(from, events);
      RunKeepsInv(c, from, events[..|events| - 1]);
      PinsStep(c, Run(c, Start(from), events[..|events| - 1]).wd, events[|events| - 1]);
      TimeStep(c, Run(c, Start(from), events[..|events| - 1]), events[|events| - 1]);
    }
  }

  lemma {:induction false} FreshIsRefresh(c: Config, from: real, events: seq<Event>)
    requires ValidConfig(c) && Timed(from, events)
    ensures var w := Run(c, Start(from), events).wd;
            w.freshAt.Some? ==> RefreshAt(events, w.freshAt.value)
  {
    if events != [] {
      var before, e := events[..|events| - 1], events[|events| - 1];
      TimedPrefix(from, events);
      FreshIsRefresh(c, from, before);
      RunKeepsInv(c, from, before);
      var w := Run(c, Start(from), before).wd;
      if w.freshAt.Some? {
        var i :| 0 <= i < |before| && before[i].Message? && Refreshes(before[i].m) && before[i].at == w.freshAt.value;
        assert events[i] == before[i];
      }
      if e.Message? {
        MessageShape(c, w, e.m, e.at);
      }
    }
  }

  /** Heartbeat high implies connected high implies a client that asked for it and
      has refreshed the watchdog; without a client every output is low. */
  lemma {:induction false} LiveWhileHigh(c: Config, from: real, events: seq<Event>)
    requires ValidConfig(c) && Timed(from, events)
    ensures var w := Run(c, Start(from), events).wd;
            && (w.pins.heartbeat ==> w.pins.connected)
            && (w.pins.connected ==> w.client && w.requested && w.freshAt.Some? && RefreshAt(events, w.freshAt.value))
            && (!w.client ==> !w.pins.connected && !w.pins.heartbeat && !w.pins.toolChanged && !w.pins.compEnable)
  {
    RunKeepsInv(c, from, events);
    FreshIsRefresh(c, from, events);
  }

  /** Only the top of the loop raises the heartbeat pin, and only when fresh. */
  lemma OnlyFreshTopsRaise(c: Config, w: Wd, e: Event)
    requires !w.pins.heartbeat && WdStep(c, w, e).pins.heartbeat
    ensures e.Top? && Fresh(c, w, e.at)
  {
  }

  /** Every rising heartbeat edge lies within the timeout of an earlier refresh. */
  lemma {:induction false} RisingEdgesAreFresh(c: Config, from: real, events: seq<Event>, e: Event)
    requires ValidConfig(c) && Timed(from, events + [e])
    requires var s := Run(c, Start(from), events);
             !s.wd.pins.heartbeat && Step(c, s, e).wd.pins.heartbeat
    ensures e.Top?
    ensures exists r :: RefreshAt(events, r) && r <= e.at <= r + c.timeout
  {
    assert (events + [e])[..|events|] == events;
    TimedPrefix(from, events + [e]);
    RunKeepsInv(c, from, events);
    FreshIsRefresh(c, from, events);
    OnlyFreshTopsRaise(c, Run(c, Start(from), events).wd, e);
    assert RefreshAt(events, Run(c, Start(from), events).wd.freshAt.value);
  }

  lemma ConnectedStep(c: Config, w: Wd, e: Event)
    requires PinsInv(w) && WdStep(c, w, e).pins.connected
    ensures var n := WdStep(c, w, e);
            && n.freshAt.Some? && (n.freshAt == w.freshAt || n.freshAt == Some(e.at))
            && (if e.Top? then e.at - n.freshAt.value <= c.timeout else w.pins.connected)
  {
    PinsStep(c, w, e);
    if e.Message? {
      MessageShape(c, w, e.m, e.at);
    }
  }

  lemma TopEarlier(events: seq<Event>, top: real)
    requires events != [] && TopAt(events, top)
    ensures TopAt(events[..|events| - 1], top) || (events[|events| - 1].Top? && events[|events| - 1].at == top)
  {
    var i :| 0 <= i < |events| && events[i].Top? && events[i].at == top;
    if i < |events| - 1 {
      assert events[..|events| - 1][i] == events[i];
    }
  }

  /** A loop turn that leaves the pin high has just found the gateway fresh. */
  lemma {:induction false} TopsCheckFreshness(c: Config, from: real, events: seq<Event>, top: real)
    requires ValidConfig(c) && Timed(from, events) && TopAt(events, top)
    ensures var w := Run(c, Start(from), events).wd;
            w.pins.connected ==> w.freshAt.Some? && top - w.freshAt.value <= c.timeout
  {
    var before, e := events[..|events| - 1], events[|events| - 1];
    TimedPrefix(from, events);
    RunKeepsInv(c, from, before);
    var w := Run(c, Start(from), before).wd;
    TopEarlier(events, top);
    assert top <= e.at;
    if WdStep(c, w, e).pins.connected {
      ConnectedStep(c, w, e);
      if TopAt(before, top) {
        TopsCheckFreshness(c, from, before, top);
      }
    }
  }

  /** The chain opens on time.  Whatever the loop delays, the machine is enabled only
      within timeout plus oneshot width of a refresh; and once the loop has turned no
      more than `gap` ago, only within timeout plus gap. */
  lemma {:induction false} EnabledOnlyAfterRefresh(c: Config, from: real, events: seq<Event>, t: real)
    requires ValidConfig(c) && Timed(from, events)
    requires var s := Run(c, Start(from), events); s.now <= t && Closed(c, s, t)
    ensures exists r :: RefreshAt(events, r) && r <= t < r + c.timeout + c.width
                     && forall top :: TopAt(events, top) ==> top - r <= c.timeout
  {
    RunKeepsInv(c, from, events);
    FreshIsRefresh(c, from, events);
    var s := Run(c, Start(from), events);
    var r := s.wd.freshAt.value;
    forall top | TopAt(events, top) ensures top - r <= c.timeout {
      TopsCheckFreshness(c, from, events, top);
    }
    assert RefreshAt(events, r);
  }

  /** The same, read forwards: with no refresh after `last`, the machine is off from
      the earlier of width and the first loop turn past the timeout. */
  lemma {:induction false} OpensInTime(c: Config, from: real, events: seq<Event>, last: real, t: real)
    requires ValidConfig(c) && Timed(from, events) && Run(c, Start(from), events).now <= t
    requires forall r :: RefreshAt(events, r) ==> r <= last
    requires t >= last + c.timeout + c.width || exists top :: TopAt(events, top) && top > last + c.timeout
    ensures !Closed(c, Run(c, Start(from), events), t)
  {
    if Closed(c, Run(c, Start(from), events), t) {
      EnabledOnlyAfterRefresh(c, from, events, t);
      assert false;
    }
  }

  // ---- the latch ----

  ghost predicate NoReset(events: seq<Event>) {
    forall i :: 0 <= i < |events| ==> !(events[i].Message? && events[i].m.tripReset)
  }

  lemma OnlyResetsRise(c: Config, w: Wd, e: Event)
    requires !(e.Message? && e.m.tripReset)
    ensures WdStep(c, w, e).pins.tripReset ==> w.pins.tripReset
  {
  }

  lemma {:induction false} LatchIsSticky(c: Config, s: Chain, events: seq<Event>)
    requires !s.latchOk && NoReset(events)
    ensures !Run(c, s, events).latchOk
  {
    if events != [] {
      LatchIsSticky(c, s, events[..|events| - 1]);
      OnlyResetsRise(c, Run(c, s, events[..|events| - 1]).wd, events[|events| - 1]);
    }
  }

  /** Once the oneshot has expired, no run closes the chain again without an operator
      reset, even if heartbeat edges resume at once. */
  lemma {:induction false} TripHoldsUntilReset(c: Config, s: Chain, t: real, events: seq<Event>, later: real)
    requires ValidConfig(c) && !PulseOn(c, s.edge, t) && Timed(t, events) && NoReset(events) && t <= later
    ensures !Closed(c, Run(c, s, events), later)
  {
    if events != [] {
      var first := Step(c, s, events[0]);
      OnlyResetsRise(c, s.wd, events[0]);
      LatchIsSticky(c, first, events[1..]);
      RunSplit(c, s, events);
    }
  }

  lemma {:induction false} RunSplit(c: Config, s: Chain, events: seq<Event>)
    requires events != []
    ensures Run(c, s, events) == Run(c, Step(c, s, events[0]), events[1..])
  {
    var before := events[..|events| - 1];
    if before == [] {
      assert Run(c, s, before) == s;
    } else {
      RunSplit(c, s, before);
      assert before[1..] == events[1..][..|events[1..]| - 1];
    }
  }

  ghost predicate ResetAt(events: seq<Event>, t: real) {
    exists i :: 0 <= i < |events| && events[i].Message? && events[i].m.tripReset && events[i].at == t
  }

  lemma ResetAtEarlier(events: seq<Event>, t: real)
    requires events != [] && ResetAt(events[..|events| - 1], t)
    ensures ResetAt(events, t)
  {
    var before := events[..|events| - 1];
    var i :| 0 <= i < |before| && before[i].Message? && before[i].m.tripReset && before[i].at == t;
    assert events[i] == before[i];
  }

  lemma PulseStep(c: Config, w: Wd, e: Event)
    ensures var off := WdStep(c, w, e).resetOffAt;
            off == w.resetOffAt || off == None || (e.Message? && e.m.tripReset && off == Some(e.at + c.pulse))
  {
  }

  lemma PulseFalls(c: Config, w: Wd, e: Event)
    requires PinsInv(w) && w.pins.tripReset
    ensures !WdStep(c, w, e).pins.tripReset <==> e.Wake? && e.at >= w.resetOffAt.value
  {
  }

  lemma {:induction false} PulseIsOfAReset(c: Config, from: real, events: seq<Event>)
    ensures var off := Run(c, Start(from), events).wd.resetOffAt;
            off.Some? ==> ResetAt(events, off.value - c.pulse)
  {
    if events != [] {
      var before, e := events[..|events| - 1], events[|events| - 1];
      PulseIsOfAReset(c, from, before);
      var off := Run(c, Start(from), before).wd.resetOffAt;
      PulseStep(c, Run(c, Start(from), before).wd, e);
      if off.Some? {
        ResetAtEarlier(events, off.value - c.pulse);
      }
    }
  }

  /** The reset pin is high only for a reset the operator sent, for at least the pulse
      length, and falls exactly at the first wake after that; then it can rise again. */
  lemma {:induction false} ResetPulseLength(c: Config, from: real, events: seq<Event>, e: Event)
    requires ValidConfig(c) && Timed(from, events) && Run(c, Start(from), events).wd.pins.tripReset
    ensures exists r :: ResetAt(events, r) &&
              (!WdStep(c, Run(c, Start(from), events).wd, e).pins.tripReset <==> e.Wake? && e.at >= r + c.pulse)
  {
    var w := Run(c, Start(from), events).wd;
    RunKeepsInv(c, from, events);
    PulseIsOfAReset(c, from, events);
    PulseFalls(c, w, e);
    var r := w.resetOffAt.value - c.pulse;
    assert ResetAt(events, r) && r + c.pulse == w.resetOffAt.value;
  }

  const HELLO: Msg := Msg(false, Some(true), None, None, NoMethod, false)

  function Reconnect(at: real): seq<Event> { [Accept(at), Message(at, HELLO), Top(at)] }

  lemma ReconnectCloses(c: Config, s: Chain)
    requires ValidConfig(c) && PinsInv(s.wd) && s.latchOk && PulseOn(c, s.edge, s.now)
    ensures var n := Run(c, s, Reconnect(s.now)); Closed(c, n, s.now) && n.now == s.now
  {
    var a, b, d := Accept(s.now), Message(s.now, HELLO), Top(s.now);
    var n1 := Step(c, s, a);
    var n2 := Step(c, n1, b);
    var n3 := Step(c, n2, d);
    assert n1.latchOk && n1.wd.client && n1.wd.localHbAt == s.now;
    assert n2.latchOk && n2.wd.requested && n2.wd.freshAt == Some(s.now) && n2.wd.client && n2.wd.localHbAt == s.now;
    assert n3.latchOk && n3.wd.pins.connected;
    RunSplit(c, s, [a, b, d]);
    assert [a, b, d][1..] == [b, d];
    RunSplit(c, n1, [b, d]);
    assert [b, d][1..] == [d];
    RunSplit(c, n2, [d]);
    assert Run(c, n3, []) == n3;
  }

  ghost predicate CanCloseUnreset(c: Config, s: Chain) {
    exists more :: Timed(s.now, more) && NoReset(more) && Closed(c, Run(c, s, more), Run(c, s, more).now)
  }

  /** "Open until a reset pulse" is false of an opening caused by the connected pin:
      the chain can close again with no reset exactly when the latch never opened. */
  lemma {:induction false} RecloseExactlyWhenLatchHolds(c: Config, from: real, events: seq<Event>)
    requires ValidConfig(c) && Timed(from, events)
    ensures var s := Run(c, Start(from), events);
            CanCloseUnreset(c, s) <==> s.latchOk && PulseOn(c, s.edge, s.now)
  {
    var s := Run(c, Start(from), events);
    RunKeepsInv(c, from, events);
    if s.latchOk && PulseOn(c, s.edge, s.now) {
      ReconnectCloses(c, s);
      var more := Reconnect(s.now);
      assert Timed(s.now, more) && NoReset(more);
    }
    forall more | Timed(s.now, more) && NoReset(more) && Closed(c, Run(c, s, more), Run(c, s, more).now)
      ensures s.latchOk && PulseOn(c, s.edge, s.now)
    {
      LaterThan(c, s, s.now, more);
      if !s.latchOk {
        LatchIsSticky(c, s, more);
      } else if !PulseOn(c, s.edge, s.now) {
        TripHoldsUntilReset(c, s, s.now, more, Run(c, s, more).now);
      }
    }
  }

  lemma LaterThan(c: Config, s: Chain, t: real, events: seq<Event>)
    requires t <= s.now && Timed(t, events)
    ensures t <= Run(c, s, events).now
  {
  }

  /** So every closed chain can open, by losing its client, and close by itself. */
  lemma {:induction false} OpensAndClosesUnreset(c: Config, from: real, events: seq<Event>)
    requires ValidConfig(c) && Timed(from, events)
    requires var s := Run(c, Start(from), events); Closed(c, s, s.now)
    ensures var s := Run(c, Start(from), events);
            var n := Step(c, s, Lost(s.now));
            !Closed(c, n, s.now) && Closed(c, Run(c, n, Reconnect(s.now)), s.now) && NoReset(Reconnect(s.now))
  {
    RunKeepsInv(c, from, events);
    var s := Run(c, Start(from), events);
    PinsStep(c, s.wd, Lost(s.now));
    ReconnectCloses(c, Step(c, s, Lost(s.now)));
  }
}
