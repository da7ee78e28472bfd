/** When the heartbeat chain never trips by itself: the exact relation between heartbeat
    period, loop delay and oneshot width, for all message arrivals that keep the gateway
    fresh. */
module WatchdogCalm {
  import opened Wrappers
  import opened Watchdog

  function LastTop(top: real, events: seq<Event>): real {
    if events == [] then top
    else if events[|events| - 1].Top? then events[|events| - 1].at
    else LastTop(top, events[..|events| - 1])
  }

  /** Closed, with the last heartbeat edge less than a period before the last turn. */
  ghost predicate Healthy(c: Config, s: Chain, top: real) {
    && PinsInv(s.wd) && TimeInv(c, s) && s.wd.pins.connected && s.latchOk && PulseOn(c, s.edge, s.now)
    && s.edge == Some(s.wd.localHbAt) && top - s.wd.localHbAt < c.period && top <= s.now
  }

  // ---- inputs: events, their times and their messages ----

  /** The client stays and keeps asking for the pin. */
  predicate KeepsAsking(e: Event) {
    match e
    case Top(_) => true
    case Wake(_) => true
    case Accept(_) => false
    case Message(_, m) => m.connected != Some(false) && !m.compMethod.BadMethod?
    case Lost(_) => false
  }

  /** A refresh, or the one s already had, lies no more than the timeout before event i. */
  ghost predicate RefreshedInTime(c: Config, s: Chain, events: seq<Event>, i: nat)
    requires i < |events|
  {
    || (s.wd.freshAt.Some? && events[i].at - s.wd.freshAt.value <= c.timeout)
    || exists j :: 0 <= j < i && events[j].Message? && Refreshes(events[j].m) && events[i].at - events[j].at <= c.timeout
  }

  /** Events in time order, the loop turning at least every `gap`, each turn with a refresh
      inside the timeout before it. */
  ghost predicate CalmInputs(c: Config, gap: real, s: Chain, top: real, events: seq<Event>) {
    && Timed(s.now, events)
    && forall i :: 0 <= i < |events| ==>
         && KeepsAsking(events[i]) && events[i].at <= LastTop(top, events[..i]) + gap
         && (events[i].Top? ==> RefreshedInTime(c, s, events, i))
  }

  /** The last refresh on record is as late as any that came. */
  ghost predicate Asking(s: Chain, n: Chain, events: seq<Event>) {
    && n.wd.client && n.wd.requested && n.wd.freshAt.Some? && n.wd.freshAt.value <= n.now
    && s.wd.freshAt.Some? && s.wd.freshAt.value <= n.wd.freshAt.value
    && forall j :: 0 <= j < |events| && events[j].Message? && Refreshes(events[j].m) ==> events[j].at <= n.wd.freshAt.value
  }

  lemma CalmMessage(c: Config, w: Wd, m: Msg, now: real)
    requires m.connected != Some(false) && !m.compMethod.BadMethod?
    ensures var n := OnMessage(c, w, m, now);
            && n.pins.heartbeat == w.pins.heartbeat && n.pins.connected == w.pins.connected && n.localHbAt == w.localHbAt
            && n.client == w.client && (w.requested ==> n.requested)
            && n.freshAt == if w.client && Refreshes(m) then Some(now) else w.freshAt
  {
  }

  lemma AskingStep(c: Config, s: Chain, e: Event)
    requires s.wd.client && s.wd.requested && s.wd.freshAt.Some? && KeepsAsking(e)
    ensures var n := WdStep(c, s.wd, e);
            && n.client && n.requested
            && n.freshAt == if e.Message? && Refreshes(e.m) then Some(e.at) else s.wd.freshAt
  {
    if e.Message? {
      CalmMessage(c, s.wd, e.m, e.at);
    }
  }

  lemma {:induction false} AskingRun(c: Config, s: Chain, events: seq<Event>)
    requires s.wd.client && s.wd.requested && s.wd.freshAt.Some? && s.wd.freshAt.value <= s.now
    requires Timed(s.now, events) && forall i :: 0 <= i < |events| ==> KeepsAsking(events[i])
    ensures Asking(s, Run(c, s, events), events)
    ensures Run(c, s, events).now == if events == [] then s.now else events[|events| - 1].at
  {
    if events != [] {
      TimedPrefix(s.now, events);
      var before, e := events[..|events| - 1], events[|events| - 1];
      AskingRun(c, s, before);
      AskingStep(c, Run(c, s, before), e);
      assert forall j :: 0 <= j < |before| ==> before[j] == events[j];
    }
  }

  // ---- no false trips ----

  lemma CalmStep(c: Config, gap: real, s: Chain, top: real, e: Event)
    requires ValidConfig(c) && c.period + gap <= c.width && s.now <= e.at <= top + gap
    requires Healthy(c, s, top) && KeepsAsking(e) && (e.Top? ==> Fresh(c, s.wd, e.at))
    ensures Healthy(c, Step(c, s, e), if e.Top? then e.at else top)
  {
    PinsStep(c, s.wd, e);
    TimeStep(c, s, e);
    assert PulseOn(c, s.edge, e.at);
    if e.Message? {
      CalmMessage(c, s.wd, e.m, e.at);
    }
  }

  lemma RefreshedPrefix(c: Config, s: Chain, events: seq<Event>, i: nat)
    requires i < |events| - 1 && RefreshedInTime(c, s, events, i)
    ensures RefreshedInTime(c, s, events[..|events| - 1], i)
  {
    var before := events[..|events| - 1];
    if !(s.wd.freshAt.Some? && before[i].at - s.wd.freshAt.value <= c.timeout) {
      var j :| 0 <= j < i && events[j].Message? && Refreshes(events[j].m) && events[i].at - events[j].at <= c.timeout;
      assert before[j] == events[j];
    }
  }

  lemma CalmPrefix(c: Config, gap: real, s: Chain, top: real, events: seq<Event>)
    requires CalmInputs(c, gap, s, top, events) && events != []
    ensures CalmInputs(c, gap, s, top, events[..|events| - 1])
  {
    var before := events[..|events| - 1];
    TimedPrefix(s.now, events);
    forall i | 0 <= i < |before|
      ensures KeepsAsking(before[i]) && before[i].at <= LastTop(top, before[..i]) + gap
      ensures before[i].Top? ==> RefreshedInTime(c, s, before, i)
    {
      assert before[..i] == events[..i] && before[i] == events[i];
      if before[i].Top? {
        RefreshedPrefix(c, s, events, i);
      }
    }
  }

  lemma RefreshedIsFresh(c: Config, s: Chain, n: Chain, events: seq<Event>)
    requires events != [] && Asking(s, n, events[..|events| - 1])
    requires RefreshedInTime(c, s, events, |events| - 1)
    ensures Fresh(c, n.wd, events[|events| - 1].at)
  {
    var before, i := events[..|events| - 1], |events| - 1;
    if !(s.wd.freshAt.Some? && events[i].at - s.wd.freshAt.value <= c.timeout) {
      var j :| 0 <= j < i && events[j].Message? && Refreshes(events[j].m) && events[i].at - events[j].at <= c.timeout;
      assert before[j] == events[j];
    }
  }

  /** With refreshes inside the timeout and period plus loop gap within the oneshot
      width, no run trips: the machine stays enabled through every step and up to the
      next loop turn. */
  lemma {:induction false} NoFalseTrip(c: Config, gap: real, s: Chain, top: real, events: seq<Event>, t: real)
    requires ValidConfig(c) && c.period + gap <= c.width
    requires Healthy(c, s, top) && CalmInputs(c, gap, s, top, events)
    ensures Healthy(c, Run(c, s, events), LastTop(top, events))
    ensures t <= LastTop(top, events) + gap ==> Closed(c, Run(c, s, events), t)
  {
    if events != [] {
      var before, e := events[..|events| - 1], events[|events| - 1];
      CalmPrefix(c, gap, s, top, events);
      NoFalseTrip(c, gap, s, top, before, t);
      AskingRun(c, s, before);
      TimedPrefix(s.now, events);
      if e.Top? {
        RefreshedIsFresh(c, s, Run(c, s, before), events);
      }
      CalmStep(c, gap, Run(c, s, before), LastTop(top, before), e);
    }
  }

  const RESET: Msg := Msg(false, None, None, None, NoMethod, true)

  /** From any reachable state, one fresh turn that toggles the heartbeat followed by
      an operator reset reaches the healthy condition, if the last pulse is over. */
  lemma {:induction false} ResetStartsHealthy(c: Config, from: real, events: seq<Event>, t0: real, t1: real)
    requires ValidConfig(c) && Timed(from, events)
    requires var s := Run(c, Start(from), events);
             && s.now <= t0 <= t1 < t0 + c.width && !s.wd.pins.tripReset
             && Fresh(c, s.wd, t0) && t0 - s.wd.localHbAt >= c.period
    ensures Healthy(c, Step(c, Step(c, Run(c, Start(from), events), Top(t0)), Message(t1, RESET)), t0)
  {
    RunKeepsInv(c, from, events);
    var s := Run(c, Start(from), events);
    TurnThenReset(c, s, t0, t1);
  }

  lemma TurnThenReset(c: Config, s: Chain, t0: real, t1: real)
    requires ValidConfig(c) && PinsInv(s.wd) && TimeInv(c, s)
    requires s.now <= t0 <= t1 < t0 + c.width && !s.wd.pins.tripReset
    requires Fresh(c, s.wd, t0) && t0 - s.wd.localHbAt >= c.period
    ensures var n := Step(c, Step(c, s, Top(t0)), Message(t1, RESET));
            Healthy(c, n, t0) && n.wd.localHbAt == t0 && n.now == t1
  {
    var m := Step(c, s, Top(t0));
    PinsStep(c, s.wd, Top(t0));
    TimeStep(c, s, Top(t0));
    CalmMessage(c, m.wd, RESET, t1);
    PinsStep(c, m.wd, Message(t1, RESET));
    TimeStep(c, m, Message(t1, RESET));
  }

  // ---- the exact condition ----

  /** From a reachable healthy state, through calm inputs, the machine is enabled at every
      time up to the next turn. */
  ghost predicate StaysEnabled(c: Config, gap: real, events: seq<Event>, more: seq<Event>, t: real) {
    var s, top := Run(c, Start(0.0), events), LastTop(0.0, events);
    (Timed(0.0, events) && TopAt(events, top) && Healthy(c, s, top) && CalmInputs(c, gap, s, top, more)
     && t <= LastTop(top, more) + gap) ==> Closed(c, Run(c, s, more), t)
  }

  ghost predicate NeverTrips(c: Config, gap: real) {
    forall events, more, t :: StaysEnabled(c, gap, events, more, t)
  }

  /** A client connects, the heartbeat rises, the operator resets, and the loop turns once
      more a little later. */
  function Warm(p: real, d: real): seq<Event> {
    [Accept(0.0), Message(p, HELLO), Top(p), Message(p, RESET), Message(p + d, HELLO), Top(p + d)]
  }

  lemma ConnectAndTurn(c: Config)
    requires ValidConfig(c)
    ensures var s := Step(c, Step(c, Start(0.0), Accept(0.0)), Message(c.period, HELLO));
            && PinsInv(s.wd) && TimeInv(c, s) && s.now == c.period && !s.wd.pins.tripReset
            && Fresh(c, s.wd, c.period) && s.wd.localHbAt == 0.0
  {
    var a := Step(c, Start(0.0), Accept(0.0));
    assert a.wd.client && a.wd.localHbAt == 0.0 && !a.wd.pins.tripReset && a.edge == None;
  }

  lemma TurnAgain(c: Config, s: Chain, d: real)
    requires ValidConfig(c) && Healthy(c, s, s.now) && s.wd.localHbAt == s.now && 0.0 <= d < c.period && d < c.width
    ensures var n := Step(c, Step(c, s, Message(s.now + d, HELLO)), Top(s.now + d));
            Healthy(c, n, n.now) && n.now == s.now + d && n.edge == Some(s.now)
  {
    var m := Step(c, s, Message(s.now + d, HELLO));
    CalmMessage(c, s.wd, HELLO, s.now + d);
    PinsStep(c, s.wd, Message(s.now + d, HELLO));
    TimeStep(c, s, Message(s.now + d, HELLO));
    PinsStep(c, m.wd, Top(s.now + d));
    TimeStep(c, m, Top(s.now + d));
  }

  lemma RunTwo(c: Config, s: Chain, events: seq<Event>, k: nat)
    requires k + 1 < |events|
    ensures Run(c, s, events[..k + 2]) == Step(c, Step(c, Run(c, s, events[..k]), events[k]), events[k + 1])
  {
    assert events[..k + 2][..k + 1] == events[..k + 1] && events[..k + 1][..k] == events[..k];
  }

  lemma WarmTimes(p: real, d: real)
    requires 0.0 <= p && 0.0 <= d
    ensures Timed(0.0, Warm(p, d)) && TopAt(Warm(p, d), p + d) && LastTop(0.0, Warm(p, d)) == p + d
  {
    assert Warm(p, d)[5] == Top(p + d);
  }

  lemma WarmReset(c: Config, d: real)
    requires ValidConfig(c)
    ensures var n := Run(c, Start(0.0), Warm(c.period, d)[..4]);
            Healthy(c, n, c.period) && n.wd.localHbAt == c.period && n.now == c.period
  {
    var events := Warm(c.period, d);
    assert events[..0] == [];
    RunTwo(c, Start(0.0), events, 0);
    ConnectAndTurn(c);
    RunTwo(c, Start(0.0), events, 2);
    TurnThenReset(c, Run(c, Start(0.0), events[..2]), c.period, c.period);
  }

  lemma WarmRun(c: Config, d: real)
    requires ValidConfig(c) && 0.0 <= d < c.period && d < c.width
    ensures var n := Run(c, Start(0.0), Warm(c.period, d));
            Healthy(c, n, c.period + d) && n.now == c.period + d && n.edge == Some(c.period)
  {
    var events := Warm(c.period, d);
    assert events[..6] == events;
    WarmReset(c, d);
    RunTwo(c, Start(0.0), events, 4);
    TurnAgain(c, Run(c, Start(0.0), events[..4]), d);
  }

  /** The condition is exact: every run from every reachable healthy state stays enabled,
      whatever calm inputs arrive, if and only if period plus loop gap is within the
      oneshot width. */
  lemma {:induction false} NeverTripsExactlyWhen(c: Config, gap: real)
    requires ValidConfig(c) && gap > 0.0
    ensures NeverTrips(c, gap) <==> c.period + gap <= c.width
  {
    if c.period + gap <= c.width {
      forall events, more, t ensures StaysEnabled(c, gap, events, more, t) {
        var s, top := Run(c, Start(0.0), events), LastTop(0.0, events);
        if Healthy(c, s, top) && CalmInputs(c, gap, s, top, more) {
          NoFalseTrip(c, gap, s, top, more, t);
        }
      }
    } else {
      var d := if c.width > gap then c.width - gap else 0.0;
      WarmTimes(c.period, d);
      WarmRun(c, d);
      assert !StaysEnabled(c, gap, Warm(c.period, d), [], c.period + d + gap);
    }
  }

  /** A period no shorter than the width, which the lowest configurable rate of 2 Hz
      gives, trips at every single heartbeat edge. */
  lemma {:induction false} SlowestRateAlwaysTrips(c: Config, from: real, events: seq<Event>, at: real)
    requires ValidConfig(c) && c.period >= c.width
    requires Timed(from, events + [Top(at)])
    requires var s := Run(c, Start(from), events);
             Fresh(c, s.wd, at) && Step(c, s, Top(at)).edge != s.edge
    ensures !Step(c, Run(c, Start(from), events), Top(at)).latchOk
  {
    assert (events + [Top(at)])[..|events|] == events;
    TimedPrefix(from, events + [Top(at)]);
    RunKeepsInv(c, from, events);
  }
}
