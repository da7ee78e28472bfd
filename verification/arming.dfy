/** Armed-resume holds and the trip gate: connecting, arming, disarming, stall
    clean-up and disconnecting, as the atomic sections between awaits. */
module Arming {
  import opened Wrappers
  import opened TripLatch

  type Session = string
  type Holds = map<Session, real>

  const GRACE := 10.0
  const RESUME_MAX_HB_AGE := 2.0
  const STALL_AGE := 3.0

  // ---- the hold table ----

  datatype Peek = Granted | Expired | NoMatch

  function Pruned(h: Holds, now: real): Holds { map sid | sid in h && now <= h[sid] :: h[sid] }

  function Registered(h: Holds, sid: Session, now: real): Holds { Pruned(h, now)[sid := now + GRACE] }

  function PeekAt(h: Holds, sid: Session, now: real): Peek {
    if sid !in h then NoMatch else if now > h[sid] then Expired else Granted
  }

  class HoldTable {
    var holds: Holds

    constructor ()
      ensures holds == map[]
    {
      holds := map[];
    }

    method Prune(now: real)
      modifies this
      ensures holds == Pruned(old(holds), now)
    {
      ghost var was := holds;
      var todo := holds.Keys;
      while todo != {}
        invariant todo <= holds.Keys <= was.Keys
        invariant forall sid :: sid in holds ==> holds[sid] == was[sid]
        invariant forall sid :: sid in was && sid !in todo ==> (sid in holds <==> now <= was[sid])
        decreases todo
      {
        var sid :| sid in todo;
        todo := todo - {sid};
        if now > holds[sid] {
          holds := holds - {sid};
        }
      }
    }

    method Register(sid: Session, now: real)
      modifies this
      ensures holds == Registered(old(holds), sid, now)
    {
      Prune(now);
      holds := holds[sid := now + GRACE];
    }

    method PeekHold(sid: Session, now: real) returns (p: Peek)
      ensures p == PeekAt(holds, sid, now)
    {
      if sid !in holds { return NoMatch; }
      if now > holds[sid] { return Expired; }
      return Granted;
    }

    method Consume(sid: Session)
      modifies this
      ensures holds == old(holds) - {sid}
    {
      holds := holds - {sid};
    }
  }

  // ---- the gateway ----

  /** `disarming`: its handler is awaiting the jog stop of an explicit disarm. */
  datatype Client = Client(armed: bool, lastHb: real, session: Option<Session>, disarming: bool)

  /** A disconnected, still armed client whose clean-up is awaiting its jog stop. */
  datatype Leaving = Leaving(lastHb: real, session: Option<Session>)

  /** The trace events the gateway emits. */
  datatype Trace =
    | HoldRegistered(sid: Session, at: real)
    | ResumeGranted(sid: Session, at: real)
    | StallDropped(sid: Session)
    | Armed(id: nat)
    | Tripped
    | Acked

  /** `stalls` are the clients whose stall clean-up is in flight. */
  datatype Gateway = Gateway(now: real, nextId: nat, clients: map<nat, Client>, leaving: map<nat, Leaving>,
                             stalls: set<nat>, holds: Holds, watch: Watch, unacked: bool, trace: seq<Trace>)

  /** `Offline`: a client's status loop finds LinuxCNC not connected and disarms it. */
  datatype Event =
    | Connect
    | Heartbeat(id: nat)
    | Hello(id: nat, sid: Option<Session>, resume: bool)
    | Arm(id: nat, want: bool)
    | DisarmDone(id: nat)
    | StallCheck(id: nat)
    | StallDone(id: nat)
    | Offline(id: nat)
    | Disconnect(id: nat)
    | LeaveDone(id: nat)
    | Poll(fault: Option<bool>)
    | Ack(id: nat)

  function Start(now: real): Gateway { Gateway(now, 0, map[], map[], {}, map[], UNSEEN, false, []) }

  /** A client whose handler is free to take its next message. */
  predicate Free(g: Gateway, id: nat) { id in g.clients && !g.clients[id].disarming }

  function Register(g: Gateway, session: Option<Session>): Gateway {
    match session
    case None => g
    case Some(sid) =>
      g.(holds := Registered(g.holds, sid, g.now), trace := g.trace + [HoldRegistered(sid, g.now)])
  }

  /** An empty id is no session. */
  function Named(sid: Option<Session>): Option<Session> { if sid == Some("") then None else sid }

  function OnHello(g: Gateway, id: nat, sid: Option<Session>, resume: bool): Gateway
    requires id in g.clients
  {
    var c := if sid.Some? then g.clients[id].(session := sid) else g.clients[id];
    var n := g.(clients := g.clients[id := c]);
    if !resume || sid.None? then n
    else
      match PeekAt(g.holds, sid.value, g.now)
      case NoMatch => n
      case Expired => n.(holds := g.holds - {sid.value})
      case Granted =>
        if g.unacked then n
        else n.(holds := g.holds - {sid.value},
                clients := g.clients[id := c.(armed := true, lastHb := g.now)],
                trace := g.trace + [ResumeGranted(sid.value, g.now)])
  }

  function OnArm(g: Gateway, id: nat, want: bool): Gateway
    requires id in g.clients
  {
    var was := g.clients[id].armed;
    var c := g.clients[id].(armed := want, lastHb := g.now);
    if want && g.unacked then g
    else if was && !want then g.(clients := g.clients[id := c.(disarming := true)])
    else g.(clients := g.clients[id := c], trace := if want && !was then g.trace + [Armed(id)] else g.trace)
  }

  /** The clean-up of a stalled client drops its hold; if the client was armed again in the
      meantime and has gone, the lookup raises and the hold stays. */
  function OnStallDone(g: Gateway, id: nat): Gateway {
    var n := g.(stalls := g.stalls - {id});
    if id in g.clients && g.clients[id].session.Some? then
      var sid := g.clients[id].session.value;
      n.(holds := g.holds - {sid}, trace := g.trace + [StallDropped(sid)])
    else n
  }

  function OnPoll(g: Gateway, fault: Option<bool>): Gateway {
    var v := Evaluate(fault, g.watch);
    if v.tripped && !g.unacked then g.(watch := v.next, unacked := true, trace := g.trace + [Tripped])
    else g.(watch := v.next)
  }

  /** The end of a disconnect cancels the client's status loop and with it a stall clean-up
      still in flight. */
  function Act(g: Gateway, e: Event): Gateway {
    match e
    case Connect => g.(clients := g.clients[g.nextId := Client(false, g.now, None, false)], nextId := g.nextId + 1)
    case Heartbeat(id) => if Free(g, id) then g.(clients := g.clients[id := g.clients[id].(lastHb := g.now)]) else g
    case Hello(id, sid, resume) => if Free(g, id) then OnHello(g, id, Named(sid), resume) else g
    case Arm(id, want) => if Free(g, id) then OnArm(g, id, want) else g
    case DisarmDone(id) =>
      if id in g.clients && g.clients[id].disarming
      then Register(g.(clients := g.clients[id := g.clients[id].(disarming := false)]), g.clients[id].session)
      else g
    case StallCheck(id) =>
      if id in g.clients && id !in g.stalls && g.clients[id].armed && g.now - g.clients[id].lastHb > STALL_AGE
      then g.(clients := g.clients[id := g.clients[id].(armed := false)], stalls := g.stalls + {id})
      else g
    case StallDone(id) => if id in g.stalls then OnStallDone(g, id) else g
    case Offline(id) =>
      if id in g.clients && id !in g.stalls then g.(clients := g.clients[id := g.clients[id].(armed := false)]) else g
    case Disconnect(id) =>
      if !Free(g, id) then g
      else if g.clients[id].armed then
        g.(clients := g.clients - {id}, leaving := g.leaving[id := Leaving(g.clients[id].lastHb, g.clients[id].session)])
      else g.(clients := g.clients - {id}, stalls := g.stalls - {id})
    case LeaveDone(id) =>
      if id !in g.leaving then g
      else
        var l := g.leaving[id];
        var n := g.(leaving := g.leaving - {id}, stalls := g.stalls - {id});
        if g.now - l.lastHb <= RESUME_MAX_HB_AGE then Register(n, l.session) else n
    case Poll(fault) => OnPoll(g, fault)
    case Ack(id) => if Free(g, id) then g.(unacked := false, trace := g.trace + [Acked]) else g
  }

  datatype Timed = Timed(at: real, e: Event)

  function Step(g: Gateway, t: Timed): Gateway { Act(g.(now := t.at), t.e) }

  function Run(g: Gateway, events: seq<Timed>): Gateway {
    if events == [] then g else Step(Run(g, events[..|events| - 1]), events[|events| - 1])
  }

  ghost predicate Ordered(from: real, events: seq<Timed>) {
    && (forall i :: 0 <= i < |events| ==> from <= events[i].at)
    && (forall i, j :: 0 <= i < j < |events| ==> events[i].at <= events[j].at)
  }

  // ---- what the trace of every run satisfies ----

  predicate Uses(t: Trace, sid: Session) { (t.ResumeGranted? || t.StallDropped?) && t.sid == sid }

  /** Registration at `at` is the last thing that happened to this session's hold. */
  ghost predicate Unused(trace: seq<Trace>, sid: Session, at: real) {
    exists j :: 0 <= j < |trace| && trace[j] == HoldRegistered(sid, at) && NotUsedAfter(trace, sid, j)
  }

  ghost predicate NotUsedAfter(trace: seq<Trace>, sid: Session, j: int) {
    forall k :: 0 <= k < |trace| && j < k ==> !Uses(trace[k], sid)
  }

  /** Every grant came within the grace of a registration nothing had used. */
  ghost predicate GrantBacked(before: seq<Trace>, t: Trace) {
    t.ResumeGranted? ==> exists at :: at <= t.at <= at + GRACE && Unused(before, t.sid, at)
  }

  /** A trip is open if no acknowledgement follows it. */
  ghost predicate TripOpen(trace: seq<Trace>) {
    exists j :: 0 <= j < |trace| && trace[j] == Tripped && forall k :: j < k < |trace| ==> trace[k] != Acked
  }

  ghost predicate GateKept(before: seq<Trace>, t: Trace) { t.ResumeGranted? || t.Armed? ==> !TripOpen(before) }

  ghost predicate GoodTrace(trace: seq<Trace>) {
    forall k :: 0 <= k < |trace| ==> GrantBacked(trace[..k], trace[k]) && GateKept(trace[..k], trace[k])
  }

  ghost predicate HoldsBacked(g: Gateway) {
    forall sid :: sid in g.holds ==> g.holds[sid] <= g.now + GRACE && Unused(g.trace, sid, g.holds[sid] - GRACE)
  }

  ghost predicate Inv(g: Gateway) {
    && GoodTrace(g.trace) && HoldsBacked(g) && (g.unacked <==> TripOpen(g.trace))
  }

  lemma UnusedSnoc(trace: seq<Trace>, t: Trace, sid: Session, at: real)
    requires Unused(trace, sid, at) && !Uses(t, sid)
    ensures Unused(trace + [t], sid, at)
  {
    var j :| 0 <= j < |trace| && trace[j] == HoldRegistered(sid, at) && NotUsedAfter(trace, sid, j);
    assert (trace + [t])[j] == HoldRegistered(sid, at);
    assert NotUsedAfter(trace + [t], sid, j);
  }

  lemma JustRegistered(trace: seq<Trace>, sid: Session, at: real)
    ensures Unused(trace + [HoldRegistered(sid, at)], sid, at)
  {
    var n := trace + [HoldRegistered(sid, at)];
    assert n[|trace|] == HoldRegistered(sid, at) && NotUsedAfter(n, sid, |trace|);
  }

  lemma GoodSnoc(trace: seq<Trace>, t: Trace)
    requires GoodTrace(trace) && GrantBacked(trace, t) && GateKept(trace, t)
    ensures GoodTrace(trace + [t])
  {
    var n := trace + [t];
    forall k | 0 <= k < |n| ensures GrantBacked(n[..k], n[k]) && GateKept(n[..k], n[k]) {
      assert n[..k] == trace[..k];
      if k == |trace| {
        assert trace[..k] == trace;
      } else {
        assert n[k] == trace[k];
      }
    }
  }

  lemma TripOpenSnoc(trace: seq<Trace>, t: Trace)
    ensures TripOpen(trace + [t]) <==> t == Tripped || (t != Acked && TripOpen(trace))
  {
    var n := trace + [t];
    if TripOpen(n) {
      var j :| 0 <= j < |n| && n[j] == Tripped && forall k :: j < k < |n| ==> n[k] != Acked;
      assert n[|trace|] == t;
      if j < |trace| {
        assert trace[j] == Tripped && forall k :: j < k < |trace| ==> trace[k] == n[k];
      }
    }
    if t == Tripped {
      assert n[|trace|] == Tripped;
    } else if t != Acked && TripOpen(trace) {
      var j :| 0 <= j < |trace| && trace[j] == Tripped && forall k :: j < k < |trace| ==> trace[k] != Acked;
      assert n[j] == Tripped && forall k :: j < k < |n| ==> n[k] != Acked;
    }
  }

  /** Recording one event keeps the invariant when the new holds stay backed. */
  lemma Recorded(g: Gateway, n: Gateway, t: Trace)
    requires Inv(g) && n.trace == g.trace + [t] && n.now == g.now
    requires GrantBacked(g.trace, t) && GateKept(g.trace, t)
    requires n.unacked == (t == Tripped || (t != Acked && g.unacked))
    requires forall sid :: sid in n.holds ==>
               || (sid in g.holds && n.holds[sid] == g.holds[sid] && !Uses(t, sid))
               || (t == HoldRegistered(sid, g.now) && n.holds[sid] == g.now + GRACE)
    ensures Inv(n)
  {
    GoodSnoc(g.trace, t);
    TripOpenSnoc(g.trace, t);
    forall sid | sid in n.holds
      ensures n.holds[sid] <= n.now + GRACE && Unused(n.trace, sid, n.holds[sid] - GRACE)
    {
      if sid in g.holds && n.holds[sid] == g.holds[sid] && !Uses(t, sid) {
        UnusedSnoc(g.trace, t, sid, g.holds[sid] - GRACE);
      } else {
        JustRegistered(g.trace, sid, g.now);
      }
    }
  }

  /** What the invariant looks at, other than the clock. */
  ghost predicate SameBooks(g: Gateway, n: Gateway) {
    n.trace == g.trace && n.now == g.now && n.unacked == g.unacked &&
    forall sid :: sid in n.holds ==> sid in g.holds && n.holds[sid] == g.holds[sid]
  }

  lemma Unrecorded(g: Gateway, n: Gateway)
    requires Inv(g) && SameBooks(g, n)
    ensures Inv(n)
  {
  }

  lemma RegisterKeepsInv(g: Gateway, session: Option<Session>)
    requires Inv(g)
    ensures Inv(Register(g, session))
  {
    if session.Some? {
      Recorded(g, Register(g, session), HoldRegistered(session.value, g.now));
    }
  }

  lemma HelloKeepsInv(g: Gateway, id: nat, sid: Option<Session>, resume: bool)
    requires Inv(g) && id in g.clients
    ensures Inv(OnHello(g, id, sid, resume))
  {
    var n := OnHello(g, id, sid, resume);
    if resume && sid.Some? && PeekAt(g.holds, sid.value, g.now) == Granted && !g.unacked {
      assert Unused(g.trace, sid.value, g.holds[sid.value] - GRACE);
      Recorded(g, n, ResumeGranted(sid.value, g.now));
    } else {
      Unrecorded(g, n);
    }
  }

  lemma ArmKeepsInv(g: Gateway, id: nat, want: bool)
    requires Inv(g) && id in g.clients
    ensures Inv(OnArm(g, id, want))
  {
    var n := OnArm(g, id, want);
    if want && !g.unacked && !g.clients[id].armed {
      Recorded(g, n, Armed(id));
    } else {
      Unrecorded(g, n);
    }
  }

  lemma StallKeepsInv(g: Gateway, id: nat)
    requires Inv(g)
    ensures Inv(OnStallDone(g, id))
  {
    if id in g.clients && g.clients[id].session.Some? {
      Recorded(g, OnStallDone(g, id), StallDropped(g.clients[id].session.value));
    } else {
      Unrecorded(g, OnStallDone(g, id));
    }
  }

  lemma PollKeepsInv(g: Gateway, fault: Option<bool>)
    requires Inv(g)
    ensures Inv(OnPoll(g, fault))
  {
    if Evaluate(fault, g.watch).tripped && !g.unacked {
      Recorded(g, OnPoll(g, fault), Tripped);
    } else {
      Unrecorded(g, OnPoll(g, fault));
    }
  }

  lemma ActKeepsInv(g: Gateway, e: Event)
    requires Inv(g)
    ensures Inv(Act(g, e))
  {
    match e
    case Connect => Unrecorded(g, Act(g, e));
    case Heartbeat(id) => Unrecorded(g, Act(g, e));
    case Hello(id, sid, resume) => if Free(g, id) { HelloKeepsInv(g, id, Named(sid), resume); }
    case Arm(id, want) => if Free(g, id) { ArmKeepsInv(g, id, want); }
    case DisarmDone(id) =>
      if id in g.clients && g.clients[id].disarming {
        var m := g.(clients := g.clients[id := g.clients[id].(disarming := false)]);
        Unrecorded(g, m);
        RegisterKeepsInv(m, g.clients[id].session);
      }
    case StallCheck(id) => Unrecorded(g, Act(g, e));
    case StallDone(id) => if id in g.stalls { StallKeepsInv(g, id); }
    case Offline(id) => Unrecorded(g, Act(g, e));
    case Disconnect(id) => Unrecorded(g, Act(g, e));
    case LeaveDone(id) =>
      if id in g.leaving {
        var m := g.(leaving := g.leaving - {id}, stalls := g.stalls - {id});
        Unrecorded(g, m);
        RegisterKeepsInv(m, g.leaving[id].session);
      }
    case Poll(fault) => PollKeepsInv(g, fault);
    case Ack(id) => if Free(g, id) { Recorded(g, Act(g, e), Acked); }
  }

  lemma ActKeepsNow(g: Gateway, e: Event)
    ensures Act(g, e).now == g.now
  {
  }

  lemma {:induction false} RunKeepsInv(from: real, events: seq<Timed>)
    requires Ordered(from, events)
    ensures Inv(Run(Start(from), events))
    ensures Run(Start(from), events).now == if events == [] then from else events[|events| - 1].at
  {
    if events != [] {
      RunKeepsInv(from, events[..|events| - 1]);
      var g, t := Run(Start(from), events[..|events| - 1]), events[|events| - 1];
      assert Inv(g.(now := t.at));
      ActKeepsInv(g.(now := t.at), t.e);
      ActKeepsNow(g.(now := t.at), t.e);
    }
  }

  // ---- main results ----

  /** Each resume happens within the grace of a hold that no earlier resume or stall
      clean-up had used, and neither a resume nor an arming happens while a trip is
      unacknowledged. */
  lemma {:induction false} ResumesAreBacked(from: real, events: seq<Timed>, k: nat)
    requires Ordered(from, events) && k < |Run(Start(from), events).trace|
    ensures var trace := Run(Start(from), events).trace;
            GrantBacked(trace[..k], trace[k]) && GateKept(trace[..k], trace[k])
  {
    RunKeepsInv(from, events);
  }

  /** After a completed stall clean-up no resume of that session is granted before the
      session has registered a new hold. */
  lemma {:induction false} NoResumeAfterStall(from: real, events: seq<Timed>, i: nat, k: nat)
    requires Ordered(from, events)
    requires var trace := Run(Start(from), events).trace;
             i < k < |trace| && trace[i].StallDropped? && trace[k].ResumeGranted? && trace[k].sid == trace[i].sid
    ensures var trace := Run(Start(from), events).trace;
            exists j :: i < j < k && trace[j].HoldRegistered? && trace[j].sid == trace[i].sid
  {
    ResumesAreBacked(from, events, k);
    var trace := Run(Start(from), events).trace;
    var at :| at <= trace[k].at <= at + GRACE && Unused(trace[..k], trace[k].sid, at);
    var j :| 0 <= j < k && trace[..k][j] == HoldRegistered(trace[k].sid, at) && NotUsedAfter(trace[..k], trace[k].sid, j);
    assert trace[j] == trace[..k][j];
    assert Uses(trace[..k][i], trace[k].sid);
    assert i != j;
    assert i < j;
  }

  function Count(trace: seq<Trace>, f: Trace -> bool): nat {
    if trace == [] then 0
    else Count(trace[..|trace| - 1], f) + if f(trace[|trace| - 1]) then 1 else 0
  }

  function Grants(trace: seq<Trace>, sid: Session): nat { Count(trace, (t: Trace) => t.ResumeGranted? && t.sid == sid) }

  function Registrations(trace: seq<Trace>, sid: Session): nat {
    Count(trace, (t: Trace) => t.HoldRegistered? && t.sid == sid)
  }

  /** Grants so far, plus one if a hold is still there, never exceed registrations. */
  ghost predicate Balanced(g: Gateway, sid: Session) {
    Grants(g.trace, sid) + (if sid in g.holds then 1 else 0) <= Registrations(g.trace, sid)
  }

  ghost predicate BookStep(g: Gateway, n: Gateway, sid: Session) {
    || (n.trace == g.trace && (sid in n.holds ==> sid in g.holds))
    || exists t :: n.trace == g.trace + [t] && OneBook(g, n, t, sid)
  }

  ghost predicate OneBook(g: Gateway, n: Gateway, t: Trace, sid: Session) {
    if t.ResumeGranted? && t.sid == sid then sid in g.holds && sid !in n.holds
    else sid in n.holds ==> sid in g.holds || (t.HoldRegistered? && t.sid == sid)
  }

  lemma ActIsBookStep(g: Gateway, e: Event, sid: Session)
    ensures BookStep(g, Act(g, e), sid)
  {
    var n := Act(g, e);
    if n.trace != g.trace {
      var t := n.trace[|n.trace| - 1];
      assert n.trace == g.trace + [t];
      assert OneBook(g, n, t, sid);
    }
  }

  /** Per session, resumes never outnumber registrations. */
  lemma {:induction false} GrantsNeverExceedRegistrations(from: real, events: seq<Timed>, sid: Session)
    ensures Balanced(Run(Start(from), events), sid)
    ensures Grants(Run(Start(from), events).trace, sid) <= Registrations(Run(Start(from), events).trace, sid)
  {
    if events != [] {
      GrantsNeverExceedRegistrations(from, events[..|events| - 1], sid);
      var g, t := Run(Start(from), events[..|events| - 1]), events[|events| - 1];
      ActIsBookStep(g.(now := t.at), t.e, sid);
    }
  }

  function Readings(events: seq<Timed>): seq<Option<bool>> {
    if events == [] then []
    else
      var e := events[|events| - 1].e;
      Readings(events[..|events| - 1]) + if e.Poll? then [e.fault] else []
  }

  lemma WatchStep(g: Gateway, t: Timed)
    ensures Step(g, t).watch == if t.e.Poll? then Evaluate(t.e.fault, g.watch).next else g.watch
  {
  }

  lemma {:induction false} WatchFollowsPolls(from: real, events: seq<Timed>)
    ensures Run(Start(from), events).watch == After(Readings(events))
  {
    if events != [] {
      var before, t := events[..|events| - 1], events[|events| - 1];
      WatchFollowsPolls(from, before);
      WatchStep(Run(Start(from), before), t);
      if t.e.Poll? {
        AfterSnoc(Readings(before), t.e.fault);
      } else {
        assert Readings(events) == Readings(before);
      }
    }
  }

  /** The gate closes exactly when a poll sees the latch go from clear to latched, in the
      readings of the whole run with missing ones erased. */
  lemma {:induction false} GateClosesExactlyAtTrips(from: real, events: seq<Timed>, at: real, r: Option<bool>)
    ensures var g := Run(Start(from), events);
            var l := Levels(Readings(events));
            Step(g, Timed(at, Poll(r))).unacked <==> g.unacked || (r == Some(true) && l != [] && !l[|l| - 1])
  {
    WatchFollowsPolls(from, events);
    FlaggedExactlyAtTransitions(Readings(events), r);
  }
}
