/** What the gateway knows of each client and each session, told from the events that
    happened: whichever of the events that bear on it came last.  With any number of
    clients, none disturbs what is known of another. */
module ArmingClients {
  import opened Wrappers
  import opened Arming
  import opened ArmedResume

  predicate Known(g: Gateway) {
    && (forall id :: id in g.clients ==> id < g.nextId)
    && (forall id :: id in g.leaving ==> id < g.nextId && id !in g.clients)
  }

  lemma {:induction false} AlwaysKnown(from: real, events: seq<Timed>)
    ensures Known(Run(Start(from), events))
  {
    var g := Run(Start(from), events);
    forall id | id in g.clients ensures id < g.nextId {
      LastBeatIsKnown(from, events, id);
    }
    forall id | id in g.leaving ensures id < g.nextId && id !in g.clients {
      LastBeatIsKnown(from, events, id);
    }
  }

  /** The state an event finds. */
  function Before(from: real, events: seq<Timed>): Gateway
    requires events != []
  {
    Run(Start(from), events[..|events| - 1]).(now := events[|events| - 1].at)
  }

  predicate Granted(g: Gateway, sid: Option<Session>, resume: bool) {
    resume && Named(sid).Some? && !g.unacked && HoldLive(g, Named(sid).value, g.now)
  }

  predicate Stalled(g: Gateway, id: nat) {
    id in g.clients && id !in g.stalls && g.clients[id].armed && g.now - g.clients[id].lastHb > 3.0
  }

  // ---- armed ----

  predicate IsArmed(g: Gateway, id: nat) { id in g.clients && g.clients[id].armed }

  /** An arming the gate lets through, or a granted resume. */
  predicate Arms(g: Gateway, e: Event, id: nat) {
    match e
    case Arm(i, want) => i == id && want && Free(g, id) && !g.unacked
    case Hello(i, sid, resume) => i == id && Free(g, id) && Granted(g, sid, resume)
    case _ => false
  }

  /** A disarming, a heartbeat more than three seconds old when the status loop looks, a
      lost controller, or leaving. */
  predicate Disarms(g: Gateway, e: Event, id: nat) {
    match e
    case Arm(i, want) => i == id && !want && Free(g, id)
    case StallCheck(i) => i == id && Stalled(g, id)
    case Offline(i) => i == id && id !in g.stalls
    case Disconnect(i) => i == id && Free(g, id)
    case _ => false
  }

  function ArmedBy(from: real, events: seq<Timed>, id: nat): bool {
    if events == [] then false
    else
      var g, e := Before(from, events), events[|events| - 1].e;
      Arms(g, e, id) || (!Disarms(g, e, id) && ArmedBy(from, events[..|events| - 1], id))
  }

  lemma ArmedStep(g: Gateway, e: Event, id: nat)
    requires Known(g)
    ensures IsArmed(Act(g, e), id) <==> Arms(g, e, id) || (!Disarms(g, e, id) && IsArmed(g, id))
  {
  }

  /** A client is armed if and only if the last event to bear on it armed it. */
  lemma {:induction false} ArmedIsTheLastWord(from: real, events: seq<Timed>, id: nat)
    ensures IsArmed(Run(Start(from), events), id) <==> ArmedBy(from, events, id)
  {
    if events != [] {
      AlwaysKnown(from, events[..|events| - 1]);
      ArmedIsTheLastWord(from, events[..|events| - 1], id);
      ArmedStep(Before(from, events), events[|events| - 1].e, id);
    }
  }

  // ---- what is in flight for a client ----

  predicate IsDisarming(g: Gateway, id: nat) { id in g.clients && g.clients[id].disarming }

  function DisarmingBy(from: real, events: seq<Timed>, id: nat): bool {
    if events == [] then false
    else
      var g, e := Before(from, events), events[|events| - 1].e;
      (e == Arm(id, false) && Free(g, id) && IsArmed(g, id)) || (e != DisarmDone(id) && DisarmingBy(from, events[..|events| - 1], id))
  }

  lemma DisarmingStep(g: Gateway, e: Event, id: nat)
    requires Known(g)
    ensures IsDisarming(Act(g, e), id) <==>
              (e == Arm(id, false) && Free(g, id) && IsArmed(g, id)) || (e != DisarmDone(id) && IsDisarming(g, id))
  {
  }

  /** A stall clean-up is in flight from its check until it is done or its client's
      connection ends. */
  function CleaningBy(from: real, events: seq<Timed>, id: nat): bool {
    if events == [] then false
    else
      var g, e := Before(from, events), events[|events| - 1].e;
      (e == StallCheck(id) && Stalled(g, id))
      || (!EndsCleanUp(g, e, id) && CleaningBy(from, events[..|events| - 1], id))
  }

  predicate EndsCleanUp(g: Gateway, e: Event, id: nat) {
    e == StallDone(id) || (e == Disconnect(id) && Free(g, id) && !IsArmed(g, id)) || (e == LeaveDone(id) && id in g.leaving)
  }

  lemma CleaningStep(g: Gateway, e: Event, id: nat)
    ensures id in Act(g, e).stalls <==> (e == StallCheck(id) && Stalled(g, id)) || (!EndsCleanUp(g, e, id) && id in g.stalls)
  {
  }

  /** A client that disconnected armed is leaving until its jog stop is done. */
  function LeavingBy(from: real, events: seq<Timed>, id: nat): bool {
    if events == [] then false
    else
      var g, e := Before(from, events), events[|events| - 1].e;
      (e == Disconnect(id) && Free(g, id) && IsArmed(g, id)) || (e != LeaveDone(id) && LeavingBy(from, events[..|events| - 1], id))
  }

  lemma LeavingStep(g: Gateway, e: Event, id: nat)
    ensures id in Act(g, e).leaving <==>
              (e == Disconnect(id) && Free(g, id) && IsArmed(g, id)) || (e != LeaveDone(id) && id in g.leaving)
  {
  }

  lemma {:induction false} InFlightIsTheLastWord(from: real, events: seq<Timed>, id: nat)
    ensures var g := Run(Start(from), events);
            && (IsDisarming(g, id) <==> DisarmingBy(from, events, id))
            && (id in g.stalls <==> CleaningBy(from, events, id))
            && (id in g.leaving <==> LeavingBy(from, events, id))
  {
    if events != [] {
      AlwaysKnown(from, events[..|events| - 1]);
      InFlightIsTheLastWord(from, events[..|events| - 1], id);
      DisarmingStep(Before(from, events), events[|events| - 1].e, id);
      CleaningStep(Before(from, events), events[|events| - 1].e, id);
      LeavingStep(Before(from, events), events[|events| - 1].e, id);
    }
  }

  // ---- sessions ----

  function SessionOf(g: Gateway, id: nat): Option<Session> {
    if id in g.clients then g.clients[id].session else if id in g.leaving then g.leaving[id].session else None
  }

  predicate Present(g: Gateway, id: nat) { id in g.clients || id in g.leaving }

  predicate Names(g: Gateway, e: Event, id: nat) { e.Hello? && e.id == id && Free(g, id) && e.sid.Some? && e.sid != Some("") }

  /** The last name a hello of this client gave. */
  function SessionBy(from: real, events: seq<Timed>, id: nat): Option<Session> {
    if events == [] then None
    else
      var g, e := Before(from, events), events[|events| - 1].e;
      if Names(g, e, id) then e.sid else SessionBy(from, events[..|events| - 1], id)
  }

  ghost predicate SessionKnown(g: Gateway, id: nat, sid: Option<Session>) {
    (Present(g, id) ==> SessionOf(g, id) == sid) && (id >= g.nextId ==> sid == None)
  }

  lemma HelloSession(g: Gateway, id: nat, i: nat, sid: Option<Session>, resume: bool, was: Option<Session>)
    requires Known(g) && SessionKnown(g, id, was)
    ensures var e := Hello(i, sid, resume); SessionKnown(Act(g, e), id, if Names(g, e, id) then sid else was)
  {
  }

  lemma SessionStep(g: Gateway, e: Event, id: nat, was: Option<Session>)
    requires Known(g) && SessionKnown(g, id, was)
    ensures SessionKnown(Act(g, e), id, if Names(g, e, id) then e.sid else was)
  {
    if e.Hello? {
      HelloSession(g, id, e.id, e.sid, e.resume, was);
    }
  }

  /** A client's session is the last one its hellos named. */
  lemma {:induction false} SessionIsTheLastName(from: real, events: seq<Timed>, id: nat)
    ensures SessionKnown(Run(Start(from), events), id, SessionBy(from, events, id))
  {
    if events != [] {
      AlwaysKnown(from, events[..|events| - 1]);
      SessionIsTheLastName(from, events[..|events| - 1], id);
      SessionStep(Before(from, events), events[|events| - 1].e, id, SessionBy(from, events[..|events| - 1], id));
    }
  }

  // ---- holds ----

  /** The end of an explicit disarm, or of a leaving with a heartbeat at most two seconds old. */
  predicate Holds(g: Gateway, e: Event, sid: Session) {
    match e
    case DisarmDone(id) => IsDisarming(g, id) && g.clients[id].session == Some(sid)
    case LeaveDone(id) => id in g.leaving && g.leaving[id].session == Some(sid) && g.now - g.leaving[id].lastHb <= 2.0
    case _ => false
  }

  /** A granted resume, or the end of a stall clean-up of a client still there. */
  predicate Spends(g: Gateway, e: Event, sid: Session) {
    match e
    case Hello(id, s, resume) => Free(g, id) && Granted(g, s, resume) && s == Some(sid)
    case StallDone(id) => id in g.stalls && id in g.clients && g.clients[id].session == Some(sid)
    case _ => false
  }

  /** When the session last earned a hold that nothing has spent. */
  function HeldSince(from: real, events: seq<Timed>, sid: Session): Option<real> {
    if events == [] then None
    else
      var g, e := Before(from, events), events[|events| - 1].e;
      if Holds(g, e, sid) then Some(g.now)
      else if Spends(g, e, sid) then None
      else HeldSince(from, events[..|events| - 1], sid)
  }

  ghost predicate HoldIs(g: Gateway, sid: Session, since: Option<real>) {
    && (sid in g.holds ==> since.Some? && g.holds[sid] == since.value + 10.0)
    && (since.Some? && g.now <= since.value + 10.0 ==> sid in g.holds)
  }

  lemma HoldIsStep(g: Gateway, e: Event, sid: Session, since: Option<real>)
    requires HoldIs(g, sid, since)
    ensures HoldIs(Act(g, e), sid, if Holds(g, e, sid) then Some(g.now) else if Spends(g, e, sid) then None else since)
  {
  }

  /** A session's hold is live at a time if and only if the session earned one at most ten
      seconds before that nothing has spent since, whatever other sessions did. */
  lemma {:induction false} LiveExactlyWhenEarned(from: real, events: seq<Timed>, sid: Session, u: real)
    requires Ordered(from, events) && Run(Start(from), events).now <= u
    ensures HoldIs(Run(Start(from), events), sid, HeldSince(from, events, sid))
    ensures HoldLive(Run(Start(from), events), sid, u) <==>
              HeldSince(from, events, sid).Some? && u <= HeldSince(from, events, sid).value + 10.0
  {
    if events != [] {
      var before, t := events[..|events| - 1], events[|events| - 1];
      OrderedPrefix(from, events);
      RunKeepsInv(from, before);
      LiveExactlyWhenEarned(from, before, sid, t.at);
      HoldIsStep(Before(from, events), t.e, sid, HeldSince(from, before, sid));
    }
  }

  /** A hello that asks for an expired hold takes it out of the table. */
  lemma {:induction false} ExpiredHoldIsDropped(g: Gateway, id: nat, sid: Session)
    requires Free(g, id) && sid != "" && sid in g.holds && g.now > g.holds[sid]
    ensures var n := Act(g, Hello(id, Some(sid), true));
            sid !in n.holds && n.trace == g.trace && n.clients[id].armed == g.clients[id].armed
  {
  }
}
