/** Who can come back armed without registering a new hold: after a heartbeat-stall
    disarm, after the end of its clean-up, and after leaving while armed. */
module ArmedResume {
  import opened Wrappers
  import opened Arming

  // ---- resuming without a new registration ----

  predicate HoldLive(g: Gateway, sid: Session, u: real) { sid in g.holds && u <= g.holds[sid] }

  ghost predicate RegisteredSince(g: Gateway, n: Gateway, sid: Session) {
    exists k :: |g.trace| <= k < |n.trace| && n.trace[k].HoldRegistered? && n.trace[k].sid == sid
  }

  ghost predicate ResumedSince(g: Gateway, n: Gateway, sid: Session) {
    exists k :: |g.trace| <= k < |n.trace| && n.trace[k].ResumeGranted? && n.trace[k].sid == sid
  }

  /** Some continuation from time u on grants the session a resume though it registers no
      hold of that session. */
  ghost predicate CanResume(g: Gateway, sid: Session, u: real) {
    exists more :: Ordered(u, more) && !RegisteredSince(g, Run(g, more), sid) && ResumedSince(g, Run(g, more), sid)
  }

  /** What one event can do to a session's hold: a hold comes only from a registration,
      and a grant only from a live hold. */
  ghost predicate HoldFacts(g: Gateway, n: Gateway, sid: Session) {
    && (n.trace == g.trace || (|n.trace| == |g.trace| + 1 && n.trace[..|g.trace|] == g.trace))
    && (sid in n.holds ==> (sid in g.holds && n.holds[sid] == g.holds[sid])
                           || (n.trace != g.trace && n.trace[|g.trace|] == HoldRegistered(sid, g.now)))
    && (n.trace != g.trace && n.trace[|g.trace|].ResumeGranted? && n.trace[|g.trace|].sid == sid ==>
          sid in g.holds && g.now <= g.holds[sid])
  }

  lemma HoldStep(g: Gateway, e: Event, sid: Session)
    ensures HoldFacts(g, Act(g, e), sid)
  {
  }

  /** Without a registration the hold is the original one, and grants show it was live. */
  ghost predicate FromTheHold(g: Gateway, n: Gateway, sid: Session, u: real) {
    && |g.trace| <= |n.trace| && n.trace[..|g.trace|] == g.trace
    && (!RegisteredSince(g, n, sid) && sid in n.holds ==> sid in g.holds && n.holds[sid] == g.holds[sid])
    && (!RegisteredSince(g, n, sid) && ResumedSince(g, n, sid) ==> HoldLive(g, sid, u))
  }

  lemma HoldChain(g: Gateway, m: Gateway, n: Gateway, sid: Session, u: real)
    requires FromTheHold(g, m, sid, u) && HoldFacts(m, n, sid) && u <= m.now
    ensures FromTheHold(g, n, sid, u)
  {
    StillUnregistered(g, m, n, sid);
    assert n.trace[..|m.trace|] == m.trace;
    if n.trace != m.trace && n.trace[|m.trace|] == HoldRegistered(sid, m.now) {
      assert RegisteredSince(m, n, sid);
    }
  }

  lemma {:induction false} GrantsComeFromTheHold(g: Gateway, sid: Session, u: real, more: seq<Timed>)
    requires Ordered(u, more)
    ensures FromTheHold(g, Run(g, more), sid, u)
  {
    if more != [] {
      OrderedPrefix(u, more);
      var before, t := more[..|more| - 1], more[|more| - 1];
      GrantsComeFromTheHold(g, sid, u, before);
      var m := Run(g, before).(now := t.at);
      HoldStep(m, t.e, sid);
      HoldChain(g, m, Act(m, t.e), sid, u);
    }
  }

  lemma StillUnregistered(g: Gateway, m: Gateway, n: Gateway, sid: Session)
    requires |g.trace| <= |m.trace| <= |n.trace| && n.trace[..|m.trace|] == m.trace
    ensures RegisteredSince(g, m, sid) ==> RegisteredSince(g, n, sid)
    ensures RegisteredSince(m, n, sid) ==> RegisteredSince(g, n, sid)
    ensures ResumedSince(g, n, sid) ==> ResumedSince(g, m, sid) || ResumedSince(m, n, sid)
  {
    forall k | 0 <= k < |m.trace| ensures n.trace[k] == m.trace[k] {
      assert n.trace[..|m.trace|][k] == n.trace[k];
    }
  }

  lemma OrderedPrefix(from: real, events: seq<Timed>)
    requires Ordered(from, events) && events != []
    ensures Ordered(from, events[..|events| - 1]) && from <= events[|events| - 1].at
  {
  }

  lemma {:induction false} RunConcat(g: Gateway, a: seq<Timed>, b: seq<Timed>)
    ensures Run(g, a + b) == Run(Run(g, a), b)
    decreases |b|
  {
    if b == [] {
      assert a + b == a;
    } else {
      RunConcat(g, a, b[..|b| - 1]);
      assert (a + b)[..|a + b| - 1] == a + b[..|b| - 1];
    }
  }

  lemma RunAt(g: Gateway, events: seq<Timed>, k: nat)
    requires k < |events|
    ensures Run(g, events[..k + 1]) == Step(Run(g, events[..k]), events[k])
  {
    assert events[..k + 1][..k] == events[..k];
  }

  function ComeBack(u: real, id: nat, sid: Session): seq<Timed> {
    [Timed(u, Connect), Timed(u, Ack(id)), Timed(u, Hello(id, Some(sid), true))]
  }

  lemma NewcomerAcks(g: Gateway, u: real)
    ensures var n := Step(Step(g, Timed(u, Connect)), Timed(u, Ack(g.nextId)));
            Free(n, g.nextId) && n.holds == g.holds && !n.unacked && n.trace == g.trace + [Acked]
  {
    assert Free(Step(g, Timed(u, Connect)), g.nextId);
  }

  lemma HelloResumes(g: Gateway, id: nat, sid: Session, u: real)
    requires HoldLive(g, sid, u) && sid != "" && Free(g, id) && !g.unacked
    ensures Step(g, Timed(u, Hello(id, Some(sid), true))).trace == g.trace + [ResumeGranted(sid, u)]
  {
    assert PeekAt(g.holds, sid, u) == Granted;
  }

  lemma ComingBackResumes(g: Gateway, sid: Session, u: real)
    requires HoldLive(g, sid, u) && sid != ""
    ensures var n := Run(g, ComeBack(u, g.nextId, sid)); n.trace == g.trace + [Acked, ResumeGranted(sid, u)]
  {
    var id := g.nextId;
    NewcomerAcks(g, u);
    var b := Step(Step(g, Timed(u, Connect)), Timed(u, Ack(id)));
    HelloResumes(b, id, sid, u);
    RunTwo(g, Timed(u, Connect), Timed(u, Ack(id)), [Timed(u, Connect), Timed(u, Ack(id))]);
    var back := ComeBack(u, id, sid);
    RunAt(g, back, 2);
    assert back[..3] == back && back[..2] == [Timed(u, Connect), Timed(u, Ack(id))];
  }

  lemma RunTwo(g: Gateway, a: Timed, b: Timed, both: seq<Timed>)
    requires both == [a, b]
    ensures Run(g, both) == Step(Step(g, a), b)
  {
    RunAt(g, both, 0);
    RunAt(g, both, 1);
    assert both[..0] == [] && both[..2] == both;
  }

  /** From any state and any time, a session can resume without registering exactly when
      its hold is in the table and not expired then. */
  lemma {:induction false} ResumableExactlyWhenHoldLive(g: Gateway, sid: Session, u: real)
    requires sid != ""
    ensures CanResume(g, sid, u) <==> HoldLive(g, sid, u)
  {
    forall more | Ordered(u, more) && !RegisteredSince(g, Run(g, more), sid) && ResumedSince(g, Run(g, more), sid)
      ensures HoldLive(g, sid, u)
    {
      GrantsComeFromTheHold(g, sid, u, more);
    }
    if HoldLive(g, sid, u) {
      var back := ComeBack(u, g.nextId, sid);
      ComingBackResumes(g, sid, u);
      var n := Run(g, back);
      assert n.trace[|g.trace|] == Acked && n.trace[|g.trace| + 1] == ResumeGranted(sid, u);
      assert !RegisteredSince(g, n, sid) && ResumedSince(g, n, sid);
      assert Ordered(u, back);
    }
  }

  // ---- a hold lasts ----

  /** What one event leaves of a live hold: it goes only by a resume, a clean-up or a new
      registration of that very session. */
  lemma LiveHoldStep(g: Gateway, e: Event, sid: Session)
    requires HoldLive(g, sid, g.now)
    ensures var n := Act(g, e);
            || (sid in n.holds && n.holds[sid] == g.holds[sid])
            || (n.trace != g.trace && !n.trace[|n.trace| - 1].Armed? && !n.trace[|n.trace| - 1].Tripped?
                && !n.trace[|n.trace| - 1].Acked? && n.trace[|n.trace| - 1].sid == sid)
  {
  }

  /** The run up to `until` says nothing of the session's hold: no resume, no stall drop,
      no registration of its own. */
  ghost predicate LeftAlone(g: Gateway, n: Gateway, sid: Session) {
    forall k | |g.trace| <= k < |n.trace| ::
      n.trace[k] != Acked && n.trace[k] != Tripped && !n.trace[k].Armed? ==> n.trace[k].sid != sid
  }

  lemma LeftAloneEarlier(g: Gateway, m: Gateway, n: Gateway, sid: Session)
    requires LeftAlone(g, n, sid) && |g.trace| <= |m.trace| <= |n.trace| && n.trace[..|m.trace|] == m.trace
    ensures LeftAlone(g, m, sid) && LeftAlone(m, n, sid)
  {
    forall k | 0 <= k < |m.trace| ensures n.trace[k] == m.trace[k] {
      assert n.trace[..|m.trace|][k] == n.trace[k];
    }
  }

  /** A hold live at time u stays with the same expiry through every timed run up to u in
      which that session neither resumes nor is dropped by a stall nor registers anew,
      whatever other sessions do. */
  lemma {:induction false} LiveHoldStays(g: Gateway, sid: Session, u: real, more: seq<Timed>)
    requires HoldLive(g, sid, u) && Ordered(g.now, more) && (forall i :: 0 <= i < |more| ==> more[i].at <= u)
    requires LeftAlone(g, Run(g, more), sid)
    ensures var n := Run(g, more); sid in n.holds && n.holds[sid] == g.holds[sid]
  {
    if more != [] {
      var before, t := more[..|more| - 1], more[|more| - 1];
      var m := Run(g, before).(now := t.at);
      OrderedPrefix(g.now, more);
      GrantsComeFromTheHold(g, sid, g.now, before);
      HoldStep(m, t.e, sid);
      LeftAloneEarlier(g, m, Act(m, t.e), sid);
      LiveHoldStays(g, sid, u, before);
      LiveHoldStep(m, t.e, sid);
    }
  }

  /** So a tab that left armed comes back armed, whatever other sessions register, drop or
      resume in its ten seconds. */
  lemma {:induction false} LeavingLasts(from: real, events: seq<Timed>, at: real, id: nat, sid: Session, more: seq<Timed>, u: real)
    requires var s := Run(Start(from), events);
             id in s.leaving && s.leaving[id].session == Some(sid) && sid != "" && at - s.leaving[id].lastHb <= 2.0
    requires var n := Step(Run(Start(from), events), Timed(at, LeaveDone(id)));
             Ordered(at, more) && (forall i :: 0 <= i < |more| ==> more[i].at <= u) && u <= at + 10.0
             && LeftAlone(n, Run(n, more), sid)
    ensures CanResume(Run(Step(Run(Start(from), events), Timed(at, LeaveDone(id))), more), sid, u)
  {
    var n := Step(Run(Start(from), events), Timed(at, LeaveDone(id)));
    assert n.now == at && sid in n.holds && n.holds[sid] == at + 10.0;
    LiveHoldStays(n, sid, u, more);
    ResumableExactlyWhenHoldLive(Run(n, more), sid, u);
  }

  // ---- after a stall disarm ----

  predicate Stalls(g: Gateway, at: real, id: nat, sid: Session) {
    && id in g.clients && id !in g.stalls && g.clients[id].armed && g.clients[id].session == Some(sid)
    && at - g.clients[id].lastHb > STALL_AGE
  }

  /** After the stall disarm of a client of a session, some continuation in which that
      session registers no hold grants it a resume if and only if its hold is live at the
      disarm. */
  lemma {:induction false} ResumeAfterStallExactlyWhenHoldLive(from: real, events: seq<Timed>, at: real, id: nat, sid: Session)
    requires Stalls(Run(Start(from), events), at, id, sid) && sid != ""
    ensures var s := Run(Start(from), events);
            var n := Step(s, Timed(at, StallCheck(id)));
            && id in n.clients && !n.clients[id].armed && id in n.stalls
            && (CanResume(n, sid, at) <==> sid in s.holds && at <= s.holds[sid])
  {
    var n := Step(Run(Start(from), events), Timed(at, StallCheck(id)));
    ResumableExactlyWhenHoldLive(n, sid, at);
  }

  /** It can happen in the clean-up's own wait: from any state with a live hold, a second
      connection of the stalled client's session comes back armed before the clean-up
      drops the hold, with the stalled client connected throughout. */
  lemma {:induction false} ResumeDuringCleanUp(g: Gateway, at: real, id: nat, other: nat, sid: Session)
    requires Stalls(g, at, id, sid) && sid != "" && other != id && Free(g, other) && !g.clients[other].armed
    requires HoldLive(g, sid, at) && !g.unacked
    ensures var a := Step(g, Timed(at, StallCheck(id)));
            var b := Step(a, Timed(at, Hello(other, Some(sid), true)));
            var n := Step(b, Timed(at, StallDone(id)));
            && b.trace == g.trace + [ResumeGranted(sid, at)]
            && other in n.clients && n.clients[other].armed
            && id in n.clients && n.clients[id].session == Some(sid) && !n.clients[id].armed
  {
    var a := Step(g, Timed(at, StallCheck(id)));
    assert Free(a, other) && PeekAt(a.holds, sid, at) == Granted;
    var b := Step(a, Timed(at, Hello(other, Some(sid), true)));
    assert b.clients[other].armed && id in b.stalls && b.clients[id] == a.clients[id];
  }

  /** With a live hold, the end of the clean-up rules out any later resume without a new
      registration exactly when the stalled client is still connected under the session. */
  lemma {:induction false} CleanUpPreventsExactlyWhenConnected(g: Gateway, id: nat, sid: Session, u: real)
    requires id in g.stalls && sid != "" && HoldLive(g, sid, u)
    ensures !CanResume(Act(g, StallDone(id)), sid, u) <==> id in g.clients && g.clients[id].session == Some(sid)
  {
    ResumableExactlyWhenHoldLive(Act(g, StallDone(id)), sid, u);
  }

  // ---- after leaving while armed ----

  /** Events that renew a client's liveness: its connection, a heartbeat, an arming or
      disarming that was not refused, a granted resume. */
  predicate Beats(g: Gateway, e: Event, id: nat) {
    match e
    case Connect => g.nextId == id
    case Heartbeat(i) => i == id && Free(g, id)
    case Arm(i, want) => i == id && Free(g, id) && !(want && g.unacked)
    case Hello(i, sid, resume) =>
      && i == id && Free(g, id) && resume && Named(sid).Some? && !g.unacked
      && PeekAt(g.holds, Named(sid).value, g.now) == Granted
    case _ => false
  }

  function LastBeat(from: real, events: seq<Timed>, id: nat): Option<real> {
    if events == [] then None
    else
      var before, t := events[..|events| - 1], events[|events| - 1];
      if Beats(Run(Start(from), before).(now := t.at), t.e, id) then Some(t.at) else LastBeat(from, before, id)
  }

  /** One client's liveness: connected or leaving, with its last beat on record. */
  ghost predicate BeatKnown(g: Gateway, id: nat, beat: Option<real>) {
    && (id in g.clients ==> id < g.nextId && beat == Some(g.clients[id].lastHb))
    && (id in g.leaving ==> id < g.nextId && id !in g.clients && beat == Some(g.leaving[id].lastHb))
  }

  lemma BeatStep(g: Gateway, e: Event, id: nat, beat: Option<real>)
    requires BeatKnown(g, id, beat)
    ensures BeatKnown(Act(g, e), id, if Beats(g, e, id) then Some(g.now) else beat)
  {
  }

  lemma {:induction false} LastBeatIsKnown(from: real, events: seq<Timed>, id: nat)
    ensures BeatKnown(Run(Start(from), events), id, LastBeat(from, events, id))
  {
    if events != [] {
      var before, t := events[..|events| - 1], events[|events| - 1];
      LastBeatIsKnown(from, before, id);
      BeatStep(Run(Start(from), before).(now := t.at), t.e, id, LastBeat(from, before, id));
    }
  }

  /** Over every run: a client that disconnected armed, of a session with no other live
      hold, lets that session resume at time u without a new registration if and only if it
      had that session, its last sign of life lay at most two seconds before the end of its
      clean-up, and u is within ten seconds of that end. */
  lemma {:induction false} LeavingResumesExactlyWhenBeating(from: real, events: seq<Timed>, at: real, id: nat, sid: Session, u: real)
    requires var s := Run(Start(from), events);
             id in s.leaving && at <= u && sid != "" && !HoldLive(s, sid, u)
    ensures var s := Run(Start(from), events);
            && LastBeat(from, events, id).Some?
            && (CanResume(Step(s, Timed(at, LeaveDone(id))), sid, u) <==>
                  && s.leaving[id].session == Some(sid)
                  && at - LastBeat(from, events, id).value <= 2.0 && u <= at + 10.0)
  {
    LastBeatIsKnown(from, events, id);
    ResumableExactlyWhenHoldLive(Step(Run(Start(from), events), Timed(at, LeaveDone(id))), sid, u);
  }

  // ---- the clean-up that misses its hold ----

  function Drop(t: real, id: nat): seq<Timed> { [Timed(t, StallCheck(id)), Timed(t, Disconnect(id))] }

  /** A stalled client that drops while its clean-up is in flight takes the clean-up with
      it and leaves every hold, so its session can resume exactly when its hold is live. */
  lemma {:induction false} DropDuringCleanUp(g: Gateway, t: real, id: nat, sid: Session, u: real)
    requires Free(g, id) && g.clients[id].armed && id !in g.stalls && t - g.clients[id].lastHb > STALL_AGE && sid != ""
    ensures id in Step(g, Timed(t, StallCheck(id))).stalls
    ensures var n := Run(g, Drop(t, id));
            && id !in n.clients && id !in n.stalls
            && n.holds == g.holds && n.nextId == g.nextId && n.unacked == g.unacked && n.trace == g.trace
            && (CanResume(n, sid, u) <==> sid in g.holds && u <= g.holds[sid])
  {
    var a := Step(g, Timed(t, StallCheck(id)));
    assert Free(a, id) && !a.clients[id].armed;
    RunTwo(g, Timed(t, StallCheck(id)), Timed(t, Disconnect(id)), Drop(t, id));
    ResumableExactlyWhenHoldLive(Run(g, Drop(t, id)), sid, u);
  }

  function Return(t: real, id: nat, sid: Session): seq<Timed> {
    [Timed(t, Connect), Timed(t, Hello(id, Some(sid), true))]
  }

  lemma ReturnResumes(g: Gateway, t: real, sid: Session)
    requires sid != "" && sid in g.holds && t <= g.holds[sid] && !g.unacked
    ensures var n := Run(g, Return(t, g.nextId, sid)); g.nextId in n.clients && n.clients[g.nextId].armed
  {
    var back := Return(t, g.nextId, sid);
    var a := Step(g, Timed(t, Connect));
    assert Free(a, g.nextId) && PeekAt(a.holds, sid, t) == Granted;
    var b := Step(a, back[1]);
    assert b.clients[g.nextId].armed;
    RunAt(g, back, 0);
    RunAt(g, back, 1);
    assert back[..0] == [] && back[..2] == back;
  }

  const TAB: Session := "tab"

  const OPEN_TAB: seq<Timed> := [Timed(0.0, Connect), Timed(0.0, Hello(0, Some(TAB), false)), Timed(0.0, Arm(0, true))]
  const REARM: seq<Timed> := [Timed(1.0, Arm(0, false)), Timed(1.0, DisarmDone(0)), Timed(1.0, Arm(0, true))]

  lemma OpenTabArms(g: Gateway)
    requires g.clients == map[] && g.nextId == 0 && !g.unacked
    ensures var n := Run(g, OPEN_TAB);
            && n.clients == map[0 := Client(true, 0.0, Some(TAB), false)] && n.nextId == 1
            && n.stalls == g.stalls && n.holds == g.holds && !n.unacked
  {
    var a := Step(g, OPEN_TAB[0]);
    assert a.clients == map[0 := Client(false, 0.0, None, false)];
    var b := Step(a, OPEN_TAB[1]);
    assert b.clients == map[0 := Client(false, 0.0, Some(TAB), false)];
    RunAt(g, OPEN_TAB, 0);
    RunAt(g, OPEN_TAB, 1);
    RunAt(g, OPEN_TAB, 2);
    assert OPEN_TAB[..0] == [] && OPEN_TAB[..3] == OPEN_TAB;
  }

  lemma RearmLeavesHold(g: Gateway)
    requires g.clients == map[0 := Client(true, 0.0, Some(TAB), false)] && g.holds == map[] && !g.unacked
    ensures var n := Run(g, REARM);
            && n.clients == map[0 := Client(true, 1.0, Some(TAB), false)] && n.nextId == g.nextId
            && n.stalls == g.stalls && TAB in n.holds && n.holds[TAB] == 11.0 && !n.unacked
  {
    var a := Step(g, REARM[0]);
    assert a.clients == map[0 := Client(false, 1.0, Some(TAB), true)];
    var b := Step(a, REARM[1]);
    assert b.clients == map[0 := Client(false, 1.0, Some(TAB), false)];
    RunAt(g, REARM, 0);
    RunAt(g, REARM, 1);
    RunAt(g, REARM, 2);
    assert REARM[..0] == [] && REARM[..3] == REARM;
  }

  /** "No resume after a stall disarm until a new hold" is false when the client drops
      during the clean-up: in this run the tab is armed, disarmed with a hold, armed
      again, stalls at 5.0, drops, and comes back armed, with no arming by the operator
      and no new hold after the stall. */
  lemma {:induction false} MissedHoldResumes()
    ensures var g := Run(Start(0.0), OPEN_TAB + REARM + Drop(5.0, 0) + Return(6.0, 1, TAB));
            1 in g.clients && g.clients[1].armed
    ensures 0 in Step(Run(Start(0.0), OPEN_TAB + REARM), Drop(5.0, 0)[0]).stalls
  {
    var g0 := Start(0.0);
    RunConcat(g0, OPEN_TAB + REARM + Drop(5.0, 0), Return(6.0, 1, TAB));
    RunConcat(g0, OPEN_TAB + REARM, Drop(5.0, 0));
    RunConcat(g0, OPEN_TAB, REARM);
    OpenTabArms(g0);
    RearmLeavesHold(Run(g0, OPEN_TAB));
    DropDuringCleanUp(Run(g0, OPEN_TAB + REARM), 5.0, 0, TAB, 6.0);
    ReturnResumes(Run(g0, OPEN_TAB + REARM + Drop(5.0, 0)), 6.0, TAB);
  }
}
