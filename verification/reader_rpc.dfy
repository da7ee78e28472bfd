/** Request/reply routing between the gateway and the HAL reader process: the
    pending table, reply dispatch, timeouts, and cleanup on disconnect.  Steps are
    the atomic sections between awaits; any number of requests are in flight. */
module ReaderRpc {
  import opened Wrappers

  datatype Msg = Snapshot(pins: int) | Reply(id: nat, body: int)

  /** A future: unfinished, or finished in one of three ways. */
  datatype Future = Waiting | Resolved(reply: Msg) | Failed | Cancelled

  /** The bridge's own fields; `futs` holds every future ever created, `pending`
      maps a request id to its future. */
  datatype Table = Table(connected: bool, nextId: nat, pending: map<nat, nat>, futs: seq<Future>, state: Option<Msg>)

  const EMPTY_TABLE := Table(false, 0, map[], [], None)

  // ---- the atomic sections ----

  function Registered(t: Table): Table {
    t.(nextId := t.nextId + 1, pending := t.pending[t.nextId + 1 := |t.futs|], futs := t.futs + [Waiting])
  }

  function Popped(t: Table, id: nat): Table { t.(pending := t.pending - {id}) }

  /** Completes a future unless it is already done. */
  function Completed(t: Table, f: nat, outcome: Future): Table {
    if f < |t.futs| && t.futs[f].Waiting? then t.(futs := t.futs[f := outcome]) else t
  }

  function Dispatched(t: Table, m: Msg): Table {
    if m.Snapshot? then t.(state := Some(m))
    else if m.id in t.pending then Completed(Popped(t, m.id), t.pending[m.id], Resolved(m))
    else t
  }

  predicate IsPendingFuture(t: Table, f: nat) { exists id :: id in t.pending && t.pending[id] == f }

  /** Every pending future that is not done fails; the table is emptied. */
  function Cleaned(t: Table): Table {
    t.(connected := false, pending := map[],
       futs := seq(|t.futs|, f requires 0 <= f < |t.futs| =>
         if t.futs[f].Waiting? && IsPendingFuture(t, f) then Failed else t.futs[f]))
  }

  class HalBridge {
    var connected: bool
    var readerNextId: nat
    var readerPending: map<nat, nat>
    var futs: seq<Future>
    var readerState: Option<Msg>

    constructor ()
      ensures View() == EMPTY_TABLE
    {
      connected, readerNextId, readerPending, futs, readerState := false, 0, map[], [], None;
    }

    function View(): Table
      reads this
    {
      Table(connected, readerNextId, readerPending, futs, readerState)
    }

    /** The locked section of a request; None when no reader is connected. */
    method Register() returns (id: Option<nat>)
      modifies this
      ensures !old(connected) ==> id == None && View() == old(View())
      ensures old(connected) ==> id == Some(old(readerNextId) + 1) && View() == Registered(old(View()))
    {
      if !connected { return None; }
      readerNextId := readerNextId + 1;
      readerPending := readerPending[readerNextId := |futs|];
      futs := futs + [Waiting];
      return Some(readerNextId);
    }

    method PopPending(id: nat)
      modifies this
      ensures View() == Popped(old(View()), id)
    {
      readerPending := readerPending - {id};
    }

    method OnMessage(m: Msg)
      modifies this
      ensures View() == Dispatched(old(View()), m)
    {
      match m {
        case Snapshot(_) =>
          readerState := Some(m);
        case Reply(id, _) =>
          if id in readerPending {
            var f := readerPending[id];
            readerPending := readerPending - {id};
            if f < |futs| && futs[f].Waiting? {
              futs := futs[f := Resolved(m)];
            }
          }
      }
    }

    method OnDisconnect()
      modifies this
      ensures View() == Cleaned(old(View()))
    {
      connected := false;
      var todo := readerPending.Keys;
      ghost var was := futs;
      while todo != {}
        invariant todo <= readerPending.Keys && |futs| == |was|
        invariant unchanged(`connected) || !connected
        invariant !connected && readerPending == old(readerPending) && readerNextId == old(readerNextId)
        invariant readerState == old(readerState)
        invariant forall f :: 0 <= f < |futs| ==>
          futs[f] == if was[f].Waiting? && (exists id :: id in readerPending && id !in todo && readerPending[id] == f)
                     then Failed else was[f]
        decreases todo
      {
        var id :| id in todo;
        todo := todo - {id};
        var f := readerPending[id];
        if f < |futs| && futs[f].Waiting? {
          futs := futs[f := Failed];
        }
      }
      readerPending := map[];
    }
  }

  // ---- callers and connection ----

  datatype Phase = Draining | Awaiting | TimedOut | Raised | Returned(reply: Msg)
  datatype Request = Request(fut: nat, phase: Phase)
  datatype Stage = Down | Reading | Closing

  datatype Sys = Sys(t: Table, reqs: map<nat, Request>, stage: Stage)

  datatype Event =
    | Connect
    | SocketEnds
    | Cleanup
    | Incoming(m: Msg)
    | Ask
    | DrainOk(id: nat)
    | DrainFails(id: nat)
    | TimerFires(id: nat)
    | TimeoutHandled(id: nat)
    | Wake(id: nat)

  const START := Sys(EMPTY_TABLE, map[], Down)

  function In(s: Sys, id: nat, phase: Phase): bool { id in s.reqs && s.reqs[id].phase == phase }

  function FutureOf(s: Sys, id: nat): Future
    requires id in s.reqs
  {
    if s.reqs[id].fut < |s.t.futs| then s.t.futs[s.reqs[id].fut] else Waiting
  }

  function Move(s: Sys, id: nat, phase: Phase): map<nat, Request>
    requires id in s.reqs
  {
    s.reqs[id := s.reqs[id].(phase := phase)]
  }

  function Step(s: Sys, e: Event): Sys {
    match e
    case Connect => if s.stage.Down? then s.(stage := Reading, t := s.t.(connected := true)) else s
    case SocketEnds => if s.stage.Reading? then s.(stage := Closing) else s
    case Cleanup => if s.stage.Closing? then s.(stage := Down, t := Cleaned(s.t)) else s
    case Incoming(m) => if s.stage.Reading? then s.(t := Dispatched(s.t, m)) else s
    case Ask =>
      if s.t.connected then
        s.(t := Registered(s.t), reqs := s.reqs[s.t.nextId + 1 := Request(|s.t.futs|, Draining)])
      else s
    case DrainOk(id) => if In(s, id, Draining) then s.(reqs := Move(s, id, Awaiting)) else s
    case DrainFails(id) =>
      if In(s, id, Draining) then s.(t := Popped(s.t, id), reqs := Move(s, id, Raised)) else s
    case TimerFires(id) =>
      if In(s, id, Awaiting)
      then s.(t := Completed(s.t, s.reqs[id].fut, Cancelled), reqs := Move(s, id, TimedOut)) else s
    case TimeoutHandled(id) =>
      if In(s, id, TimedOut) then s.(t := Popped(s.t, id), reqs := Move(s, id, Raised)) else s
    case Wake(id) =>
      if In(s, id, Awaiting) && FutureOf(s, id).Resolved?
      then s.(reqs := Move(s, id, Returned(FutureOf(s, id).reply)))
      else if In(s, id, Awaiting) && FutureOf(s, id).Failed?
      then s.(reqs := Move(s, id, Raised))
      else s
  }

  function Run(events: seq<Event>): Sys {
    if events == [] then START else Step(Run(events[..|events| - 1]), events[|events| - 1])
  }

  // ---- the invariant ----

  ghost predicate Open(p: Phase) { p.Draining? || p.Awaiting? }

  /** A future, and a caller, only ever get the reply with the request's own id;
      nobody is left waiting outside the table. */
  ghost predicate RequestOk(t: Table, id: nat, r: Request) {
    && 0 < id <= t.nextId && r.fut < |t.futs|
    && (Open(r.phase) && t.futs[r.fut].Waiting? ==> id in t.pending)
    && (t.futs[r.fut].Resolved? ==> t.futs[r.fut].reply.Reply? && t.futs[r.fut].reply.id == id)
    && (r.phase.Returned? ==> r.phase.reply.Reply? && r.phase.reply.id == id)
  }

  ghost predicate Distinct(reqs: map<nat, Request>) {
    forall a, b :: a in reqs && b in reqs && a != b ==> reqs[a].fut != reqs[b].fut
  }

  ghost predicate Listed(pending: map<nat, nat>, reqs: map<nat, Request>) {
    forall id :: id in pending ==> id in reqs && pending[id] == reqs[id].fut
  }

  ghost predicate AllOk(t: Table, reqs: map<nat, Request>) {
    forall id :: id in reqs ==> RequestOk(t, id, reqs[id])
  }

  ghost predicate Inv(s: Sys) {
    && (s.t.connected <==> !s.stage.Down?)
    && (s.stage.Down? ==> s.t.pending == map[])
    && Distinct(s.reqs) && Listed(s.t.pending, s.reqs) && AllOk(s.t, s.reqs)
  }

  lemma CleanupKeepsInv(s: Sys)
    requires Inv(s) && s.stage.Closing?
    ensures Inv(Step(s, Cleanup))
  {
    var t := Cleaned(s.t);
    forall id | id in s.reqs ensures RequestOk(t, id, s.reqs[id]) {
      assert RequestOk(s.t, id, s.reqs[id]);
      if id in s.t.pending {
        assert IsPendingFuture(s.t, s.t.pending[id]);
      }
    }
  }

  lemma AskKeepsInv(s: Sys)
    requires Inv(s) && s.t.connected
    ensures Inv(Step(s, Ask))
  {
    var t, id := Registered(s.t), s.t.nextId + 1;
    var r := Request(|s.t.futs|, Draining);
    forall o | o in s.reqs ensures RequestOk(t, o, s.reqs[o]) && s.reqs[o].fut != r.fut {
      assert RequestOk(s.t, o, s.reqs[o]);
    }
    assert RequestOk(t, id, r);
    assert AllOk(t, s.reqs[id := r]);
  }

  lemma IncomingKeepsInv(s: Sys, m: Msg)
    requires Inv(s)
    ensures Distinct(s.reqs) && Listed(Dispatched(s.t, m).pending, s.reqs) && AllOk(Dispatched(s.t, m), s.reqs)
  {
    var t := Dispatched(s.t, m);
    forall o | o in s.reqs ensures RequestOk(t, o, s.reqs[o]) {
      assert RequestOk(s.t, o, s.reqs[o]);
      if m.Reply? && m.id in s.t.pending && o != m.id {
        assert s.reqs[o].fut != s.reqs[m.id].fut;
      }
    }
  }

  /** Finishing the future of one request, or taking its id out of the table once it
      is no longer open, leaves every request in order. */
  lemma PhaseChangeKeepsInv(s: Sys, id: nat, t: Table, phase: Phase)
    requires Inv(s) && id in s.reqs
    requires t.nextId == s.t.nextId && t.connected == s.t.connected
    requires t.pending == s.t.pending || (t.pending == s.t.pending - {id} && !Open(phase))
    requires t.futs == s.t.futs || (s.reqs[id].fut < |s.t.futs| && t.futs == s.t.futs[s.reqs[id].fut := Cancelled])
    requires Open(phase) ==> Open(s.reqs[id].phase)
    requires phase.Returned? ==> phase.reply.Reply? && phase.reply.id == id
    ensures Inv(s.(t := t, reqs := Move(s, id, phase)))
  {
    var reqs := Move(s, id, phase);
    forall o | o in reqs ensures RequestOk(t, o, reqs[o]) {
      assert RequestOk(s.t, o, s.reqs[o]);
      if o != id {
        assert s.reqs[o].fut != s.reqs[id].fut;
      }
    }
    forall a, b | a in reqs && b in reqs && a != b ensures reqs[a].fut != reqs[b].fut {
      assert s.reqs[a].fut != s.reqs[b].fut;
    }
  }

  lemma StepKeepsInv(s: Sys, e: Event)
    requires Inv(s)
    ensures Inv(Step(s, e))
  {
    match e
    case Connect => assert AllOk(Step(s, e).t, s.reqs) by {
      forall o | o in s.reqs ensures RequestOk(Step(s, e).t, o, s.reqs[o]) { assert RequestOk(s.t, o, s.reqs[o]); }
    }
    case SocketEnds =>
    case Cleanup => if s.stage.Closing? { CleanupKeepsInv(s); }
    case Incoming(m) => IncomingKeepsInv(s, m);
    case Ask => if s.t.connected { AskKeepsInv(s); }
    case DrainOk(id) => if In(s, id, Draining) { PhaseChangeKeepsInv(s, id, s.t, Awaiting); }
    case DrainFails(id) => if In(s, id, Draining) { PhaseChangeKeepsInv(s, id, Popped(s.t, id), Raised); }
    case TimerFires(id) =>
      if In(s, id, Awaiting) {
        PhaseChangeKeepsInv(s, id, Completed(s.t, s.reqs[id].fut, Cancelled), TimedOut);
      }
    case TimeoutHandled(id) => if In(s, id, TimedOut) { PhaseChangeKeepsInv(s, id, Popped(s.t, id), Raised); }
    case Wake(id) =>
      if In(s, id, Awaiting) {
        assert RequestOk(s.t, id, s.reqs[id]);
        if FutureOf(s, id).Resolved? {
          PhaseChangeKeepsInv(s, id, s.t, Returned(FutureOf(s, id).reply));
        } else if FutureOf(s, id).Failed? {
          PhaseChangeKeepsInv(s, id, s.t, Raised);
        }
      }
  }

  lemma {:induction false} AlwaysInv(events: seq<Event>)
    ensures Inv(Run(events))
  {
    if events != [] {
      AlwaysInv(events[..|events| - 1]);
      StepKeepsInv(Run(events[..|events| - 1]), events[|events| - 1]);
    }
  }

  // ---- what every run guarantees ----

  ghost predicate KeepsFuture(t: Table, n: Table, f: nat) {
    f < |t.futs| && !t.futs[f].Waiting? ==> f < |n.futs| && n.futs[f] == t.futs[f]
  }

  /** A finished future never changes again, however the run goes on: none is
      completed twice. */
  lemma {:induction false} CompletedOnce(events: seq<Event>, more: seq<Event>, f: nat)
    ensures KeepsFuture(Run(events).t, Run(events + more).t, f)
    decreases |more|
  {
    if more == [] {
      assert events + more == events;
    } else {
      var all, before := events + more, more[..|more| - 1];
      assert all[..|all| - 1] == events + before;
      CompletedOnce(events, before, f);
    }
  }

  /** Ids are never reused: a new request's id is above every id ever given out. */
  lemma {:induction false} IdsAreFresh(events: seq<Event>)
    ensures var s := Run(events);
            s.t.connected ==> s.t.nextId + 1 !in s.reqs && s.t.nextId + 1 in Step(s, Ask).reqs
    ensures forall id :: id in Run(events).reqs ==> id <= Run(events).t.nextId
  {
    AlwaysInv(events);
    var s := Run(events);
    forall id | id in s.reqs ensures id <= s.t.nextId {
      assert RequestOk(s.t, id, s.reqs[id]);
    }
  }

  /** A request only ever returns the reply that bears its own id. */
  lemma {:induction false} ReplyIsOwn(events: seq<Event>, id: nat)
    ensures var s := Run(events);
            id in s.reqs && s.reqs[id].phase.Returned? ==> s.reqs[id].phase.reply.Reply? && s.reqs[id].phase.reply.id == id
  {
    AlwaysInv(events);
    var s := Run(events);
    if id in s.reqs {
      assert RequestOk(s.t, id, s.reqs[id]);
    }
  }

  /** A disconnect empties the table and leaves no caller waiting: every request
      still open has a finished future, failed if it was unfinished. */
  lemma {:induction false} DisconnectFailsAll(events: seq<Event>)
    requires Run(events).stage.Closing?
    ensures var s := Run(events);
            var n := Step(s, Cleanup);
            && n.t.pending == map[] && !n.t.connected
            && forall id :: id in n.reqs && Open(n.reqs[id].phase) ==>
                 !FutureOf(n, id).Waiting? && (FutureOf(s, id).Waiting? ==> FutureOf(n, id).Failed?)
  {
    AlwaysInv(events);
    var s := Run(events);
    var n := Step(s, Cleanup);
    forall id | id in n.reqs && Open(n.reqs[id].phase)
      ensures !FutureOf(n, id).Waiting? && (FutureOf(s, id).Waiting? ==> FutureOf(n, id).Failed?)
    {
      assert RequestOk(s.t, id, s.reqs[id]);
      if id in s.t.pending {
        assert IsPendingFuture(s.t, s.t.pending[id]);
      }
    }
  }

  /** While a request waits on an unfinished future, a reply with its id finishes it. */
  lemma {:induction false} ReplyReaches(events: seq<Event>, id: nat, body: int)
    requires var s := Run(events);
             s.stage.Reading? && id in s.reqs && Open(s.reqs[id].phase) && FutureOf(s, id).Waiting?
    ensures var n := Step(Run(events), Incoming(Reply(id, body)));
            id in n.reqs && FutureOf(n, id) == Resolved(Reply(id, body)) && id !in n.t.pending
  {
    AlwaysInv(events);
    assert RequestOk(Run(events).t, id, Run(events).reqs[id]);
  }

  /** The snapshots received: what came in while the reader was connected. */
  function Snapshots(events: seq<Event>): seq<Msg> {
    if events == [] then []
    else
      var before, e := events[..|events| - 1], events[|events| - 1];
      Snapshots(before) +
      if e.Incoming? && e.m.Snapshot? && Run(before).stage.Reading? then [e.m] else []
  }

  /** The state is the last snapshot received, across disconnects too. */
  lemma {:induction false} StateIsLastSnapshot(events: seq<Event>)
    ensures var seen := Snapshots(events);
            Run(events).t.state == if seen == [] then None else Some(seen[|seen| - 1])
  {
    if events != [] {
      StateIsLastSnapshot(events[..|events| - 1]);
    }
  }

  /** A request that has raised or returned is not left in the table. */
  ghost predicate NoneLeft(s: Sys) {
    forall id :: id in s.t.pending ==> id in s.reqs && !s.reqs[id].phase.Raised? && !s.reqs[id].phase.Returned?
  }

  lemma NoneLeftStep(s: Sys, e: Event)
    requires Inv(s) && NoneLeft(s) && ResolvedIsGone(s)
    ensures NoneLeft(Step(s, e))
  {
    if e.Wake? && e.id in s.reqs {
      assert RequestOk(s.t, e.id, s.reqs[e.id]);
    }
  }

  /** A finished future's request is out of the table, unless it was a timeout that did it. */
  ghost predicate GoneOk(t: Table, r: Request) {
    r.fut < |t.futs| && (t.futs[r.fut].Waiting? || r.phase.TimedOut?)
  }

  ghost predicate ResolvedIsGone(s: Sys) {
    forall id :: id in s.t.pending ==> id in s.reqs && GoneOk(s.t, s.reqs[id])
  }

  lemma IncomingLeavesGone(s: Sys, m: Msg)
    requires Inv(s) && ResolvedIsGone(s)
    ensures ResolvedIsGone(s.(t := Dispatched(s.t, m)))
  {
    forall id | id in Dispatched(s.t, m).pending ensures GoneOk(Dispatched(s.t, m), s.reqs[id]) {
      assert GoneOk(s.t, s.reqs[id]);
      if m.Reply? && m.id in s.t.pending {
        assert id != m.id && s.reqs[id].fut != s.reqs[m.id].fut;
      }
    }
  }

  lemma AskLeavesGone(s: Sys)
    requires Inv(s) && ResolvedIsGone(s) && s.t.connected
    ensures ResolvedIsGone(Step(s, Ask))
  {
    var n := Step(s, Ask);
    forall id | id in n.t.pending ensures id in n.reqs && GoneOk(n.t, n.reqs[id]) {
      if id != s.t.nextId + 1 {
        assert GoneOk(s.t, s.reqs[id]);
      }
    }
  }

  lemma PhaseChangeLeavesGone(s: Sys, id: nat, t: Table, phase: Phase)
    requires Inv(s) && ResolvedIsGone(s) && id in s.reqs && RequestOk(s.t, id, s.reqs[id])
    requires t.pending == s.t.pending || t.pending == s.t.pending - {id}
    requires t.futs == s.t.futs || t.futs == s.t.futs[s.reqs[id].fut := Cancelled]
    requires id in t.pending ==> GoneOk(t, s.reqs[id].(phase := phase))
    ensures ResolvedIsGone(s.(t := t, reqs := Move(s, id, phase)))
  {
    var reqs := Move(s, id, phase);
    forall o | o in t.pending ensures o in reqs && GoneOk(t, reqs[o]) {
      assert GoneOk(s.t, s.reqs[o]);
      if o != id {
        assert s.reqs[o].fut != s.reqs[id].fut;
      }
    }
  }

  lemma ResolvedIsGoneStep(s: Sys, e: Event)
    requires Inv(s) && ResolvedIsGone(s)
    ensures ResolvedIsGone(Step(s, e))
  {
    match e
    case Incoming(m) => if s.stage.Reading? { IncomingLeavesGone(s, m); }
    case Ask => if s.t.connected { AskLeavesGone(s); }
    case DrainOk(id) => if In(s, id, Draining) { PhaseChangeLeavesGone(s, id, s.t, Awaiting); }
    case DrainFails(id) => if In(s, id, Draining) { PhaseChangeLeavesGone(s, id, Popped(s.t, id), Raised); }
    case TimerFires(id) =>
      if In(s, id, Awaiting) {
        assert RequestOk(s.t, id, s.reqs[id]);
        PhaseChangeLeavesGone(s, id, Completed(s.t, s.reqs[id].fut, Cancelled), TimedOut);
      }
    case TimeoutHandled(id) => if In(s, id, TimedOut) { PhaseChangeLeavesGone(s, id, Popped(s.t, id), Raised); }
    case Wake(id) =>
      if In(s, id, Awaiting) {
        assert RequestOk(s.t, id, s.reqs[id]);
        if FutureOf(s, id).Resolved? {
          PhaseChangeLeavesGone(s, id, s.t, Returned(FutureOf(s, id).reply));
        } else if FutureOf(s, id).Failed? {
          PhaseChangeLeavesGone(s, id, s.t, Raised);
        }
      }
    case _ =>
  }

  /** Nothing leaks: over every run each entry of the table belongs to a request that is
      still open or in its timeout. */
  lemma {:induction false} TableHoldsOpenRequests(events: seq<Event>, id: nat)
    ensures var s := Run(events);
            id in s.t.pending ==> id in s.reqs && (Open(s.reqs[id].phase) || s.reqs[id].phase.TimedOut?)
  {
    AlwaysNoneLeft(events);
  }

  lemma {:induction false} AlwaysNoneLeft(events: seq<Event>)
    ensures NoneLeft(Run(events)) && ResolvedIsGone(Run(events))
  {
    if events != [] {
      var before, e := events[..|events| - 1], events[|events| - 1];
      AlwaysNoneLeft(before);
      AlwaysInv(before);
      NoneLeftStep(Run(before), e);
      ResolvedIsGoneStep(Run(before), e);
    }
  }

  // ---- what every request and connection comes to ----

  lemma RunSnoc(events: seq<Event>, e: Event)
    ensures Run(events + [e]) == Step(Run(events), e)
  {
    assert (events + [e])[..|events|] == events;
  }

  /** From every state the end of the socket, its clean-up and a connect lead to a fresh
      connection with an empty table. */
  lemma {:induction false} Reconnects(events: seq<Event>)
    ensures var n := Run(events + [SocketEnds] + [Cleanup] + [Connect]);
            n.stage.Reading? && n.t.connected && (!Run(events).stage.Down? ==> n.t.pending == map[])
  {
    AlwaysInv(events);
    RunSnoc(events, SocketEnds);
    RunSnoc(events + [SocketEnds], Cleanup);
    RunSnoc(events + [SocketEnds] + [Cleanup], Connect);
  }

  /** A request that is written and answered returns its reply. */
  lemma {:induction false} ExchangeReturns(events: seq<Event>, body: int)
    requires Run(events).stage.Reading?
    ensures var id := Run(events).t.nextId + 1;
            In(Run(events + [Ask] + [DrainOk(id)] + [Incoming(Reply(id, body))] + [Wake(id)]), id, Returned(Reply(id, body)))
  {
    AlwaysInv(events);
    var id := Run(events).t.nextId + 1;
    RunSnoc(events, Ask);
    RunSnoc(events + [Ask], DrainOk(id));
    var s := Run(events + [Ask] + [DrainOk(id)]);
    assert s.stage.Reading? && In(s, id, Awaiting) && FutureOf(s, id).Waiting? && s.t.pending[id] == s.reqs[id].fut;
    RunSnoc(events + [Ask] + [DrainOk(id)], Incoming(Reply(id, body)));
    var n := Run(events + [Ask] + [DrainOk(id)] + [Incoming(Reply(id, body))]);
    assert In(n, id, Awaiting) && FutureOf(n, id) == Resolved(Reply(id, body));
    RunSnoc(events + [Ask] + [DrainOk(id)] + [Incoming(Reply(id, body))], Wake(id));
  }

  /** A request that cannot be written raises and leaves the table. */
  lemma {:induction false} FailedWriteRaises(events: seq<Event>, id: nat)
    requires In(Run(events), id, Draining)
    ensures var n := Step(Run(events), DrainFails(id)); In(n, id, Raised) && id !in n.t.pending
  {
  }

  /** A request whose time runs out raises, leaves the table, and its future is finished. */
  lemma {:induction false} TimeoutRaises(events: seq<Event>, id: nat)
    requires In(Run(events), id, Awaiting)
    ensures var n := Step(Step(Run(events), TimerFires(id)), TimeoutHandled(id));
            In(n, id, Raised) && id !in n.t.pending && !FutureOf(n, id).Waiting?
  {
    AlwaysInv(events);
    assert RequestOk(Run(events).t, id, Run(events).reqs[id]);
  }

  /** A waiting request raises once the connection has been cleaned up. */
  lemma {:induction false} LostConnectionRaises(events: seq<Event>, id: nat)
    requires Run(events).stage.Closing? && In(Run(events), id, Awaiting) && FutureOf(Run(events), id).Waiting?
    ensures In(Step(Step(Run(events), Cleanup), Wake(id)), id, Raised)
  {
    DisconnectFailsAll(events);
    var n := Step(Run(events), Cleanup);
    assert id in n.reqs && Open(n.reqs[id].phase) && FutureOf(n, id).Failed?;
  }
}
