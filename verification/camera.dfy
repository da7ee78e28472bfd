/** The camera broker's lifecycle: one producer for any number of viewers, a grace
    timer, and a teardown that must not race a new viewer.  Steps are the sections
    between awaits; viewers, timers and stop tasks are unboundedly many. */
module Camera {
  import opened Wrappers

  /** Who is inside the broker's lock, and at which await. */
  datatype Lock = Unlocked | Initing | Cancelling | Releasing

  /** The broker's fields; `cancelled` when its task ended by being cancelled from outside,
      where a task that ended otherwise has failed; then its surroundings: producers still
      running, timers scheduled, stop tasks waiting for the lock, viewers that hold a slot,
      and slots lost: to a device init that raised, or to a viewer abandoned before its
      stream began. */
  datatype Broker = Broker(subs: nat, task: Option<nat>, cancelled: bool, handle: Option<nat>, lock: Lock,
                           running: set<nat>, timers: set<nat>, stops: set<nat>,
                           viewers: nat, lost: nat, closed: bool, nextId: nat)

  const IDLE := Broker(0, None, false, None, Unlocked, {}, {}, {}, 0, 0, false, 0)

  datatype InitResult = Available | Unavailable | Raises

  /** `TasksCancelled`: the gateway cancels its background tasks, the producer and the
      waiting stop tasks among them, as it does before it closes the broker. */
  datatype Event =
    | Subscribe
    | InitDone(r: InitResult)
    | Unsubscribe
    | Abandoned
    | TimerFires(t: nat)
    | GraceStop(t: nat)
    | ProducerCancelled
    | ProducerCrashes(p: nat)
    | TasksCancelled
    | ReleaseDone
    | Close

  predicate HasProducer(s: Broker) { s.task.Some? && s.task.value in s.running }

  function CancelHandle(s: Broker): Broker {
    if s.handle.Some? then s.(timers := s.timers - {s.handle.value}, handle := None) else s
  }

  predicate HasFailed(s: Broker) { s.task.Some? && !HasProducer(s) && !s.cancelled }

  /** Teardown up to its first suspension: awaiting a producer that failed raises, awaiting
      one that was cancelled does not. */
  function Teardown(s: Broker): Broker {
    if HasProducer(s) then s.(lock := Cancelling)
    else if HasFailed(s) then s.(lock := Unlocked)
    else s.(task := None, cancelled := false, lock := Releasing)
  }

  function OnSubscribe(s: Broker): Broker {
    var n := CancelHandle(s);
    if HasProducer(s) then n.(subs := s.subs + 1, viewers := s.viewers + 1)
    else n.(subs := s.subs + 1, lock := Initing)
  }

  function OnInitDone(s: Broker, r: InitResult): Broker {
    match r
    case Available =>
      s.(task := Some(s.nextId), cancelled := false, running := s.running + {s.nextId}, nextId := s.nextId + 1,
         viewers := s.viewers + 1, lock := Unlocked)
    case Unavailable => s.(subs := if s.subs == 0 then 0 else s.subs - 1, lock := Unlocked)
    case Raises => s.(lost := s.lost + 1, lock := Unlocked)
  }

  function OnUnsubscribe(s: Broker): Broker {
    var subs := if s.subs == 0 then 0 else s.subs - 1;
    var n := s.(subs := subs, viewers := if s.viewers == 0 then 0 else s.viewers - 1);
    if subs == 0 && s.task.Some? && s.handle.None?
    then n.(handle := Some(s.nextId), timers := s.timers + {s.nextId}, nextId := s.nextId + 1)
    else n
  }

  function OnGraceStop(s: Broker, t: nat): Broker {
    var n := s.(stops := s.stops - {t}, handle := None);
    if s.subs > 0 then n else Teardown(n)
  }

  function OnTasksCancelled(s: Broker): Broker {
    var n := s.(stops := {});
    if !HasProducer(s) then n
    else if s.lock.Cancelling? then n.(running := s.running - {s.task.value}, task := None, lock := Releasing)
    else n.(running := s.running - {s.task.value}, cancelled := true)
  }

  function Step(s: Broker, e: Event): Broker {
    match e
    case Subscribe => if s.lock.Unlocked? && !s.closed then OnSubscribe(s) else s
    case InitDone(r) => if s.lock.Initing? then OnInitDone(s, r) else s
    case Unsubscribe => if s.viewers > 0 then OnUnsubscribe(s) else s
    case Abandoned => if s.viewers > 0 then s.(viewers := s.viewers - 1, lost := s.lost + 1) else s
    case TimerFires(t) => if t in s.timers then s.(timers := s.timers - {t}, stops := s.stops + {t}) else s
    case GraceStop(t) => if t in s.stops && s.lock.Unlocked? then OnGraceStop(s, t) else s
    case ProducerCancelled =>
      if s.lock.Cancelling? && HasProducer(s)
      then s.(running := s.running - {s.task.value}, task := None, lock := Releasing) else s
    case ProducerCrashes(p) =>
      if p !in s.running then s
      else s.(running := s.running - {p}, lock := if s.lock.Cancelling? && s.task == Some(p) then Unlocked else s.lock)
    case TasksCancelled => OnTasksCancelled(s)
    case ReleaseDone => if s.lock.Releasing? then s.(lock := Unlocked) else s
    case Close =>
      if s.lock.Unlocked? then Teardown(CancelHandle(s).(subs := 0, closed := true)) else s
  }

  function Run(s: Broker, events: seq<Event>): Broker {
    if events == [] then s else Step(Run(s, events[..|events| - 1]), events[|events| - 1])
  }

  class CameraBroker {
    var subscribers: nat
    var task: Option<nat>
    var cancelled: bool
    var stopHandle: Option<nat>
    var lock: Lock
    var running: set<nat>
    var timers: set<nat>
    var stops: set<nat>
    var viewers: nat
    var lost: nat
    var closed: bool
    var nextId: nat

    constructor ()
      ensures View() == IDLE
    {
      subscribers, task, cancelled, stopHandle, lock := 0, None, false, None, Unlocked;
      running, timers, stops, viewers, lost, closed, nextId := {}, {}, {}, 0, 0, false, 0;
    }

    function View(): Broker
      reads this
    {
      Broker(subscribers, task, cancelled, stopHandle, lock, running, timers, stops, viewers, lost, closed, nextId)
    }

    method DropHandle()
      modifies this
      ensures View() == CancelHandle(old(View()))
    {
      if stopHandle.Some? {
        timers := timers - {stopHandle.value};
        stopHandle := None;
      }
    }

    /** Under the lock; `pending` when the device still has to be opened. */
    method Subscribe() returns (pending: bool)
      requires lock == Unlocked && !closed
      modifies this
      ensures View() == Step(old(View()), Event.Subscribe)
      ensures pending <==> lock == Initing
    {
      DropHandle();
      subscribers := subscribers + 1;
      pending := task.None? || task.value !in running;
      if pending {
        lock := Initing;
      } else {
        viewers := viewers + 1;
      }
    }

    method Initialised(r: InitResult) returns (ok: bool)
      requires lock == Initing
      modifies this
      ensures View() == Step(old(View()), InitDone(r))
      ensures ok <==> r == Available
    {
      ok := r == Available;
      lock := Unlocked;
      match r {
        case Unavailable =>
          subscribers := if subscribers == 0 then 0 else subscribers - 1;
        case Raises =>
          lost := lost + 1;
        case Available =>
          task, cancelled, running, nextId := Some(nextId), false, running + {nextId}, nextId + 1;
          viewers := viewers + 1;
      }
    }

    method Unsubscribe()
      modifies this
      ensures View() == OnUnsubscribe(old(View()))
    {
      viewers := if viewers == 0 then 0 else viewers - 1;
      subscribers := if subscribers == 0 then 0 else subscribers - 1;
      if subscribers == 0 && task.Some? && stopHandle.None? {
        stopHandle, timers, nextId := Some(nextId), timers + {nextId}, nextId + 1;
      }
    }

    method GraceStop(t: nat)
      requires t in stops && lock == Unlocked
      modifies this
      ensures View() == Step(old(View()), Event.GraceStop(t))
    {
      stops := stops - {t};
      stopHandle := None;
      if subscribers > 0 { return; }
      BeginTeardown();
    }

    method Aclose()
      requires lock == Unlocked
      modifies this
      ensures View() == Step(old(View()), Close)
    {
      DropHandle();
      subscribers, closed := 0, true;
      BeginTeardown();
    }

    method BeginTeardown()
      requires lock == Unlocked
      modifies this`lock, this`task, this`cancelled
      ensures View() == Teardown(old(View()))
    {
      if task.Some? {
        if task.value in running {
          lock := Cancelling;
          return;
        }
        if !cancelled { return; }
      }
      task, cancelled, lock := None, false, Releasing;
    }
  }

  // ---- the invariant ----

  ghost predicate StopPending(s: Broker) {
    s.timers != {} || s.stops != {} || s.lock.Cancelling? || s.lock.Releasing?
  }

  ghost predicate Inv(s: Broker) {
    && (forall p :: p in s.running ==> s.task == Some(p))
    && (s.lock.Initing? ==> s.running == {} && s.handle == None)
    && (s.lock.Releasing? ==> s.task == None)
    && (s.lock.Cancelling? ==> HasProducer(s))
    && (s.lock.Cancelling? || s.lock.Releasing? ==> s.subs == 0)
    && (s.cancelled ==> s.task.Some? && s.running == {})
    && (s.handle.Some? && s.running != {} ==> s.handle.value in s.timers || s.handle.value in s.stops)
    && (if s.closed then s.subs == 0 && !s.lock.Initing?
        else s.subs == s.viewers + s.lost + if s.lock.Initing? then 1 else 0)
    && (s.subs == 0 && s.running != {} ==> StopPending(s))
  }

  lemma StepKeepsInv(s: Broker, e: Event)
    requires Inv(s)
    ensures Inv(Step(s, e))
  {
  }

  lemma {:induction false} AlwaysInv(events: seq<Event>)
    ensures Inv(Run(IDLE, events))
  {
    if events != [] {
      AlwaysInv(events[..|events| - 1]);
      StepKeepsInv(Run(IDLE, events[..|events| - 1]), events[|events| - 1]);
    }
  }

  // ---- main results ----

  /** A new viewer takes the grace timer of the one before with it: none that the handle
      names is left, and the next grace starts a timer of its own. */
  lemma {:induction false} SubscribeStopsTheTimer(events: seq<Event>)
    requires Run(IDLE, events).lock.Unlocked? && !Run(IDLE, events).closed
    ensures var s, n := Run(IDLE, events), Step(Run(IDLE, events), Subscribe);
            && n.handle == None && n.subs == s.subs + 1
            && n.timers == s.timers - (if s.handle.Some? then {s.handle.value} else {})
            && (HasProducer(s) ==> n.lock.Unlocked? && n.viewers == s.viewers + 1)
            && (!HasProducer(s) ==> n.lock.Initing?)
  {
    AlwaysInv(events);
  }

  /** Over every interleaving at most one producer runs, and it is the broker's own. */
  lemma {:induction false} OneProducer(events: seq<Event>, p: nat, q: nat)
    ensures var s := Run(IDLE, events); p in s.running && q in s.running ==> p == q && s.task == Some(p)
  {
    AlwaysInv(events);
  }

  /** While the device is being released nothing runs or opens it, and only the end of
      the release changes that. */
  lemma {:induction false} ReleaseIsExclusive(events: seq<Event>, e: Event)
    requires Run(IDLE, events).lock.Releasing?
    ensures Run(IDLE, events).running == {}
    ensures e != ReleaseDone ==> Step(Run(IDLE, events), e).lock.Releasing? && Step(Run(IDLE, events), e).running == {}
  {
    AlwaysInv(events);
    assert Run(IDLE, events).running == {};
  }

  /** From its start to its end a teardown sees no subscriber; unless it is a shutdown,
      no viewer holds a slot and none was lost. */
  lemma {:induction false} TeardownOnlyWhenEmpty(events: seq<Event>)
    requires Run(IDLE, events).lock.Cancelling? || Run(IDLE, events).lock.Releasing?
    ensures var s := Run(IDLE, events); s.subs == 0 && (!s.closed ==> s.viewers == 0 && s.lost == 0)
  {
    AlwaysInv(events);
  }

  predicate Winding(e: Event) { e.TimerFires? || e.GraceStop? || e.ProducerCancelled? }

  ghost predicate AllWinding(events: seq<Event>) { forall i :: 0 <= i < |events| ==> Winding(events[i]) }

  lemma RunSnoc(s: Broker, events: seq<Event>, e: Event)
    ensures Run(s, events + [e]) == Step(Run(s, events), e)
  {
    assert (events + [e])[..|events|] == events;
  }

  /** One of the pending stops, with its timer fired if need be. */
  lemma FireOne(s: Broker) returns (events: seq<Event>, t: nat)
    requires Inv(s) && (s.timers != {} || s.stops != {})
    ensures AllWinding(events)
    ensures var n := Run(s, events); t in n.stops && n == s.(timers := n.timers, stops := n.stops)
  {
    if s.stops != {} {
      t :| t in s.stops;
      events := [];
    } else {
      t :| t in s.timers;
      RunSnoc(s, [], TimerFires(t));
      events := [] + [TimerFires(t)];
    }
  }

  lemma OnlyProducer(s: Broker)
    requires Inv(s) && s.running != {}
    ensures HasProducer(s) && s.running == {s.task.value}
  {
    var p :| p in s.running;
    assert s.running == {p};
  }

  lemma CancelledEnds(s: Broker)
    requires s.lock.Cancelling? && HasProducer(s) && s.running == {s.task.value}
    ensures var n := Step(s, ProducerCancelled); n.lock.Releasing? && n.running == {}
  {
  }

  lemma StopsByItself(s: Broker) returns (more: seq<Event>)
    requires Inv(s) && s.subs == 0 && s.running != {}
    ensures AllWinding(more) && Run(s, more).lock.Releasing? && Run(s, more).running == {}
  {
    OnlyProducer(s);
    if s.lock.Cancelling? {
      more := [] + [ProducerCancelled];
      RunSnoc(s, [], ProducerCancelled);
      CancelledEnds(s);
    } else {
      var fire, t := FireOne(s);
      more := fire + [GraceStop(t)] + [ProducerCancelled];
      RunSnoc(s, fire, GraceStop(t));
      RunSnoc(s, fire + [GraceStop(t)], ProducerCancelled);
      CancelledEnds(Step(Run(s, fire), GraceStop(t)));
    }
  }

  /** Zero subscribers with a running producer: a stop is pending, and letting the
      pending timer, stop task and cancellation run ends the producer. */
  lemma {:induction false} EmptyMeansStopping(events: seq<Event>) returns (more: seq<Event>)
    requires var s := Run(IDLE, events); s.subs == 0 && s.running != {}
    ensures StopPending(Run(IDLE, events))
    ensures AllWinding(more) && Run(Run(IDLE, events), more).lock.Releasing? && Run(Run(IDLE, events), more).running == {}
  {
    AlwaysInv(events);
    more := StopsByItself(Run(IDLE, events));
  }

  ghost predicate NoneOf(events: seq<Event>, e: Event) { forall i :: 0 <= i < |events| ==> events[i] != e }

  lemma LostSlotStep(s: Broker, e: Event)
    requires Inv(s) && s.lost > 0 && !s.closed && !s.lock.Cancelling? && !s.lock.Releasing? && e != Close
    ensures var n := Step(s, e); n.lost > 0 && !n.closed && !n.lock.Cancelling? && !n.lock.Releasing?
  {
  }

  lemma {:induction false} LostSlotNeverStops(s: Broker, events: seq<Event>)
    requires Inv(s) && s.lost > 0 && !s.closed && NoneOf(events, Close)
    ensures var n := Run(s, events); Inv(n) && n.lost > 0 && !n.closed && !n.lock.Cancelling? && !n.lock.Releasing?
  {
    if events != [] {
      LostSlotNeverStops(s, events[..|events| - 1]);
      StepKeepsInv(Run(s, events[..|events| - 1]), events[|events| - 1]);
      LostSlotStep(Run(s, events[..|events| - 1]), events[|events| - 1]);
    }
  }

  ghost predicate CanStop(s: Broker) {
    exists more :: NoneOf(more, Close) && Run(s, more).lock.Releasing?
  }

  /** Once the last viewer has left a running producer, the device can be released
      without a shutdown exactly when no slot was lost. */
  lemma {:induction false} StopsExactlyWhenNothingLost(events: seq<Event>)
    requires var s := Run(IDLE, events); s.viewers == 0 && s.running != {} && !s.closed
    ensures CanStop(Run(IDLE, events)) <==> Run(IDLE, events).lost == 0
  {
    AlwaysInv(events);
    var s := Run(IDLE, events);
    if s.lost == 0 {
      var more := StopsByItself(s);
      assert NoneOf(more, Close);
    } else {
      forall more | NoneOf(more, Close) ensures !Run(s, more).lock.Releasing? {
        LostSlotNeverStops(s, more);
      }
    }
  }

  lemma FailedStep(s: Broker, e: Event)
    requires s.lock.Unlocked? && HasFailed(s) && e != Subscribe
    ensures Step(s, e).lock.Unlocked? && HasFailed(Step(s, e))
  {
  }

  /** A failed producer stays in the way until a new viewer replaces it. */
  lemma {:induction false} FailedProducerStays(s: Broker, events: seq<Event>)
    requires s.lock.Unlocked? && HasFailed(s) && NoneOf(events, Subscribe)
    ensures var n := Run(s, events); n.lock.Unlocked? && HasFailed(n)
  {
    if events != [] {
      FailedProducerStays(s, events[..|events| - 1]);
      FailedStep(Run(s, events[..|events| - 1]), events[|events| - 1]);
    }
  }

  ghost predicate CanRelease(s: Broker) {
    exists more :: NoneOf(more, Subscribe) && Run(s, more).lock.Releasing?
  }

  lemma CloseReleases(s: Broker)
    requires s.lock.Unlocked? && !HasFailed(s)
    ensures CanRelease(s)
  {
    RunSnoc(s, [], Close);
    assert NoneOf([] + [Close], Subscribe);
    if HasProducer(s) {
      RunSnoc(s, [] + [Close], ProducerCancelled);
      assert NoneOf([] + [Close] + [ProducerCancelled], Subscribe);
    }
  }

  /** From every reachable unlocked state the device can be released, by a shutdown or a
      grace stop, before any new viewer comes, if and only if there is no producer task, or
      it is alive, or it ended by being cancelled: not if it failed. */
  lemma {:induction false} ReleasableExactlyWhenNotFailed(events: seq<Event>)
    requires Run(IDLE, events).lock.Unlocked?
    ensures var s := Run(IDLE, events); CanRelease(s) <==> s.task.None? || HasProducer(s) || s.cancelled
  {
    var s := Run(IDLE, events);
    if HasFailed(s) {
      forall more | NoneOf(more, Subscribe) ensures !Run(s, more).lock.Releasing? {
        FailedProducerStays(s, more);
      }
    } else {
      CloseReleases(s);
    }
  }

  lemma CancelThenClose(s: Broker)
    requires Inv(s) && s.lock.Unlocked?
    ensures var n := Step(Step(s, TasksCancelled), Close);
            && n.running == {} && n.subs == 0 && n.stops == {}
            && (n.lock.Releasing? <==> !HasFailed(s)) && (n.lock.Releasing? ==> n.task == None)
  {
    var a := Step(s, TasksCancelled);
    assert a.running == {} by {
      if s.running != {} { OnlyProducer(s); }
    }
    assert a.lock.Unlocked? && a.stops == {} && (HasFailed(a) <==> HasFailed(s));
  }

  /** The gateway's own shutdown, which cancels the background tasks and then closes the
      broker, is at the release at once, with nothing left running, if and only if the
      producer had not failed before. */
  lemma {:induction false} ShutdownReleasesExactlyWhenNotFailed(events: seq<Event>)
    requires Run(IDLE, events).lock.Unlocked?
    ensures var s, n := Run(IDLE, events), Run(IDLE, events + [TasksCancelled] + [Close]);
            && n.running == {} && n.subs == 0 && n.stops == {}
            && (n.lock.Releasing? <==> !HasFailed(s)) && (n.lock.Releasing? ==> n.task == None)
  {
    AlwaysInv(events);
    var s := Run(IDLE, events);
    RunSnoc(IDLE, events, TasksCancelled);
    RunSnoc(IDLE, events + [TasksCancelled], Close);
    CancelThenClose(s);
  }

  lemma ProducerDies() returns (n: Broker)
    ensures n == Step(Step(Step(IDLE, Subscribe), InitDone(Available)), ProducerCrashes(0))
    ensures n.lock.Unlocked? && HasFailed(n) && n.viewers == 1
  {
    var a := Step(IDLE, Subscribe);
    assert a.lock.Initing? && a.nextId == 0 && a.running == {} && a.viewers == 0;
    var b := Step(a, InitDone(Available));
    assert b.lock.Unlocked? && b.task == Some(0) && !b.cancelled && b.running == {0} && b.viewers == 1;
    n := Step(b, ProducerCrashes(0));
  }

  lemma RunThree(s: Broker, x: Event, y: Event, z: Event)
    ensures Run(s, [x] + [y] + [z]) == Step(Step(Step(s, x), y), z)
  {
    RunSnoc(s, [], x);
    assert [] + [x] == [x];
    RunSnoc(s, [x], y);
    RunSnoc(s, [x] + [y], z);
  }

  /** So a shutdown does not release the device of a producer that failed: this run reaches
      such a state, from which no shutdown or grace stop leads to a release. */
  lemma {:induction false} FailedProducerIsReached()
    ensures var s := Run(IDLE, [Subscribe] + [InitDone(Available)] + [ProducerCrashes(0)]);
            s.lock.Unlocked? && HasFailed(s) && s.viewers == 1 && !CanRelease(s)
  {
    var n := ProducerDies();
    RunThree(IDLE, Subscribe, InitDone(Available), ProducerCrashes(0));
    ReleasableExactlyWhenNotFailed([Subscribe] + [InitDone(Available)] + [ProducerCrashes(0)]);
  }

  // ---- how long the grace lasts ----

  /** No new viewer, no shutdown, and the timer t has not fired. */
  ghost predicate WithinGrace(events: seq<Event>, t: nat) {
    NoneOf(events, Subscribe) && NoneOf(events, Close) && NoneOf(events, TimerFires(t))
  }

  ghost predicate CanBeCutShort(s: Broker, t: nat) {
    exists more :: WithinGrace(more, t) && (Run(s, more).lock.Cancelling? || Run(s, more).lock.Releasing?)
  }

  lemma GraceStep(s: Broker, t: nat, e: Event)
    requires s.lock.Unlocked? && s.viewers == 0 && s.stops == {} && s.timers == {t}
    requires e != Subscribe && e != Close && e != TimerFires(t)
    ensures var n := Step(s, e); n.lock.Unlocked? && n.viewers == 0 && n.stops == {} && n.timers == {t}
  {
  }

  lemma {:induction false} GraceHolds(s: Broker, t: nat, events: seq<Event>)
    requires s.lock.Unlocked? && s.viewers == 0 && s.stops == {} && s.timers == {t} && WithinGrace(events, t)
    ensures var n := Run(s, events); n.lock.Unlocked? && n.viewers == 0 && n.stops == {} && n.timers == {t}
  {
    if events != [] {
      GraceHolds(s, t, events[..|events| - 1]);
      GraceStep(Run(s, events[..|events| - 1]), t, events[|events| - 1]);
    }
  }

  /** An earlier stop tears down at once. */
  lemma EarlierStopCuts(s: Broker, t: nat, x: nat)
    requires s.lock.Unlocked? && s.subs == 0 && HasProducer(s) && x in s.stops
    ensures CanBeCutShort(s, t)
  {
    RunSnoc(s, [], GraceStop(x));
    assert WithinGrace([] + [GraceStop(x)], t);
  }

  lemma EarlierTimerCuts(s: Broker, t: nat, x: nat)
    requires s.lock.Unlocked? && s.subs == 0 && HasProducer(s) && x in s.timers && x != t
    ensures CanBeCutShort(s, t)
  {
    RunSnoc(s, [], TimerFires(x));
    RunSnoc(s, [] + [TimerFires(x)], GraceStop(x));
    assert WithinGrace([] + [TimerFires(x)] + [GraceStop(x)], t);
  }

  lemma LastOneLeaves(s: Broker, t: nat)
    requires Inv(s) && !s.closed && s.handle.None? && Step(s, Unsubscribe).handle == Some(t)
    requires HasProducer(Step(s, Unsubscribe))
    ensures var n := Step(s, Unsubscribe); n.lock.Unlocked? && n.viewers == 0 && n.subs == 0 && t in n.timers
  {
    StepKeepsInv(s, Unsubscribe);
  }

  /** When the last viewer leaves and its grace timer starts, a teardown can begin before
      that timer fires if and only if the stop of an earlier grace is still about: a stop
      task waiting for the lock, or another timer. */
  lemma {:induction false} GraceHeldExactlyWhenAlone(events: seq<Event>, t: nat)
    requires var s, n := Run(IDLE, events), Step(Run(IDLE, events), Unsubscribe);
             !s.closed && s.handle.None? && n.handle == Some(t) && HasProducer(n)
    ensures var n := Step(Run(IDLE, events), Unsubscribe);
            CanBeCutShort(n, t) <==> n.stops != {} || n.timers != {t}
  {
    AlwaysInv(events);
    LastOneLeaves(Run(IDLE, events), t);
    var n := Step(Run(IDLE, events), Unsubscribe);
    if n.stops != {} {
      var x :| x in n.stops;
      EarlierStopCuts(n, t, x);
    } else if n.timers != {t} {
      var x :| x in n.timers && x != t;
      EarlierTimerCuts(n, t, x);
    } else {
      forall more | WithinGrace(more, t)
        ensures !(Run(n, more).lock.Cancelling? || Run(n, more).lock.Releasing?)
      {
        GraceHolds(n, t, more);
      }
    }
  }
}
