/** The camera broker's bookkeeping over whole runs: grace timers that run once, viewers
    that leave, and a lock that always comes free. */
module CameraGrace {
  import opened Wrappers
  import opened Camera

  // ---- every number names one thing, in one place ----

  ghost predicate Numbered(s: Broker) {
    && (forall t :: t in s.timers || t in s.stops || t in s.running ==> t < s.nextId)
    && (s.handle.Some? ==> s.handle.value < s.nextId) && (s.task.Some? ==> s.task.value < s.nextId)
    && s.timers !! s.stops
  }

  lemma NumberedStep(s: Broker, e: Event)
    requires Numbered(s)
    ensures Numbered(Step(s, e)) && s.nextId <= Step(s, e).nextId
  {
  }

  lemma {:induction false} AlwaysNumbered(events: seq<Event>)
    ensures Numbered(Run(IDLE, events))
  {
    if events != [] {
      AlwaysNumbered(events[..|events| - 1]);
      NumberedStep(Run(IDLE, events[..|events| - 1]), events[|events| - 1]);
    }
  }

  predicate Spent(s: Broker, t: nat) { t < s.nextId && t !in s.timers && t !in s.stops }

  lemma SpentStep(s: Broker, t: nat, e: Event)
    requires Numbered(s) && Spent(s, t)
    ensures Spent(Step(s, e), t)
  {
  }

  lemma {:induction false} SpentStays(s: Broker, t: nat, more: seq<Event>)
    requires Numbered(s) && Spent(s, t)
    ensures Numbered(Run(s, more)) && Spent(Run(s, more), t)
  {
    if more != [] {
      SpentStays(s, t, more[..|more| - 1]);
      NumberedStep(Run(s, more[..|more| - 1]), more[|more| - 1]);
      SpentStep(Run(s, more[..|more| - 1]), t, more[|more| - 1]);
    }
  }

  /** A grace timer is scheduled or fired, never both; once its stop task has had the lock
      it never comes back, however the run goes on. */
  lemma {:induction false} StopRunsOnce(events: seq<Event>, t: nat, more: seq<Event>)
    requires t in Run(IDLE, events).stops && Run(IDLE, events).lock.Unlocked?
    ensures t !in Run(IDLE, events).timers
    ensures var n := Run(Step(Run(IDLE, events), GraceStop(t)), more); t !in n.timers && t !in n.stops
  {
    AlwaysNumbered(events);
    NumberedStep(Run(IDLE, events), GraceStop(t));
    SpentStays(Step(Run(IDLE, events), GraceStop(t)), t, more);
  }

  /** The last viewer to leave starts a grace timer of its own, unless one is recorded or
      there is no task; any other viewer starts none. */
  lemma {:induction false} LastLeaverStartsTheGrace(events: seq<Event>)
    requires Run(IDLE, events).viewers > 0 && !Run(IDLE, events).closed
    ensures var s, n := Run(IDLE, events), Step(Run(IDLE, events), Unsubscribe);
            && n.subs == s.subs - 1 && n.viewers == s.viewers - 1
            && (if n.subs == 0 && s.task.Some? && s.handle == None
                then n.handle.Some? && n.handle.value !in s.timers && n.handle.value !in s.stops && n.timers == s.timers + {n.handle.value}
                else n.handle == s.handle && n.timers == s.timers)
  {
    AlwaysInv(events);
    AlwaysNumbered(events);
  }

  // ---- leaving ----

  function Leaves(n: nat): seq<Event> { if n == 0 then [] else Leaves(n - 1) + [Unsubscribe] }

  lemma {:induction false} LeavesOne(s: Broker, n: nat)
    requires Inv(s) && !s.closed && n <= s.viewers && s.running != {}
    ensures var m := Run(s, Leaves(n));
            && Inv(m) && !m.closed && m.viewers == s.viewers - n && m.lost == s.lost && m.running == s.running
            && NoneOf(Leaves(n), Close)
  {
    if n > 0 {
      LeavesOne(s, n - 1);
      StepKeepsInv(Run(s, Leaves(n - 1)), Unsubscribe);
      RunSnoc(s, Leaves(n - 1), Unsubscribe);
    }
  }

  lemma {:induction false} RunConcat(s: Broker, a: seq<Event>, b: seq<Event>)
    ensures Run(s, a + b) == Run(Run(s, a), b)
    decreases |b|
  {
    if b == [] {
      assert a + b == a;
    } else {
      RunConcat(s, a, b[..|b| - 1]);
      assert (a + b)[..|a + b| - 1] == a + b[..|b| - 1];
    }
  }

  /** Once all its viewers have unsubscribed, a running camera can be released without a
      shutdown if and only if no slot was lost. */
  lemma {:induction false} AllLeavingStopsExactlyWhenNothingLost(events: seq<Event>)
    requires Run(IDLE, events).running != {} && !Run(IDLE, events).closed
    ensures var n := Run(IDLE, events + Leaves(Run(IDLE, events).viewers));
            n.viewers == 0 && (CanStop(n) <==> Run(IDLE, events).lost == 0)
  {
    AlwaysInv(events);
    var s := Run(IDLE, events);
    LeavesOne(s, s.viewers);
    RunConcat(IDLE, events, Leaves(s.viewers));
    StopsExactlyWhenNothingLost(events + Leaves(s.viewers));
  }

  /** A stream abandoned before it began keeps the camera on until a shutdown. */
  lemma {:induction false} AbandonedStreamKeepsTheCameraOn(events: seq<Event>)
    requires Run(IDLE, events).viewers > 0 && Run(IDLE, events).lock.Unlocked? && !Run(IDLE, events).closed
    ensures !CanStop(Step(Run(IDLE, events), Abandoned))
  {
    AlwaysInv(events);
    var n := Step(Run(IDLE, events), Abandoned);
    StepKeepsInv(Run(IDLE, events), Abandoned);
    forall more | NoneOf(more, Close) ensures !Run(n, more).lock.Releasing? {
      LostSlotNeverStops(n, more);
    }
  }

  // ---- the lock ----

  predicate Finishing(e: Event) { e.InitDone? || e.ProducerCancelled? || e.ReleaseDone? }

  /** The lock always comes free by what its holder awaits: the end of an open, of the
      cancelled producer and of the release. */
  lemma {:induction false} LockComesFree(events: seq<Event>) returns (more: seq<Event>)
    ensures |more| <= 2 && (forall i :: 0 <= i < |more| ==> Finishing(more[i]))
    ensures Run(Run(IDLE, events), more).lock.Unlocked?
  {
    AlwaysInv(events);
    var s := Run(IDLE, events);
    match s.lock
    case Unlocked => more := [];
    case Initing =>
      more := [] + [InitDone(Unavailable)];
      RunSnoc(s, [], InitDone(Unavailable));
    case Releasing =>
      more := [] + [ReleaseDone];
      RunSnoc(s, [], ReleaseDone);
    case Cancelling =>
      more := [] + [ProducerCancelled] + [ReleaseDone];
      RunSnoc(s, [], ProducerCancelled);
      RunSnoc(s, [] + [ProducerCancelled], ReleaseDone);
  }
}
