/** The server-side program timer: a start anchor, an open pause segment and an
    accumulator of truncated pause segments.  The clock is in exact milliseconds. */
module ProgramTimer {
  import opened Wrappers

  datatype Interp = Idle | Reading | Paused | Waiting

  /** One status poll: interpreter state (None before the first status), the paused flag, the clock. */
  datatype Poll = Poll(interp: Option<Interp>, paused: bool, now: real)

  predicate Active(p: Poll) { p.interp.Some? && !p.interp.value.Idle? }
  predicate IsPaused(p: Poll) { Active(p) && (p.paused || p.interp.value.Paused?) }

  datatype Timer = Timer(start: Option<real>, pauseStart: Option<real>, accum: int, activeLast: bool, pausedLast: bool)

  const IDLE_TIMER := Timer(None, None, 0, false, false)

  /** `int()`: truncation toward zero. */
  function Trunc(x: real): int { if x >= 0.0 then x.Floor else -((-x).Floor) }

  /** The accumulator's four transitions. */
  function Advance(t: Timer, p: Poll): Timer {
    var active, paused := Active(p), IsPaused(p);
    var next :=
      if active && !t.activeLast then
        t.(start := Some(p.now), accum := 0, pauseStart := None)
      else if active && paused && !t.pausedLast then
        t.(pauseStart := Some(p.now))
      else if active && !paused && t.pausedLast && t.pauseStart.Some? then
        t.(accum := t.accum + Trunc(p.now - t.pauseStart.value), pauseStart := None)
      else if !active && t.activeLast && t.pauseStart.None? && t.start.Some? then
        t.(pauseStart := Some(p.now))
      else t;
    next.(activeLast := active, pausedLast := paused)
  }

  function Anchor(t: Timer, now: real): real { if t.pauseStart.Some? then t.pauseStart.value else now }

  /** Elapsed milliseconds before the clamp at zero. */
  function Raw(t: Timer, now: real): int
    requires t.start.Some?
  {
    Trunc(Anchor(t, now) - t.start.value) - t.accum
  }

  function Report(t: Timer, now: real): Option<int> {
    if t.start.None? then None else Some(if Raw(t, now) < 0 then 0 else Raw(t, now))
  }

  class StatusRuntime {
    var startMono: Option<real>
    var pauseStartMono: Option<real>
    var pausedAccumMs: int
    var activeLast: bool
    var pausedLast: bool

    constructor ()
      ensures View() == IDLE_TIMER
    {
      startMono, pauseStartMono, pausedAccumMs, activeLast, pausedLast := None, None, 0, false, false;
    }

    function View(): Timer
      reads this
    {
      Timer(startMono, pauseStartMono, pausedAccumMs, activeLast, pausedLast)
    }

    method UpdateProgramTimer(p: Poll) returns (ms: Option<int>)
      modifies this
      ensures View() == Advance(old(View()), p)
      ensures ms == Report(View(), p.now)
    {
      var active, paused := Active(p), IsPaused(p);
      if active && !activeLast {
        startMono := Some(p.now);
        pausedAccumMs := 0;
        pauseStartMono := None;
      } else if active && paused && !pausedLast {
        pauseStartMono := Some(p.now);
      } else if active && !paused && pausedLast && pauseStartMono.Some? {
        pausedAccumMs := pausedAccumMs + Trunc(p.now - pauseStartMono.value);
        pauseStartMono := None;
      } else if !active && activeLast && pauseStartMono.None? && startMono.Some? {
        pauseStartMono := Some(p.now);
      }
      activeLast := active;
      pausedLast := paused;
      if startMono.None? { return None; }
      var anchor := if pauseStartMono.Some? then pauseStartMono.value else p.now;
      var raw := Trunc(anchor - startMono.value) - pausedAccumMs;
      return Some(if raw < 0 then 0 else raw);
    }
  }

  // ---- what really happened, poll by poll ----

  /** Bookkeeping of the current run, independent of the timer: `running` sums the
      gaps that follow polls which saw it running, `lead` those of an initial
      stretch in which it was only ever seen paused, `pauses` the later pause
      segments already resumed and `resumes` their number. */
  datatype Truth = Truth(lastNow: real, active: bool, paused: bool, leading: bool, pauseAt: real,
                         running: real, lead: real, pauses: real, resumes: nat, started: bool)

  const NO_RUN := Truth(0.0, false, false, false, 0.0, 0.0, 0.0, 0.0, 0, false)

  function Observe(h: Truth, p: Poll): Truth {
    var active := p.interp.Some? && p.interp != Some(Idle);
    var paused := active && (p.paused || p.interp == Some(Paused));
    var gap := p.now - h.lastNow;
    if active && !h.active then
      Truth(p.now, true, paused, paused, p.now, 0.0, 0.0, 0.0, 0, true)
    else
      var resumed := h.active && h.paused && !h.leading && active && !paused;
      h.(lastNow := p.now, active := active, paused := paused,
         leading := h.leading && paused,
         pauseAt := if active && paused && !h.paused then p.now else h.pauseAt,
         running := if h.active && !h.paused then h.running + gap else h.running,
         lead := if h.active && h.leading then h.lead + gap else h.lead,
         pauses := if resumed then h.pauses + (p.now - h.pauseAt) else h.pauses,
         resumes := if resumed then h.resumes + 1 else h.resumes)
  }

  datatype Both = Both(timer: Timer, truth: Truth)

  function After(polls: seq<Poll>): Both {
    if polls == [] then Both(IDLE_TIMER, NO_RUN)
    else
      var b := After(polls[..|polls| - 1]);
      Both(Advance(b.timer, polls[|polls| - 1]), Observe(b.truth, polls[|polls| - 1]))
  }

  ghost predicate Clocked(polls: seq<Poll>) {
    forall i, j :: 0 <= i < j < |polls| ==> polls[i].now <= polls[j].now
  }

  /** The timer's fields against the truth. */
  ghost predicate Consistent(t: Timer, h: Truth) {
    && t.activeLast == h.active && t.pausedLast == h.paused
    && t.start.Some? == h.started
    && (h.leading ==> h.paused) && (h.paused ==> h.active) && (h.active ==> h.started)
    && (h.started ==>
          var anchor := Anchor(t, h.lastNow);
          && t.start.value <= anchor <= h.lastNow
          && (h.active ==> (t.pauseStart.Some? <==> h.paused && !h.leading))
          && (!h.active ==> t.pauseStart.Some?)
          && (h.active && h.paused && !h.leading ==> t.pauseStart == Some(h.pauseAt))
          && h.running + h.lead == anchor - t.start.value - h.pauses
          && h.running >= 0.0 && h.lead >= 0.0
          && t.accum as real <= h.pauses
          && h.pauses <= (t.accum + h.resumes) as real
          && (h.resumes > 0 ==> h.pauses < (t.accum + h.resumes) as real))
  }

  lemma TruncBounds(x: real)
    requires x >= 0.0
    ensures Trunc(x) as real <= x < (Trunc(x) + 1) as real
  {
  }

  lemma StartStep(t: Timer, h: Truth, p: Poll)
    requires Consistent(t, h) && Active(p) && !h.active
    ensures Consistent(Advance(t, p), Observe(h, p))
  {
  }

  lemma GoOnStep(t: Timer, h: Truth, p: Poll)
    requires Consistent(t, h) && (h.started ==> h.lastNow <= p.now) && !(Active(p) && !h.active)
    ensures Consistent(Advance(t, p), Observe(h, p))
  {
    if h.active && h.paused && !h.leading && Active(p) && !IsPaused(p) {
      TruncBounds(p.now - h.pauseAt);
    }
  }

  lemma {:induction false} AlwaysConsistent(polls: seq<Poll>)
    requires Clocked(polls)
    ensures var b := After(polls); Consistent(b.timer, b.truth)
    ensures polls != [] ==> After(polls).truth.lastNow == polls[|polls| - 1].now
  {
    if polls != [] {
      var b, p := After(polls[..|polls| - 1]), polls[|polls| - 1];
      AlwaysConsistent(polls[..|polls| - 1]);
      if Active(p) && !b.truth.active {
        StartStep(b.timer, b.truth, p);
      } else {
        if |polls| > 1 { LastIsClocked(polls); }
        GoOnStep(b.timer, b.truth, p);
      }
    }
  }

  lemma LastIsClocked(polls: seq<Poll>)
    requires Clocked(polls) && |polls| > 1
    ensures polls[..|polls| - 1][|polls| - 2].now <= polls[|polls| - 1].now
  {
  }

  /** Accuracy over every poll sequence: the report is within (-1, k] milliseconds of
      the running time plus the leading pause, k being the resumed pauses of the run. */
  lemma {:induction false} ReportAccuracy(polls: seq<Poll>)
    requires Clocked(polls) && polls != []
    ensures var b := After(polls);
            var r := Report(b.timer, polls[|polls| - 1].now);
            && (r.Some? <==> b.truth.started)
            && (r.Some? ==>
                  var counted := b.truth.running + b.truth.lead;
                  counted - 1.0 < r.value as real <= counted + b.truth.resumes as real)
  {
    AlwaysConsistent(polls);
    var b := After(polls);
    if b.truth.started {
      NeverNegative(polls);
      TruncBounds(Anchor(b.timer, b.truth.lastNow) - b.timer.start.value);
    }
  }

  /** The clamp at zero never changes the report. */
  lemma {:induction false} NeverNegative(polls: seq<Poll>)
    requires Clocked(polls) && polls != [] && After(polls).truth.started
    ensures After(polls).timer.start.Some? && Raw(After(polls).timer, polls[|polls| - 1].now) >= 0
  {
    AlwaysConsistent(polls);
    var b := After(polls);
    var span := Anchor(b.timer, b.truth.lastNow) - b.timer.start.value;
    TruncBounds(span);
    assert b.timer.accum as real <= span;
  }

  /** A poll that shows a stretch in which the counted time stands still. */
  ghost predicate StandsStill(h: Truth, p: Poll) {
    !h.active || (h.paused && !h.leading && (IsPaused(p) || !Active(p)))
  }

  /** Within a run the report never goes back; between two paused or two idle polls,
      and from paused to idle, it stands still. */
  lemma {:induction false} ReportMonotone(polls: seq<Poll>, p: Poll)
    requires Clocked(polls) && polls != [] && polls[|polls| - 1].now <= p.now
    requires After(polls).truth.started && (Active(p) ==> After(polls).truth.active)
    ensures var b := After(polls);
            var before := Report(b.timer, polls[|polls| - 1].now);
            var after := Report(Advance(b.timer, p), p.now);
            && before.Some? && after.Some? && before.value <= after.value
            && (StandsStill(b.truth, p) ==> before == after)
  {
    AlwaysConsistent(polls);
  }

  /** A run whose first poll saw it paused never opens a pause segment for that
      stretch: ten seconds paused are reported as ten seconds of running. */
  lemma {:induction false} LeadingPauseIsCounted()
    ensures var polls := [Poll(Some(Paused), true, 0.0), Poll(Some(Paused), true, 10000.0)];
            && Clocked(polls)
            && After(polls).truth.running == 0.0
            && Report(After(polls).timer, 10000.0) == Some(10000)
  {
    var a, b := Poll(Some(Paused), true, 0.0), Poll(Some(Paused), true, 10000.0);
    var polls := [a, b];
    assert polls[..1] == [a] && [a][..0] == [];
    assert After([a]) == Both(Advance(IDLE_TIMER, a), Observe(NO_RUN, a));
    assert After(polls) == Both(Advance(After([a]).timer, b), Observe(After([a]).truth, b));
    assert Trunc(10000.0) == 10000;
  }

  ghost predicate StartsUnpaused(polls: seq<Poll>) {
    forall i :: 0 <= i < |polls| && IsPaused(polls[i]) ==> After(polls[..i]).truth.active
  }

  lemma {:induction false} NoLeadWhenUnpaused(polls: seq<Poll>)
    requires StartsUnpaused(polls)
    ensures !After(polls).truth.leading && After(polls).truth.lead == 0.0
  {
    if polls != [] {
      var before := polls[..|polls| - 1];
      forall i | 0 <= i < |before| && IsPaused(before[i]) ensures After(before[..i]).truth.active {
        assert before[..i] == polls[..i];
      }
      NoLeadWhenUnpaused(before);
    }
  }

  /** When every run is first seen running, the report is the running time to
      within (-1, k] milliseconds. */
  lemma {:induction false} AccurateWhenRunsStartUnpaused(polls: seq<Poll>)
    requires Clocked(polls) && polls != [] && StartsUnpaused(polls)
    ensures var b := After(polls);
            var r := Report(b.timer, polls[|polls| - 1].now);
            r.Some? ==> b.truth.running - 1.0 < r.value as real <= b.truth.running + b.truth.resumes as real
  {
    ReportAccuracy(polls);
    NoLeadWhenUnpaused(polls);
  }

  /** While a run has only been seen paused, the report is that whole stretch, so the
      accuracy bound holds there exactly as long as it is shorter than 1 ms; and a
      leading pause of k + 1 ms or more breaks the bound for the rest of the run. */
  lemma {:induction false} LeadBreaksAccuracy(polls: seq<Poll>)
    requires Clocked(polls) && polls != [] && After(polls).truth.started
    ensures var b := After(polls);
            var r := Report(b.timer, polls[|polls| - 1].now);
            && r.Some?
            && (b.truth.leading ==> (r.value as real <= b.truth.running + b.truth.resumes as real <==> b.truth.lead < 1.0))
            && (b.truth.lead >= b.truth.resumes as real + 1.0 ==> r.value as real > b.truth.running + b.truth.resumes as real)
  {
    ReportAccuracy(polls);
    LeadingHasNotRun(polls);
    var b := After(polls);
    AlwaysConsistent(polls);
    TruncBounds(Anchor(b.timer, b.truth.lastNow) - b.timer.start.value);
  }

  lemma {:induction false} LeadingHasNotRun(polls: seq<Poll>)
    requires Clocked(polls)
    ensures var h := After(polls).truth;
            h.leading ==> h.running == 0.0 && h.resumes == 0 && h.pauses == 0.0
    ensures var b := After(polls); b.truth.leading ==> b.timer.accum == 0
  {
    if polls != [] {
      LeadingHasNotRun(polls[..|polls| - 1]);
      AlwaysConsistent(polls[..|polls| - 1]);
    }
  }

  // ---- the exact condition, seen at the first poll of a run ----

  /** Poll k starts a run, and no later poll starts another. */
  ghost predicate OneRunFrom(polls: seq<Poll>, k: nat) {
    && k < |polls| && Active(polls[k]) && (k > 0 ==> !Active(polls[k - 1]))
    && forall i :: k < i < |polls| && Active(polls[i]) ==> Active(polls[i - 1])
  }

  lemma {:induction false} LastPollSeen(polls: seq<Poll>)
    ensures After(polls).truth.active <==> polls != [] && Active(polls[|polls| - 1])
  {
    if polls != [] {
      LastPollSeen(polls[..|polls| - 1]);
    }
  }

  lemma {:induction false} RunningRunHasNoLead(polls: seq<Poll>, k: nat)
    requires OneRunFrom(polls, k) && !IsPaused(polls[k])
    ensures var h := After(polls).truth; h.started && !h.leading && h.lead == 0.0
  {
    var before := polls[..|polls| - 1];
    LastPollSeen(before);
    if k < |before| {
      RunningRunHasNoLead(before, k);
    }
  }

  ghost predicate AccurateAfter(polls: seq<Poll>, more: seq<Poll>)
    requires polls != []
  {
    var b, now := After(polls + more), (polls + more)[|polls + more| - 1].now;
    Clocked(polls + more) && OneRunFrom(polls + more, |polls| - 1) ==>
      var r := Report(b.timer, now);
      r.Some? && b.truth.running - 1.0 < r.value as real <= b.truth.running + b.truth.resumes as real
  }

  lemma AfterSnoc(polls: seq<Poll>, p: Poll)
    ensures After(polls + [p]) == Both(Advance(After(polls).timer, p), Observe(After(polls).truth, p))
  {
    assert (polls + [p])[..|polls|] == polls;
  }

  lemma StartsPaused(polls: seq<Poll>)
    requires polls != [] && OneRunFrom(polls, |polls| - 1) && IsPaused(polls[|polls| - 1])
    ensures var h := After(polls).truth;
            h.active && h.started && h.leading && h.lead == 0.0 && h.resumes == 0 && h.lastNow == polls[|polls| - 1].now
  {
    LastPollSeen(polls[..|polls| - 1]);
  }

  lemma StillPaused(h: Truth, p: Poll)
    requires h.active && h.started && h.leading && h.lead == 0.0 && h.resumes == 0 && IsPaused(p)
    ensures var n := Observe(h, p); n.started && n.lead == p.now - h.lastNow && n.resumes == 0
  {
  }

  lemma OneMoreAllowed(polls: seq<Poll>, p: Poll)
    requires Clocked(polls) && polls != [] && OneRunFrom(polls, |polls| - 1) && polls[|polls| - 1].now <= p.now
    ensures Clocked(polls + [p]) && OneRunFrom(polls + [p], |polls| - 1)
  {
  }

  /** One more paused poll a second later shows a second that did not run. */
  lemma PausedStartMisreports(polls: seq<Poll>)
    requires Clocked(polls) && polls != [] && OneRunFrom(polls, |polls| - 1) && IsPaused(polls[|polls| - 1])
    ensures exists more :: !AccurateAfter(polls, more)
  {
    var late := Poll(Some(Paused), true, polls[|polls| - 1].now + 1000.0);
    AfterSnoc(polls, late);
    StartsPaused(polls);
    StillPaused(After(polls).truth, late);
    OneMoreAllowed(polls, late);
    LeadBreaksAccuracy(polls + [late]);
    assert !AccurateAfter(polls, [late]);
  }

  /** At the poll that starts a run: the report stays within (-1, k] milliseconds of the
      running time however the run goes on if and only if that poll does not see it
      paused. */
  lemma {:induction false} FirstPollDecidesAccuracy(polls: seq<Poll>)
    requires Clocked(polls) && polls != [] && OneRunFrom(polls, |polls| - 1)
    ensures (forall more :: AccurateAfter(polls, more)) <==> !IsPaused(polls[|polls| - 1])
  {
    var k := |polls| - 1;
    if IsPaused(polls[k]) {
      PausedStartMisreports(polls);
    } else {
      forall more ensures AccurateAfter(polls, more) {
        if Clocked(polls + more) && OneRunFrom(polls + more, k) {
          RunningRunHasNoLead(polls + more, k);
          ReportAccuracy(polls + more);
        }
      }
    }
  }
}
