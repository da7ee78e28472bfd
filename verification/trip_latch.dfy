/** Deriving the operator's trip banner from polled levels of the HAL latch. */
module TripLatch {
  import opened Wrappers

  /** What the gateway carries from poll to poll. */
  datatype Watch = Watch(last: Option<bool>, baseline: bool)
  datatype Verdict = Verdict(tripped: bool, faultedOnConnect: bool, next: Watch)

  const UNSEEN := Watch(None, false)

  /** One reading: None while the reader has no snapshot, true while latched. */
  function Evaluate(fault: Option<bool>, w: Watch): Verdict {
    match fault
    case None => Verdict(false, false, w)
    case Some(false) => Verdict(false, false, Watch(Some(false), true))
    case Some(true) =>
      var clearBefore := w.last != Some(true);
      Verdict(w.baseline && clearBefore, !w.baseline && clearBefore, Watch(Some(true), w.baseline))
  }

  function After(readings: seq<Option<bool>>): Watch {
    if readings == [] then UNSEEN
    else Evaluate(readings[|readings| - 1], After(readings[..|readings| - 1])).next
  }

  /** The readings with the missing ones erased. */
  function Levels(readings: seq<Option<bool>>): seq<bool> {
    if readings == [] then []
    else
      var before := Levels(readings[..|readings| - 1]);
      var r := readings[|readings| - 1];
      if r.Some? then before + [r.value] else before
  }

  lemma AfterSnoc(readings: seq<Option<bool>>, r: Option<bool>)
    ensures After(readings + [r]) == Evaluate(r, After(readings)).next
  {
    assert (readings + [r])[..|readings|] == readings;
  }

  lemma {:induction false} WatchMeans(readings: seq<Option<bool>>)
    ensures var w, l := After(readings), Levels(readings);
            && w.last == (if l == [] then None else Some(l[|l| - 1]))
            && (w.baseline <==> false in l)
  {
    if readings != [] {
      WatchMeans(readings[..|readings| - 1]);
    }
  }

  /** A trip is flagged exactly at a clear-to-latched transition of the levels, and a
      boot fault exactly when the very first level is already latched. */
  lemma {:induction false} FlaggedExactlyAtTransitions(readings: seq<Option<bool>>, r: Option<bool>)
    ensures var v, l := Evaluate(r, After(readings)), Levels(readings);
            && (v.tripped <==> r == Some(true) && l != [] && !l[|l| - 1])
            && (v.faultedOnConnect <==> r == Some(true) && l == [])
  {
    WatchMeans(readings);
  }

  function Trips(readings: seq<Option<bool>>): nat {
    if readings == [] then 0
    else
      var before := readings[..|readings| - 1];
      Trips(before) + if Evaluate(readings[|readings| - 1], After(before)).tripped then 1 else 0
  }

  /** Places where a sequence of levels goes from clear to latched. */
  function Rises(l: seq<bool>): nat {
    if |l| < 2 then 0
    else Rises(l[..|l| - 1]) + if !l[|l| - 2] && l[|l| - 1] then 1 else 0
  }

  /** Over any readings, as many trips as clear-to-latched transitions. */
  lemma {:induction false} TripsAreRises(readings: seq<Option<bool>>)
    ensures Trips(readings) == Rises(Levels(readings))
  {
    if readings != [] {
      var before, r := readings[..|readings| - 1], readings[|readings| - 1];
      TripsAreRises(before);
      FlaggedExactlyAtTransitions(before, r);
      if r.Some? {
        assert Levels(readings)[..|Levels(readings)| - 1] == Levels(before);
      }
    }
  }

  /** Missing readings never change anything. */
  lemma {:induction false} MissingReadingsAreErased(readings: seq<Option<bool>>, others: seq<Option<bool>>)
    requires Levels(readings) == Levels(others)
    ensures After(readings) == After(others) && Trips(readings) == Trips(others)
  {
    WatchMeans(readings);
    WatchMeans(others);
    TripsAreRises(readings);
    TripsAreRises(others);
  }
}
