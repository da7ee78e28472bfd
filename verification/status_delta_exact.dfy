/** When a delivered frame is guaranteed to leave the browser right: the exact condition,
    over all snapshots the gateway might have taken in a run of the same shape. */
module StatusDeltaExact {
  import opened Wrappers
  import opened StatusDelta

  /** The same ticks, sends, deliveries and reconnects, with other snapshots. */
  ghost predicate SameEvent(a: Event, b: Event) {
    if a.Tick? then b.Tick? && b.skip == a.skip && b.outcome == a.outcome else a == b
  }

  ghost predicate SameShape(a: seq<Event>, b: seq<Event>) {
    |a| == |b| && forall i :: 0 <= i < |a| ==> SameEvent(a[i], b[i])
  }

  ghost predicate TwinPackets(a: seq<Packet>, b: seq<Packet>) {
    |a| == |b| && forall i :: 0 <= i < |a| ==> (a[i].frame.Full? <==> b[i].frame.Full?)
  }

  ghost predicate Twin(s: Sys, o: Sys) {
    && s.closing == o.closing && s.missed == o.missed
    && (s.server.last.Some? <==> o.server.last.Some?) && s.server.cycles == o.server.cycles
    && TwinPackets(s.wire, o.wire)
  }

  lemma TwinStep(s: Sys, o: Sys, e: Event, f: Event)
    requires Twin(s, o) && SameEvent(e, f)
    ensures Twin(Step(s, e), Step(o, f))
  {
  }

  lemma {:induction false} TwinRun(client: Client, a: seq<Event>, b: seq<Event>)
    requires SameShape(a, b)
    ensures Twin(Run(Start(client), a), Run(Start(client), b))
  {
    if a != [] {
      TwinRun(client, a[..|a| - 1], b[..|b| - 1]);
      TwinStep(Run(Start(client), a[..|a| - 1]), Run(Start(client), b[..|b| - 1]), a[|a| - 1], b[|b| - 1]);
    }
  }

  // ---- which tick each frame on the wire came from ----

  function NextSources(s: Sys, e: Event, sources: seq<nat>, now: nat): seq<nat> {
    match e
    case Tick(_, skip, outcome) => if skip || s.closing || outcome == Lost then sources else sources + [now]
    case Deliver => if sources == [] then [] else sources[1..]
    case Garbled => if sources == [] then [] else sources[1..]
    case AnimationFrame => sources
    case Reconnect => []
  }

  function Sources(client: Client, events: seq<Event>): seq<nat> {
    if events == [] then []
    else
      var before := events[..|events| - 1];
      NextSources(Run(Start(client), before), events[|events| - 1], Sources(client, before), |before|)
  }

  ghost predicate Ascending(s: seq<nat>, below: nat) {
    (forall i :: 0 <= i < |s| ==> s[i] < below) && forall i, j :: 0 <= i < j < |s| ==> s[i] < s[j]
  }

  lemma {:induction false} SourcesAscend(client: Client, events: seq<Event>)
    ensures Ascending(Sources(client, events), |events|)
    ensures |Sources(client, events)| == |Run(Start(client), events).wire|
  {
    if events != [] {
      SourcesAscend(client, events[..|events| - 1]);
    }
  }

  // ---- recolouring the snapshots from one tick on ----

  const OLD: Data := map["a" := Number(0.0)]

  function NewData(v: real): Data { map["a" := Number(v)] }

  function Recoloured(events: seq<Event>, g: nat, v: real): seq<Event> {
    if events == [] then []
    else
      var before, e := events[..|events| - 1], events[|events| - 1];
      Recoloured(before, g, v) +
      [if e.Tick? then e.(cur := if |before| < g then OLD else NewData(v)) else e]
  }

  lemma {:induction false} RecolouredShape(events: seq<Event>, g: nat, v: real)
    ensures SameShape(events, Recoloured(events, g, v))
    ensures forall i :: 0 <= i < |events| ==> Recoloured(events, g, v)[..i] == Recoloured(events[..i], g, v)
  {
    if events != [] {
      var before := events[..|events| - 1];
      RecolouredShape(before, g, v);
      var r := Recoloured(events, g, v);
      assert r[..|before|] == Recoloured(before, g, v);
      forall i | 0 <= i < |events| ensures r[..i] == Recoloured(events[..i], g, v) {
        assert r[..i] == r[..|before|][..i];
        assert events[..i] == before[..i];
        if i == |before| {
          assert before[..i] == before;
        }
      }
    }
  }

  /** Frames from ticks before g show OLD and those from g on the new snapshot; every
      delta but the one from g is empty. */
  ghost predicate Coloured(p: Packet, source: nat, g: nat, v: real) {
    && p.snap == (if source < g then OLD else NewData(v))
    && match p.frame
       case Full(d) => d == p.snap
       case Delta(d) => source != g ==> d == map[]
  }

  ghost predicate AllColoured(wire: seq<Packet>, sources: seq<nat>, g: nat, v: real) {
    |wire| == |sources| && forall i :: 0 <= i < |wire| ==> Coloured(wire[i], sources[i], g, v)
  }

  ghost predicate LastColoured(s: Sys, n: nat, g: nat, v: real) {
    s.server.last.Some? ==> s.server.last.value == if n <= g then OLD else NewData(v)
  }

  lemma NothingToSay(d: Data)
    ensures Diff(d, d) == map[]
  {
  }

  /** One event of the recoloured run, for a g that is a tick that sends. */
  lemma ColourStep(s: Sys, e: Event, sources: seq<nat>, n: nat, g: nat, v: real)
    requires AllColoured(s.wire, sources, g, v) && LastColoured(s, n, g, v)
    requires e.Tick? ==> e.cur == if n < g then OLD else NewData(v)
    requires n == g ==> e.Tick? && !e.skip && !s.closing && e.outcome != Lost
    ensures AllColoured(Step(s, e).wire, NextSources(s, e, sources, n), g, v)
    ensures LastColoured(Step(s, e), n + 1, g, v)
  {
    NothingToSay(OLD);
    NothingToSay(NewData(v));
  }

  lemma RecolouredLast(events: seq<Event>, g: nat, v: real)
    requires events != []
    ensures var r := Recoloured(events, g, v);
            && |r| == |events| && r[..|r| - 1] == Recoloured(events[..|events| - 1], g, v)
            && SameEvent(events[|events| - 1], r[|r| - 1])
            && (r[|r| - 1].Tick? ==> r[|r| - 1].cur == if |events| - 1 < g then OLD else NewData(v))
  {
    RecolouredShape(events, g, v);
  }

  /** The tick at g sends, in a run in which its frame was on the wire later. */
  ghost predicate SendsAt(client: Client, events: seq<Event>, g: nat) {
    g < |events| && events[g].Tick? && !events[g].skip && events[g].outcome != Lost
    && !Run(Start(client), events[..g]).closing
  }

  lemma {:induction false} SourceSends(client: Client, events: seq<Event>, g: nat)
    requires g in Sources(client, events)
    ensures SendsAt(client, events, g)
    decreases |events|
  {
    var before := events[..|events| - 1];
    if g in Sources(client, before) {
      SourceSends(client, before, g);
      assert before[..g] == events[..g];
    } else {
      assert events[..|before|] == before;
    }
  }

  lemma {:induction false} RecolouredColours(client: Client, events: seq<Event>, g: nat, v: real)
    requires g < |events| ==> SendsAt(client, events, g)
    ensures var o := Run(Start(client), Recoloured(events, g, v));
            AllColoured(o.wire, Sources(client, events), g, v) && LastColoured(o, |events|, g, v)
  {
    if events != [] {
      var before, e := events[..|events| - 1], events[|events| - 1];
      if g < |before| {
        assert before[..g] == events[..g];
      } else if g == |before| {
        assert before == events[..g];
      }
      RecolouredColours(client, before, g, v);
      RecolouredLast(events, g, v);
      RecolouredShape(before, g, v);
      TwinRun(client, before, Recoloured(before, g, v));
      var r := Recoloured(events, g, v);
      ColourStep(Run(Start(client), Recoloured(before, g, v)), r[|r| - 1], Sources(client, before), |before|, g, v);
    }
  }

  lemma StableSnoc(s: Sys, events: seq<Event>)
    requires events != [] && StableRun(s, events[..|events| - 1])
    requires KeysStay(Run(s, events[..|events| - 1]), events[|events| - 1])
    ensures StableRun(s, events)
  {
    var before := events[..|events| - 1];
    forall i | 0 <= i < |events| ensures KeysStay(Run(s, events[..i]), events[i]) {
      if i < |before| {
        assert events[..i] == before[..i] && events[i] == before[i];
      }
    }
  }

  lemma ColoursKeepKeys(s: Sys, e: Event, n: nat, g: nat, v: real)
    requires LastColoured(s, n, g, v)
    requires e.Tick? ==> e.cur == if n < g then OLD else NewData(v)
    ensures KeysStay(s, e)
  {
    assert OLD.Keys == {"a"} && NewData(v).Keys == {"a"};
  }

  lemma SendsPrefix(client: Client, events: seq<Event>, g: nat)
    requires events != [] && g < |events| - 1 && SendsAt(client, events, g)
    ensures SendsAt(client, events[..|events| - 1], g)
  {
    assert events[..|events| - 1][..g] == events[..g];
  }

  lemma {:induction false} RecolouredStable(client: Client, events: seq<Event>, g: nat, v: real)
    requires g < |events| ==> SendsAt(client, events, g)
    ensures StableRun(Start(client), Recoloured(events, g, v))
  {
    if events != [] {
      var before, r := events[..|events| - 1], Recoloured(events, g, v);
      if g < |before| {
        SendsPrefix(client, events, g);
      }
      RecolouredStable(client, before, g, v);
      RecolouredColours(client, before, g, v);
      RecolouredLast(events, g, v);
      ColoursKeepKeys(Run(Start(client), Recoloured(before, g, v)), r[|r| - 1], |before|, g, v);
      StableSnoc(Start(client), r);
    }
  }

  // ---- the browser misses the frame from g ----

  /** The last frame to arrive undecodable came from g, and no full one was decoded since. */
  ghost predicate MissedSince(client: Client, events: seq<Event>, g: nat)
    decreases |events|
  {
    && events != []
    && var before, e := events[..|events| - 1], events[|events| - 1];
       if e.Garbled? && Sources(client, before) != [] then Sources(client, before)[0] == g
       else Run(Start(client), events).missed && MissedSince(client, before, g)
  }

  lemma MissedStep(s: Sys, e: Event)
    requires Step(s, e).missed && !(e.Garbled? && s.wire != [])
    ensures s.missed
  {
  }

  lemma {:induction false} LastMissed(client: Client, events: seq<Event>) returns (g: nat)
    requires Run(Start(client), events).missed
    ensures MissedSince(client, events, g)
  {
    var before, e := events[..|events| - 1], events[|events| - 1];
    SourcesAscend(client, before);
    if e.Garbled? && Sources(client, before) != [] {
      g := Sources(client, before)[0];
    } else {
      MissedStep(Run(Start(client), before), e);
      g := LastMissed(client, before);
    }
  }

  lemma {:induction false} MissedSends(client: Client, events: seq<Event>, g: nat)
    requires MissedSince(client, events, g)
    ensures SendsAt(client, events, g)
    decreases |events|
  {
    var before, e := events[..|events| - 1], events[|events| - 1];
    if e.Garbled? && Sources(client, before) != [] {
      SourceSends(client, before, g);
    } else {
      MissedSends(client, before, g);
    }
    assert before[..g] == events[..g];
  }

  /** What one event of the recoloured run does to the browser's copy. */
  lemma KeepsAway(o: Sys, e: Event, source: nat, g: nat, v: real)
    requires Latest(o.client) != NewData(v) && v != 0.0
    requires e.Deliver? && o.wire != [] ==>
               Coloured(o.wire[0], source, g, v) && source != g && (source < g || o.wire[0].frame.Delta?)
    ensures Latest(Step(o, e).client) != NewData(v)
  {
    assert OLD["a"] == Number(0.0) && NewData(v)["a"] == Number(v);
    if e.Deliver? && o.wire != [] && o.wire[0].frame.Delta? {
      assert Merge(Latest(o.client), map[]) == Latest(o.client);
    }
  }

  /** A frame delivered while the one from g stays on the wire is an older one. */
  lemma OlderFirst(client: Client, before: seq<Event>, g: nat)
    requires Sources(client, before) != []
    requires g < |before| ==> g in Sources(client, before)[1..]
    ensures Sources(client, before)[0] < g
  {
    SourcesAscend(client, before);
    var s := Sources(client, before);
    if g < |before| {
      var i :| 0 <= i < |s[1..]| && s[1..][i] == g;
      assert s[i + 1] == g;
    }
  }

  lemma StaysOnWire(client: Client, events: seq<Event>, g: nat)
    requires events != [] && g < |events| - 1 && g in Sources(client, events)
    ensures g in Sources(client, events[..|events| - 1])
    ensures events[|events| - 1].Deliver? && Sources(client, events[..|events| - 1]) != [] ==>
              g in Sources(client, events[..|events| - 1])[1..]
  {
  }

  /** Until its frame from g is next, the browser only ever sees older frames. */
  lemma {:induction false} UnchangedBefore(client: Client, events: seq<Event>, g: nat, v: real)
    requires (g < |events| ==> g in Sources(client, events)) && NewData(v) != Latest(client) && v != 0.0
    ensures Latest(Run(Start(client), Recoloured(events, g, v)).client) != NewData(v)
  {
    if events != [] {
      var before, e := events[..|events| - 1], events[|events| - 1];
      if g < |before| {
        StaysOnWire(client, events, g);
        SourceSends(client, before, g);
      }
      UnchangedBefore(client, before, g, v);
      RecolouredLast(events, g, v);
      RecolouredColours(client, before, g, v);
      var o := Run(Start(client), Recoloured(before, g, v));
      if e.Deliver? && o.wire != [] {
        OlderFirst(client, before, g);
        KeepsAway(o, e, Sources(client, before)[0], g, v);
      } else {
        var r := Recoloured(events, g, v);
        KeepsAway(o, r[|r| - 1], 0, g, v);
      }
    }
  }

  ghost predicate AllAfter(sources: seq<nat>, g: nat) { forall i :: 0 <= i < |sources| ==> sources[i] > g }

  lemma {:induction false} LaterOnly(client: Client, events: seq<Event>, g: nat)
    requires MissedSince(client, events, g)
    ensures AllAfter(Sources(client, events), g) && g < |events|
    decreases |events|
  {
    var before, e := events[..|events| - 1], events[|events| - 1];
    SourcesAscend(client, before);
    if !(e.Garbled? && Sources(client, before) != []) {
      LaterOnly(client, before, g);
    }
  }

  lemma DecodedDelta(s: Sys)
    requires s.wire != [] && Step(s, Deliver).missed
    ensures s.wire[0].frame.Delta?
  {
  }

  /** Once the frame from g has been missed, only a full frame brings its change. */
  lemma {:induction false} UnchangedAfter(client: Client, events: seq<Event>, g: nat, v: real)
    requires MissedSince(client, events, g) && NewData(v) != Latest(client) && v != 0.0
    ensures Latest(Run(Start(client), Recoloured(events, g, v)).client) != NewData(v)
    decreases |events|
  {
    var before, e, r := events[..|events| - 1], events[|events| - 1], Recoloured(events, g, v);
    MissedSends(client, events, g);
    SourcesAscend(client, before);
    RecolouredLast(events, g, v);
    var o := Run(Start(client), Recoloured(before, g, v));
    if e.Garbled? && Sources(client, before) != [] {
      UnchangedBefore(client, before, g, v);
      KeepsAway(o, r[|r| - 1], 0, g, v);
    } else {
      UnchangedAfter(client, before, g, v);
      LaterOnly(client, before, g);
      SendsPrefix(client, events, g);
      RecolouredColours(client, before, g, v);
      RecolouredShape(before, g, v);
      TwinRun(client, before, Recoloured(before, g, v));
      var s := Run(Start(client), before);
      if e.Deliver? && o.wire != [] {
        DecodedDelta(s);
        KeepsAway(o, e, Sources(client, before)[0], g, v);
      } else {
        KeepsAway(o, r[|r| - 1], 0, g, v);
      }
    }
  }

  ghost predicate Guaranteed(client: Client, events: seq<Event>) {
    forall other :: SameShape(events, other) && StableRun(Start(client), other) ==> Agrees(Run(Start(client), other))
  }

  lemma StaleDelta(o: Sys, source: nat, g: nat, v: real)
    requires o.wire != [] && o.wire[0].frame.Delta? && Coloured(o.wire[0], source, g, v) && source > g
    requires Latest(o.client) != NewData(v)
    ensures !Agrees(o)
  {
    assert Merge(Latest(o.client), map[]) == Latest(o.client);
  }

  lemma RecolouredAllowed(client: Client, events: seq<Event>, g: nat, v: real)
    requires MissedSince(client, events, g)
    ensures SameShape(events, Recoloured(events, g, v)) && StableRun(Start(client), Recoloured(events, g, v))
  {
    MissedSends(client, events, g);
    RecolouredShape(events, g, v);
    RecolouredStable(client, events, g, v);
  }

  lemma TwinWire(s: Sys, o: Sys)
    requires Twin(s, o) && s.wire != [] && !s.wire[0].frame.Full?
    ensures o.wire != [] && o.wire[0].frame.Delta?
  {
  }

  lemma NextColoured(client: Client, events: seq<Event>, g: nat, v: real)
    requires MissedSince(client, events, g) && Run(Start(client), events).wire != []
    requires !Run(Start(client), events).wire[0].frame.Full?
    ensures var o, sources := Run(Start(client), Recoloured(events, g, v)), Sources(client, events);
            o.wire != [] && o.wire[0].frame.Delta? && sources != [] && sources[0] > g && Coloured(o.wire[0], sources[0], g, v)
  {
    MissedSends(client, events, g);
    LaterOnly(client, events, g);
    RecolouredColours(client, events, g, v);
    RecolouredShape(events, g, v);
    TwinRun(client, events, Recoloured(events, g, v));
    TwinWire(Run(Start(client), events), Run(Start(client), Recoloured(events, g, v)));
    SourcesAscend(client, events);
  }

  /** Two snapshots the browser's first copy cannot both equal. */
  function Unlike(d: Data): (v: real)
    ensures v != 0.0 && NewData(v) != d
  {
    assert NewData(1.0)["a"] != NewData(2.0)["a"];
    if d == NewData(1.0) then 2.0 else 1.0
  }

  /** Out of step, some snapshots leave the browser wrong. */
  lemma {:induction false} OutOfStepFails(client: Client, events: seq<Event>)
    requires Run(Start(client), events).wire != [] && !InStep(Run(Start(client), events))
    ensures !Guaranteed(client, events)
  {
    var g := LastMissed(client, events);
    var v := Unlike(Latest(client));
    RecolouredAllowed(client, events, g, v);
    NextColoured(client, events, g, v);
    UnchangedAfter(client, events, g, v);
    StaleDelta(Run(Start(client), Recoloured(events, g, v)), Sources(client, events)[0], g, v);
  }

  /** The exact condition: a delivered frame is guaranteed to leave the browser equal to
      its snapshot, whatever the snapshots, if and only if it is full or every frame since
      the last full one was decoded. */
  lemma {:induction false} GuaranteedExactlyWhenInStep(client: Client, events: seq<Event>)
    requires Run(Start(client), events).wire != []
    ensures Guaranteed(client, events) <==> InStep(Run(Start(client), events))
  {
    if InStep(Run(Start(client), events)) {
      forall other | SameShape(events, other) && StableRun(Start(client), other)
        ensures Agrees(Run(Start(client), other))
      {
        TwinRun(client, events, other);
        DeliveredEqualsSnapshot(client, other);
      }
    } else {
      OutOfStepFails(client, events);
    }
  }
}
