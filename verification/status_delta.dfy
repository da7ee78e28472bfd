/** Status replication: the gateway diffs each snapshot against the last one it
    sent, forces a full frame every hundred deltas, and the browser merges what
    arrives into its buffered or flushed copy. */
module StatusDelta {
  import opened Wrappers

  /** A status field; numbers are compared as Python compares bool, int and float. */
  datatype Val = Null | Number(r: real) | Str(s: string) | List(items: seq<Val>)

  type Data = map<string, Val>

  const FULL_INTERVAL: nat := 100

  datatype Frame = Full(data: Data) | Delta(data: Data)

  // ---- diff and merge ----

  function Diff(last: Data, cur: Data): Data {
    map k | k in cur && (k !in last || last[k] != cur[k]) :: cur[k]
  }

  method DiffStatusData(last: Data, cur: Data) returns (diff: Data)
    ensures diff == Diff(last, cur)
  {
    diff := map[];
    var todo := cur.Keys;
    while todo != {}
      invariant todo <= cur.Keys
      invariant diff == map k | k in cur && k !in todo && (k !in last || last[k] != cur[k]) :: cur[k]
      decreases todo
    {
      var k :| k in todo;
      todo := todo - {k};
      if k !in last || last[k] != cur[k] {
        diff := diff[k := cur[k]];
      }
    }
  }

  /** `{...base, ...delta}` */
  function Merge(base: Data, delta: Data): Data { base + delta }

  /** Merging a diff into its base gives the new snapshot exactly when no field was
      dropped: the diff has no way to say that one is gone. */
  lemma {:induction false} MergeDiffExactlyWhenKeysStay(last: Data, cur: Data)
    ensures Merge(last, Diff(last, cur)) == cur <==> last.Keys <= cur.Keys
  {
    var m := Merge(last, Diff(last, cur));
    assert m.Keys == last.Keys + Diff(last, cur).Keys;
    if last.Keys <= cur.Keys {
      assert m.Keys == cur.Keys;
      forall k | k in m ensures m[k] == cur[k] {}
    }
    if m == cur { assert last.Keys <= m.Keys; }
  }

  /** No smaller delta will do: any that merges to the new snapshot holds the whole diff. */
  lemma {:induction false} DiffIsLeast(last: Data, cur: Data, delta: Data)
    requires Merge(last, delta) == cur
    ensures Diff(last, cur).Keys <= delta.Keys
    ensures forall k :: k in Diff(last, cur) ==> delta[k] == Diff(last, cur)[k]
  {
    forall k | k in Diff(last, cur) ensures k in delta && delta[k] == cur[k] {
      assert Merge(last, delta)[k] == cur[k];
    }
  }

  // ---- the gateway's per-connection loop ----

  datatype Server = Server(last: Option<Data>, cycles: nat)

  const FRESH := Server(None, 0)

  predicate FullDue(s: Server) { s.last.None? || s.cycles >= FULL_INTERVAL }

  function FrameFor(s: Server, cur: Data): Frame {
    if FullDue(s) then Full(cur) else Delta(Diff(s.last.value, cur))
  }

  function Sent(s: Server, cur: Data): Server {
    Server(Some(cur), if FullDue(s) then 0 else s.cycles + 1)
  }

  class StatusLoop {
    var last: Option<Data>
    var cyclesSinceFull: nat

    constructor ()
      ensures View() == FRESH
    {
      last := None;
      cyclesSinceFull := 0;
    }

    function View(): Server
      reads this
    {
      Server(last, cyclesSinceFull)
    }

    /** One status tick; a hidden tab or a send still in flight skips it entirely. */
    method Tick(cur: Data, skip: bool) returns (frame: Option<Frame>)
      modifies this
      ensures skip ==> frame == None && View() == old(View())
      ensures !skip ==> frame == Some(FrameFor(old(View()), cur)) && View() == Sent(old(View()), cur)
    {
      if skip { return None; }
      if last.None? || cyclesSinceFull >= FULL_INTERVAL {
        cyclesSinceFull := 0;
        frame := Some(Full(cur));
      } else {
        var d := DiffStatusData(last.value, cur);
        frame := Some(Delta(d));
        cyclesSinceFull := cyclesSinceFull + 1;
      }
      last := Some(cur);
    }
  }

  // ---- the browser ----

  /** The unflushed message's data and the flushed reactive copy. */
  datatype Client = Client(pending: Option<Data>, status: Option<Data>)

  /** What the next delta is merged onto. */
  function Latest(c: Client): Data {
    if c.pending.Some? then c.pending.value else if c.status.Some? then c.status.value else map[]
  }

  function Apply(base: Data, f: Frame): Data {
    match f
    case Full(d) => d
    case Delta(d) => Merge(base, d)
  }

  function Received(c: Client, f: Frame): Client { c.(pending := Some(Apply(Latest(c), f))) }

  function Flushed(c: Client): Client {
    if c.pending.Some? then Client(None, c.pending) else c
  }

  class StatusStore {
    var pending: Option<Data>
    var status: Option<Data>

    constructor ()
      ensures View() == Client(None, None)
    {
      pending, status := None, None;
    }

    function View(): Client
      reads this
    {
      Client(pending, status)
    }

    method OnFrame(f: Frame)
      modifies this
      ensures View() == Received(old(View()), f)
    {
      var data := f.data;
      if f.Delta? {
        var base := if pending.Some? then pending.value else if status.Some? then status.value else map[];
        data := Merge(base, f.data);
      }
      pending := Some(data);
    }

    method OnAnimationFrame()
      modifies this
      ensures View() == Flushed(old(View()))
    {
      if pending.Some? {
        status := pending;
        pending := None;
      }
    }
  }

  // ---- the whole protocol ----

  /** A frame under way, with the snapshot it stands for and the deltas since the last
      full frame. */
  datatype Packet = Packet(frame: Frame, snap: Data, sinceFull: nat)

  /** How a send ends: done, given up after its bytes were queued, or given up before. */
  datatype Outcome = Done | Queued | Lost

  /** `closing` after a send that was given up: the connection is being closed and sends
      nothing more.  `consumed` is the last packet of this connection to reach the browser,
      `missed` says that one has reached it undecodable since the last decoded full frame,
      and `decoded` counts the frames decoded since then. */
  datatype Sys = Sys(server: Server, closing: bool, wire: seq<Packet>, client: Client,
                     consumed: Option<Packet>, missed: bool, decoded: nat)

  datatype Event =
    | Tick(cur: Data, skip: bool, outcome: Outcome)
    | Deliver
    | Garbled
    | AnimationFrame
    | Reconnect

  function Start(client: Client): Sys { Sys(FRESH, false, [], client, None, false, 0) }

  function OnTick(s: Sys, cur: Data, outcome: Outcome): Sys {
    var next := Sent(s.server, cur);
    var p := Packet(FrameFor(s.server, cur), cur, next.cycles);
    s.(server := next, closing := outcome != Done, wire := if outcome == Lost then s.wire else s.wire + [p])
  }

  function OnDeliver(s: Sys): Sys
    requires s.wire != []
  {
    var p := s.wire[0];
    s.(wire := s.wire[1..], client := Received(s.client, p.frame), consumed := Some(p),
       missed := s.missed && !p.frame.Full?, decoded := s.decoded + 1)
  }

  function Step(s: Sys, e: Event): Sys {
    match e
    case Tick(cur, skip, outcome) => if skip || s.closing then s else OnTick(s, cur, outcome)
    case Deliver => if s.wire == [] then s else OnDeliver(s)
    case Garbled =>
      if s.wire == [] then s
      else s.(wire := s.wire[1..], consumed := Some(s.wire[0]), missed := true, decoded := 0)
    case AnimationFrame => s.(client := Flushed(s.client))
    case Reconnect => Start(s.client)
  }

  function Run(s: Sys, events: seq<Event>): Sys {
    if events == [] then s else Step(Run(s, events[..|events| - 1]), events[|events| - 1])
  }

  /** No field ever disappears between two snapshots of one connection. */
  ghost predicate KeysStay(s: Sys, e: Event) {
    e.Tick? && !e.skip && s.server.last.Some? ==> s.server.last.value.Keys <= e.cur.Keys
  }

  ghost predicate StableRun(s: Sys, events: seq<Event>) {
    forall i :: 0 <= i < |events| ==> KeysStay(Run(s, events[..i]), events[i])
  }

  /** The next frame leads from the snapshot of the one before it to its own; the first
      frame of a connection is full. */
  ghost predicate Link(prev: Option<Packet>, p: Packet) {
    && p.sinceFull <= FULL_INTERVAL
    && match p.frame
       case Full(d) => d == p.snap && p.sinceFull == 0
       case Delta(d) => prev.Some? && Merge(prev.value.snap, d) == p.snap && p.sinceFull == prev.value.sinceFull + 1
  }

  ghost predicate Chain(prev: Option<Packet>, wire: seq<Packet>)
    decreases |wire|
  {
    wire != [] ==> Link(prev, wire[0]) && Chain(Some(wire[0]), wire[1..])
  }

  function Tail(s: Sys): Option<Packet> { if s.wire == [] then s.consumed else Some(s.wire[|s.wire| - 1]) }

  /** What the gateway will diff against is the last packet it put on the wire. */
  ghost predicate TailIs(s: Sys) {
    match s.server.last
    case None => Tail(s) == None && s.server.cycles == 0
    case Some(d) => Tail(s).Some? && Tail(s).value.snap == d && Tail(s).value.sinceFull == s.server.cycles
  }

  ghost predicate Inv(s: Sys) {
    && Chain(s.consumed, s.wire)
    && (!s.closing ==> TailIs(s)) && s.server.cycles <= FULL_INTERVAL
    && (s.consumed.Some? && !s.missed ==> Latest(s.client) == s.consumed.value.snap)
    && (s.consumed.Some? ==> s.consumed.value.sinceFull <= FULL_INTERVAL)
    && (s.missed ==> s.consumed.Some? && s.decoded <= s.consumed.value.sinceFull)
  }

  lemma {:induction false} ChainSnoc(prev: Option<Packet>, wire: seq<Packet>, p: Packet)
    requires Chain(prev, wire)
    requires Link(if wire == [] then prev else Some(wire[|wire| - 1]), p)
    ensures Chain(prev, wire + [p])
    decreases |wire|
  {
    if wire == [] {
      assert wire + [p] == [p];
    } else {
      assert (wire + [p])[1..] == wire[1..] + [p];
      ChainSnoc(Some(wire[0]), wire[1..], p);
    }
  }

  lemma TickKeepsInv(s: Sys, cur: Data, outcome: Outcome)
    requires Inv(s) && !s.closing && KeysStay(s, Tick(cur, false, outcome))
    ensures Inv(OnTick(s, cur, outcome))
  {
    var p := Packet(FrameFor(s.server, cur), cur, Sent(s.server, cur).cycles);
    if outcome != Lost {
      if !FullDue(s.server) {
        MergeDiffExactlyWhenKeysStay(s.server.last.value, cur);
      }
      ChainSnoc(s.consumed, s.wire, p);
    }
  }

  lemma DeliverKeepsInv(s: Sys)
    requires Inv(s) && s.wire != []
    ensures Inv(OnDeliver(s)) && Inv(Step(s, Garbled))
  {
    assert Link(s.consumed, s.wire[0]);
  }

  lemma StepKeepsInv(s: Sys, e: Event)
    requires Inv(s) && KeysStay(s, e)
    ensures Inv(Step(s, e))
  {
    match e
    case Tick(cur, skip, outcome) => if !skip && !s.closing { TickKeepsInv(s, cur, outcome); }
    case Deliver => if s.wire != [] { DeliverKeepsInv(s); }
    case Garbled => if s.wire != [] { DeliverKeepsInv(s); }
    case AnimationFrame =>
    case Reconnect =>
  }

  lemma StablePrefix(s: Sys, events: seq<Event>)
    requires StableRun(s, events) && events != []
    ensures StableRun(s, events[..|events| - 1])
    ensures KeysStay(Run(s, events[..|events| - 1]), events[|events| - 1])
  {
    var before := events[..|events| - 1];
    forall i | 0 <= i < |before| ensures KeysStay(Run(s, before[..i]), before[i]) {
      assert before[..i] == events[..i];
    }
  }

  /** Over every run with stable keys the replication invariant holds. */
  lemma {:induction false} RunKeepsInv(client: Client, events: seq<Event>)
    requires StableRun(Start(client), events)
    ensures Inv(Run(Start(client), events))
  {
    if events != [] {
      StablePrefix(Start(client), events);
      RunKeepsInv(client, events[..|events| - 1]);
      StepKeepsInv(Run(Start(client), events[..|events| - 1]), events[|events| - 1]);
    }
  }

  /** The frame about to be delivered is full, or every frame since the last full one
      has been decoded. */
  predicate InStep(s: Sys) { s.wire != [] && (s.wire[0].frame.Full? || !s.missed) }

  ghost predicate Agrees(s: Sys) { s.wire != [] ==> Latest(Step(s, Deliver).client) == s.wire[0].snap }

  /** A frame delivered in step leaves the browser equal to the snapshot the gateway
      diffed to, whatever sends were given up and connections closed before. */
  lemma {:induction false} DeliveredEqualsSnapshot(client: Client, events: seq<Event>)
    requires StableRun(Start(client), events)
    ensures InStep(Run(Start(client), events)) ==> Agrees(Run(Start(client), events))
  {
    RunKeepsInv(client, events);
    var s := Run(Start(client), events);
    if InStep(s) {
      assert Link(s.consumed, s.wire[0]);
    }
  }

  ghost predicate AllDecode(events: seq<Event>) { forall i :: 0 <= i < |events| ==> !events[i].Garbled? }

  lemma {:induction false} NothingMissed(client: Client, events: seq<Event>)
    requires AllDecode(events)
    ensures !Run(Start(client), events).missed
  {
    if events != [] {
      NothingMissed(client, events[..|events| - 1]);
    }
  }

  /** Replication: in every run with stable keys, lost frames included, each delivered
      frame leaves the browser equal to its snapshot: a loss ends its connection, and the
      next one starts with a full frame. */
  lemma {:induction false} EveryDeliveryAgrees(client: Client, events: seq<Event>)
    requires AllDecode(events) && StableRun(Start(client), events)
    ensures Agrees(Run(Start(client), events))
  {
    NothingMissed(client, events);
    DeliveredEqualsSnapshot(client, events);
  }

  /** After frames the browser could not decode it is in step again at the latest with the
      101st frame decoded in a row. */
  lemma {:induction false} HealsAfter101(client: Client, events: seq<Event>)
    requires StableRun(Start(client), events)
    ensures var s := Run(Start(client), events);
            s.wire != [] && s.decoded >= 100 ==> InStep(s) && Agrees(s)
  {
    RunKeepsInv(client, events);
    DeliveredEqualsSnapshot(client, events);
    var s := Run(Start(client), events);
    if s.wire != [] {
      assert Link(s.consumed, s.wire[0]);
    }
  }

  /** An animation frame puts the latest data on the screen and changes nothing else: a frame
      delivered in step shows its very snapshot. */
  lemma {:induction false} ScreenShowsSnapshot(client: Client, events: seq<Event>)
    requires StableRun(Start(client), events) && InStep(Run(Start(client), events))
    ensures var s := Run(Start(client), events);
            var n := Step(Step(s, Deliver), AnimationFrame);
            n.client == Client(None, Some(s.wire[0].snap))
  {
    DeliveredEqualsSnapshot(client, events);
  }

  lemma {:induction false} FrameChangesNoData(s: Sys)
    ensures Latest(Step(s, AnimationFrame).client) == Latest(s.client) && Step(s, AnimationFrame).client.pending == None
  {
  }

  /** From any state a new connection needs one tick, one delivery and one animation frame to
      show the current snapshot, whatever fields came or went. */
  lemma {:induction false} ReconnectResyncs(s: Sys, cur: Data)
    ensures var a := Step(s, Reconnect);
            var b := Step(a, Tick(cur, false, Done));
            Step(Step(b, Deliver), AnimationFrame).client == Client(None, Some(cur))
  {
    var b := Step(Step(s, Reconnect), Tick(cur, false, Done));
    assert b.wire == [Packet(Full(cur), cur, 0)] && b.wire[0].frame == Full(cur);
  }

  /** Ticks of this connection that have sent or tried to. */
  function Sends(client: Client, events: seq<Event>): nat {
    if events == [] then 0
    else
      var before, e := events[..|events| - 1], events[|events| - 1];
      if e.Reconnect? then 0
      else if e.Tick? && !e.skip && !Run(Start(client), before).closing then Sends(client, before) + 1
      else Sends(client, before)
  }

  lemma {:induction false} CyclesCount(client: Client, events: seq<Event>)
    ensures var s, n := Run(Start(client), events).server, Sends(client, events);
            if n == 0 then s == FRESH else s.last.Some? && s.cycles == (n - 1) % 101
  {
    if events != [] {
      CyclesCount(client, events[..|events| - 1]);
      NextCycle(Sends(client, events[..|events| - 1]));
    }
  }

  lemma NextCycle(n: nat)
    ensures n > 0 ==> n % 101 == if (n - 1) % 101 == 100 then 0 else (n - 1) % 101 + 1
  {
  }

  /** Over every run the frames of a connection are full exactly at its first tick and at every
      101st after it, and deltas in between. */
  lemma {:induction false} FullExactlyEvery101st(client: Client, events: seq<Event>, cur: Data)
    ensures FrameFor(Run(Start(client), events).server, cur).Full? <==> Sends(client, events) % 101 == 0
  {
    CyclesCount(client, events);
    NextCycle(Sends(client, events));
  }
}
