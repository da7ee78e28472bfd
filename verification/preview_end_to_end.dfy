/** Server and browser together: pings, requests and payloads in flight between the
    preview pipeline and a viewer, and what newest-wins means across both. */
module PreviewEndToEnd {
  import opened Wrappers
  import S = Preview
  import V = PreviewClient
  import G = PreviewGets

  /** `pings` are the versions announced and not yet handled, `get` the GET of the load the
      worker is at, once the server has it. */
  datatype World = World(server: S.Sys, viewer: V.Viewer, pings: seq<nat>, get: Option<nat>)

  /** `Serve` is any step of the pipeline, `Page` an emptied page, a worker error or the
      next reply reaching the page. */
  datatype Event =
    | Serve(step: S.Event)
    | SendPing
    | TakePing
    | Page(input: V.Event)
    | TakeLoad
    | IssueLoad(g: nat)
    | PostLoad
    | PostError

  function Start(seed: nat): World { World(S.Start(seed), V.BLANK, [], None) }

  function OnIssue(parse: S.Content -> S.Data, w: World, g: nat): World {
    if w.viewer.loading.None? || w.get.Some? || g in w.server.gets then w
    else
      var server := S.Step(parse, w.server, S.Issue(g, w.viewer.loading.value));
      if g in server.gets then w.(server := server, get := Some(g)) else w
  }

  function OnPost(w: World): World {
    if w.get.Some? && w.get.value in w.server.gets && w.server.gets[w.get.value].Read?
    then w.(viewer := V.Step(w.viewer, V.Post(w.server.gets[w.get.value].body)), get := None)
    else w
  }

  function Step(parse: S.Content -> S.Data, w: World, e: Event): World {
    match e
    case Serve(e) => w.(server := S.Step(parse, w.server, e))
    case SendPing => w.(pings := w.pings + [w.server.book.version])
    case TakePing => if w.pings == [] then w else w.(pings := w.pings[1..], viewer := V.Step(w.viewer, V.Ping(w.pings[0])))
    case Page(e) => if e.Emptied? || e.Crashed? || e.Deliver? then w.(viewer := V.Step(w.viewer, e)) else w
    case TakeLoad => if w.viewer.asked == [] then w else w.(viewer := V.Step(w.viewer, V.Take), get := None)
    case IssueLoad(g) => OnIssue(parse, w, g)
    case PostLoad => OnPost(w)
    case PostError => w.(viewer := V.Step(w.viewer, V.Post(None)), get := None)
  }

  function Run(parse: S.Content -> S.Data, w: World, events: seq<Event>): World {
    if events == [] then w else Step(parse, Run(parse, w, events[..|events| - 1]), events[|events| - 1])
  }

  // ---- what every run keeps ----

  ghost predicate Ascending(s: seq<nat>, low: nat, high: nat) {
    && (forall i :: 0 <= i < |s| ==> low <= s[i] <= high)
    && (forall i, j :: 0 <= i < j < |s| ==> s[i] <= s[j])
  }

  ghost predicate ServerOk(w: World) { S.Stamped(w.server) && S.GetsOk(w.server) }

  /** The pings in flight lead up from the browser's version to the server's. */
  ghost predicate PingsOk(w: World) {
    w.viewer.page.latest <= w.server.book.version && Ascending(w.pings, w.viewer.page.latest, w.server.book.version)
  }

  ghost predicate LoadOk(w: World) {
    w.get.Some? ==>
      w.get.value in w.server.gets && w.viewer.loading == Some(w.server.gets[w.get.value].asked)
  }

  ghost predicate Honest(r: V.Reply) { r.body.Some? ==> r.body.value.no >= r.version }

  ghost predicate RepliesOk(w: World) { forall i :: 0 <= i < |w.viewer.replies| ==> Honest(w.viewer.replies[i]) }

  ghost predicate Inv(w: World) { ServerOk(w) && PingsOk(w) && LoadOk(w) && RepliesOk(w) && V.Inv(w.viewer) }

  lemma ServeKeepsGets(parse: S.Content -> S.Data, s: S.Sys, e: S.Event, g: nat)
    requires g in s.gets
    ensures var n := S.Step(parse, s, e); g in n.gets && n.gets[g].asked == s.gets[g].asked
  {
  }

  lemma ServeKeepsInv(parse: S.Content -> S.Data, w: World, e: S.Event)
    requires Inv(w)
    ensures Inv(w.(server := S.Step(parse, w.server, e)))
  {
    S.StampedStep(parse, w.server, e);
    S.GetsStep(parse, w.server, e);
    if w.get.Some? {
      ServeKeepsGets(parse, w.server, e, w.get.value);
    }
  }

  lemma PingKeepsInv(w: World)
    requires Inv(w) && w.pings != []
    ensures Inv(w.(pings := w.pings[1..], viewer := V.Step(w.viewer, V.Ping(w.pings[0]))))
  {
  }

  lemma PageKeepsInv(w: World, e: V.Event)
    requires Inv(w) && (e.Emptied? || e.Crashed? || e.Deliver?)
    ensures Inv(w.(viewer := V.Step(w.viewer, e)))
  {
  }

  lemma IssueKeepsInv(parse: S.Content -> S.Data, w: World, g: nat)
    requires Inv(w)
    ensures Inv(OnIssue(parse, w, g))
  {
    if w.viewer.loading.Some? {
      ServeKeepsInv(parse, w, S.Issue(g, w.viewer.loading.value));
    }
  }

  lemma PostedKeepsInv(w: World, body: Option<S.Pub>)
    requires Inv(w) && w.viewer.loading.Some? && Honest(V.Reply(w.viewer.loading.value, body))
    ensures Inv(w.(viewer := V.Step(w.viewer, V.Post(body)), get := None))
  {
  }

  lemma PostKeepsInv(w: World)
    requires Inv(w)
    ensures Inv(OnPost(w))
  {
    if w.get.Some? && w.server.gets[w.get.value].Read? {
      assert S.GetOk(w.server.gets[w.get.value], w.server.book.version);
      PostedKeepsInv(w, w.server.gets[w.get.value].body);
    }
  }

  lemma StepKeepsInv(parse: S.Content -> S.Data, w: World, e: Event)
    requires Inv(w)
    ensures Inv(Step(parse, w, e))
  {
    match e
    case Serve(e) => ServeKeepsInv(parse, w, e);
    case SendPing =>
    case TakePing => if w.pings != [] { PingKeepsInv(w); }
    case Page(e) => if e.Emptied? || e.Crashed? || e.Deliver? { PageKeepsInv(w, e); }
    case TakeLoad =>
    case IssueLoad(g) => IssueKeepsInv(parse, w, g);
    case PostLoad => PostKeepsInv(w);
    case PostError => if w.viewer.loading.Some? { PostedKeepsInv(w, None); }
  }

  lemma {:induction false} AlwaysInv(parse: S.Content -> S.Data, seed: nat, events: seq<Event>)
    ensures Inv(Run(parse, Start(seed), events))
  {
    if events != [] {
      AlwaysInv(parse, seed, events[..|events| - 1]);
      StepKeepsInv(parse, Run(parse, Start(seed), events[..|events| - 1]), events[|events| - 1]);
    }
  }

  // ---- newest wins ----

  /** What is shown is what was shown before, or no older than version n. */
  ghost predicate NotOlder(before: Option<S.Pub>, now: Option<S.Pub>, n: nat) {
    now.Some? ==> now == before || now.value.no >= n
  }

  lemma ShownStep(parse: S.Content -> S.Data, w: World, e: Event)
    requires Inv(w)
    ensures var n := Step(parse, w, e);
            && w.viewer.page.latest <= n.viewer.page.latest
            && NotOlder(w.viewer.page.shown, n.viewer.page.shown, w.viewer.page.latest)
  {
    if e == Page(V.Deliver) && w.viewer.replies != [] {
      assert Honest(w.viewer.replies[0]);
    }
  }

  lemma {:induction false} ShownLater(parse: S.Content -> S.Data, w: World, more: seq<Event>)
    requires Inv(w)
    ensures var n := Run(parse, w, more);
            && Inv(n) && w.viewer.page.latest <= n.viewer.page.latest
            && NotOlder(w.viewer.page.shown, n.viewer.page.shown, w.viewer.page.latest)
  {
    if more != [] {
      ShownLater(parse, w, more[..|more| - 1]);
      ShownStep(parse, Run(parse, w, more[..|more| - 1]), more[|more| - 1]);
      StepKeepsInv(parse, Run(parse, w, more[..|more| - 1]), more[|more| - 1]);
    }
  }

  /** Newest wins, end to end: once the browser has handled a ping for version n, whatever
      edits, publications, unloads, late replies and worker errors follow, in any
      interleaving with the server's writes, its viewer shows what it showed then, nothing,
      or a payload published as version n or later. */
  lemma {:induction false} NewestWins(parse: S.Content -> S.Data, seed: nat, events: seq<Event>, more: seq<Event>)
    ensures var w := Run(parse, Start(seed), events);
            var n := Run(parse, w, more);
            && NotOlder(w.viewer.page.shown, n.viewer.page.shown, w.viewer.page.latest)
            && w.viewer.page.latest <= n.viewer.page.latest <= n.server.book.version
  {
    AlwaysInv(parse, seed, events);
    ShownLater(parse, Run(parse, Start(seed), events), more);
  }

  // ---- and the newest comes ----

  /** Nothing on its way between server and page. */
  ghost predicate Calm(w: World) {
    w.pings == [] && w.viewer.asked == [] && w.viewer.loading == None && w.viewer.replies == [] && w.get == None
  }

  lemma PingHandled(parse: S.Content -> S.Data, w: World)
    requires Calm(w) && w.viewer.page.requested != Some(w.server.book.version)
    ensures var v := w.server.book.version;
            Step(parse, Step(parse, w, SendPing), TakePing) ==
            w.(viewer := w.viewer.(page := w.viewer.page.(latest := v, requested := Some(v)), asked := [v]))
  {
    var v := w.server.book.version;
    assert Step(parse, w, SendPing).pings == [v] && [v][1..] == [] && [] + [v] == [v];
  }

  lemma LoadTaken(parse: S.Content -> S.Data, w: World, v: nat, g: nat)
    requires w.viewer.asked == [v] && g !in w.server.gets && w.server.loop.Idle? && v <= w.server.book.version
    ensures Step(parse, Step(parse, w, TakeLoad), IssueLoad(g)) ==
            w.(viewer := w.viewer.(asked := [], loading := Some(v)), get := Some(g),
               server := w.server.(gets := w.server.gets[g := S.Issued(v)]))
  {
    assert [v][1..] == [];
  }

  /** The server answers the GET step by step. */
  lemma GetServed(parse: S.Content -> S.Data, w: World, g: nat, v: nat, gz: bool)
    requires g in w.server.gets && w.server.gets[g] == S.Issued(v) && (w.server.book.bytes.None? || w.server.book.gz.None?)
    ensures var s := Serve(S.GetStep(g, gz));
            Step(parse, Step(parse, Step(parse, w, s), s), s) ==
            w.(server := w.server.(gets := w.server.gets[g := S.Read(v, S.Served(w.server.book))]))
  {
    G.ThreeSteps(w.server.book, v, gz);
    var s := Serve(S.GetStep(g, gz));
    var a := Step(parse, w, s);
    var b := Step(parse, a, s);
    G.OneGetStep(parse, w.server, g, gz);
    G.OneGetStep(parse, a.server, g, gz);
    G.OneGetStep(parse, b.server, g, gz);
  }

  lemma ReplyShown(parse: S.Content -> S.Data, w: World, g: nat, v: nat, pub: S.Pub)
    requires w.get == Some(g) && g in w.server.gets && w.server.gets[g] == S.Read(v, Some(pub))
    requires w.viewer.loading == Some(v) && w.viewer.replies == [] && w.viewer.page.requested == Some(v) && w.pings == []
    requires w.viewer.asked == []
    ensures var n := Step(parse, Step(parse, w, PostLoad), Page(V.Deliver));
            n.viewer.page.shown == Some(pub) && !n.viewer.page.failed && Calm(n)
  {
    var a := Step(parse, w, PostLoad);
    assert a.viewer.replies == [V.Reply(v, Some(pub))] && [V.Reply(v, Some(pub))][1..] == [];
  }

  /** The events of one undisturbed load, from the ping to the screen. */
  function OneLoad(parse: S.Content -> S.Data, w: World, g: nat, gz: bool): World {
    var a := Step(parse, Step(parse, w, SendPing), TakePing);
    var b := Step(parse, Step(parse, a, TakeLoad), IssueLoad(g));
    var s := Serve(S.GetStep(g, gz));
    var c := Step(parse, Step(parse, Step(parse, b, s), s), s);
    Step(parse, Step(parse, c, PostLoad), Page(V.Deliver))
  }

  /** End to end, the newest comes: from every run's state in which nothing is on its way and
      the server holds a payload of a version the page has not asked for, one ping, one GET
      and one reply put that very payload on the screen, in either encoding. */
  lemma {:induction false} NewestComes(parse: S.Content -> S.Data, seed: nat, events: seq<Event>, g: nat, gz: bool)
    requires var w := Run(parse, Start(seed), events);
             && Calm(w) && w.server.loop.Idle? && S.Served(w.server.book).Some? && g !in w.server.gets
             && w.viewer.page.requested != Some(w.server.book.version)
    ensures var w := Run(parse, Start(seed), events);
            var n := OneLoad(parse, w, g, gz);
            n.viewer.page.shown == S.Served(w.server.book) && n.viewer.page.latest == w.server.book.version && Calm(n)
  {
    var w := Run(parse, Start(seed), events);
    AlwaysAtRest(parse, seed, events);
    PingHandled(parse, w);
    var a := Step(parse, Step(parse, w, SendPing), TakePing);
    LoadTaken(parse, a, w.server.book.version, g);
    var b := Step(parse, Step(parse, a, TakeLoad), IssueLoad(g));
    GetServed(parse, b, g, w.server.book.version, gz);
    var s := Serve(S.GetStep(g, gz));
    var c := Step(parse, Step(parse, Step(parse, b, s), s), s);
    ReplyShown(parse, c, g, w.server.book.version, S.Served(w.server.book).value);
  }

  lemma {:induction false} AlwaysAtRest(parse: S.Content -> S.Data, seed: nat, events: seq<Event>)
    ensures G.OnTheWay(Run(parse, Start(seed), events).server)
  {
    if events != [] {
      var before, e := events[..|events| - 1], events[|events| - 1];
      AlwaysAtRest(parse, seed, before);
      ServerStep(parse, Run(parse, Start(seed), before), e);
    }
  }

  /** Each event is a step of the server or leaves it alone. */
  lemma ServerStep(parse: S.Content -> S.Data, w: World, e: Event)
    requires G.OnTheWay(w.server)
    ensures G.OnTheWay(Step(parse, w, e).server)
  {
    match e
    case Serve(e) => G.OnTheWayStep(parse, w.server, e);
    case IssueLoad(g) => if w.viewer.loading.Some? { G.OnTheWayStep(parse, w.server, S.Issue(g, w.viewer.loading.value)); }
    case _ =>
  }

  /** A load that fails on the way shows an error, keeps what is shown, and lets the next ping
      ask again. */
  lemma {:induction false} FailedLoadAllowsRetry(parse: S.Content -> S.Data, w: World, v: nat)
    requires w.viewer.loading == w.viewer.page.requested && w.viewer.loading.Some? && w.viewer.replies == []
    ensures var n := Step(parse, Step(parse, w, PostError), Page(V.Deliver));
            && n.viewer.page.failed && n.viewer.page.shown == w.viewer.page.shown
            && v in V.Step(n.viewer, V.Ping(v)).asked
  {
    var a := Step(parse, w, PostError);
    assert a.viewer.replies == [V.Reply(w.viewer.loading.value, None)];
  }
}
