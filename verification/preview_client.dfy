/** The browser's side of the preview: the page asks a worker for a payload once per
    version ping, the worker gives up a load when the next request reaches it, and the
    page drops every reply but the one for the version it asked for last. */
module PreviewClient {
  import opened Wrappers
  import Preview

  /** The page: `latest` is the last version pinged, `requested` the one last asked for
      (None after a failure). */
  datatype Page = Page(latest: nat, requested: Option<nat>, shown: Option<Preview.Pub>, failed: bool)

  /** The payload of some publication, or None for an error. */
  datatype Reply = Reply(version: nat, body: Option<Preview.Pub>)

  /** `asked` are the requests on their way to the worker, `loading` the one it is at, and
      `replies` those on their way back. */
  datatype Viewer = Viewer(page: Page, asked: seq<nat>, loading: Option<nat>, replies: seq<Reply>)

  datatype Event =
    | Ping(version: nat)
    | Emptied
    | Crashed
    | Take
    | Post(body: Option<Preview.Pub>)
    | Deliver

  const BLANK_PAGE := Page(0, None, None, false)
  const BLANK := Viewer(BLANK_PAGE, [], None, [])

  function OnPing(p: Page, v: nat): Page { p.(latest := v, requested := Some(v)) }

  function OnReply(p: Page, r: Reply): Page {
    if p.requested != Some(r.version) then p
    else if r.body.None? then p.(requested := None, failed := true)
    else p.(shown := r.body, failed := false)
  }

  function Step(s: Viewer, e: Event): Viewer {
    match e
    case Ping(v) =>
      s.(page := OnPing(s.page, v), asked := if s.page.requested == Some(v) then s.asked else s.asked + [v])
    case Emptied => s.(page := s.page.(shown := None))
    case Crashed => s.(page := s.page.(requested := None, failed := true))
    case Take => if s.asked == [] then s else s.(asked := s.asked[1..], loading := Some(s.asked[0]))
    case Post(body) =>
      if s.loading.None? then s else s.(loading := None, replies := s.replies + [Reply(s.loading.value, body)])
    case Deliver => if s.replies == [] then s else s.(page := OnReply(s.page, s.replies[0]), replies := s.replies[1..])
  }

  function Run(s: Viewer, events: seq<Event>): Viewer {
    if events == [] then s else Step(Run(s, events[..|events| - 1]), events[|events| - 1])
  }

  class PreviewLoader {
    var latest: nat
    var lastVersion: Option<nat>
    var viewerGcode: Option<Preview.Pub>
    var previewErr: bool
    var posted: seq<nat>

    constructor ()
      ensures View() == BLANK_PAGE && posted == []
    {
      latest, lastVersion, viewerGcode, previewErr, posted := 0, None, None, false, [];
    }

    function View(): Page
      reads this
    {
      Page(latest, lastVersion, viewerGcode, previewErr)
    }

    /** `posted` collects the messages to the worker. */
    method FetchPreview(version: nat)
      modifies this
      ensures View() == OnPing(old(View()), version)
      ensures posted == if old(lastVersion) == Some(version) then old(posted) else old(posted) + [version]
    {
      latest := version;
      if lastVersion == Some(version) { return; }
      lastVersion := Some(version);
      posted := posted + [version];
    }

    method OnEmptied()
      modifies this
      ensures View() == old(View()).(shown := None) && posted == old(posted)
    {
      viewerGcode := None;
    }

    method OnWorkerReply(version: nat, body: Option<Preview.Pub>)
      modifies this
      ensures View() == OnReply(old(View()), Reply(version, body)) && posted == old(posted)
    {
      if lastVersion != Some(version) { return; }
      if body.None? {
        previewErr, lastVersion := true, None;
        return;
      }
      viewerGcode, previewErr := body, false;
    }

    method OnWorkerError()
      modifies this
      ensures View() == old(View()).(requested := None, failed := true) && posted == old(posted)
    {
      previewErr, lastVersion := true, None;
    }
  }

  // ---- only the latest is shown ----

  ghost predicate Inv(s: Viewer) { s.page.requested.Some? ==> s.page.requested.value == s.page.latest }

  lemma {:induction false} AsksForLatest(events: seq<Event>)
    ensures Inv(Run(BLANK, events))
  {
    if events != [] {
      AsksForLatest(events[..|events| - 1]);
    }
  }

  /** In every run a payload comes on the screen only in reply to a request for the latest
      version pinged. */
  lemma {:induction false} OnlyLatestIsShown(events: seq<Event>, e: Event)
    ensures var s := Run(BLANK, events);
            var n := Step(s, e);
            n.page.shown != s.page.shown && n.page.shown.Some? ==>
              && e.Deliver? && s.replies != [] && s.replies[0].version == s.page.latest
              && n.page.shown == s.replies[0].body
  {
    AsksForLatest(events);
  }

  // ---- how long an emptied viewer stays empty ----

  ghost predicate NoPing(events: seq<Event>) { forall i :: 0 <= i < |events| ==> !events[i].Ping? }

  /** The first reply on its way for v. */
  function FirstFor(replies: seq<Reply>, v: nat): Option<Reply> {
    if replies == [] then None else if replies[0].version == v then Some(replies[0]) else FirstFor(replies[1..], v)
  }

  /** The version last asked for can still be answered with a payload: it is the first
      reply for it on its way, or none is and the request is with the worker and has not
      been given up. */
  predicate Answerable(s: Viewer) {
    s.page.requested.Some? &&
    var v := s.page.requested.value;
    match FirstFor(s.replies, v)
    case Some(r) => r.body.Some?
    case None => s.loading == Some(v) || v in s.asked
  }

  lemma {:induction false} FirstForSnoc(replies: seq<Reply>, r: Reply, v: nat)
    ensures FirstFor(replies + [r], v) ==
            if FirstFor(replies, v).Some? then FirstFor(replies, v) else if r.version == v then Some(r) else None
  {
    if replies == [] {
      assert replies + [r] == [r] && FirstFor([r][1..], v) == None;
    } else {
      assert (replies + [r])[1..] == replies[1..] + [r];
      FirstForSnoc(replies[1..], r, v);
    }
  }

  ghost predicate Blank(s: Viewer) { s.page.shown == None && !Answerable(s) }

  lemma BlankStep(s: Viewer, e: Event)
    requires Blank(s) && !e.Ping?
    ensures Blank(Step(s, e))
  {
    match e
    case Post(body) =>
      if s.loading.Some? && s.page.requested.Some? {
        FirstForSnoc(s.replies, Reply(s.loading.value, body), s.page.requested.value);
      }
    case _ =>
  }

  lemma {:induction false} StaysBlank(s: Viewer, events: seq<Event>)
    requires Blank(s) && NoPing(events)
    ensures Blank(Run(s, events))
  {
    if events != [] {
      StaysBlank(s, events[..|events| - 1]);
      BlankStep(Run(s, events[..|events| - 1]), events[|events| - 1]);
    }
  }

  lemma RunSnoc(s: Viewer, events: seq<Event>, e: Event)
    ensures Run(s, events + [e]) == Step(Run(s, events), e)
  {
    assert (events + [e])[..|events|] == events;
  }

  lemma {:induction false} RunCons(s: Viewer, e: Event, events: seq<Event>)
    ensures Run(s, [e] + events) == Run(Step(s, e), events)
  {
    if events == [] {
      assert [e] + events == [e] && [e][..0] == [];
    } else {
      RunCons(s, e, events[..|events| - 1]);
      assert ([e] + events)[..|events|] == [e] + events[..|events| - 1];
    }
  }

  /** Delivering the replies up to the first for the version asked for. */
  lemma {:induction false} DeliverUntil(s: Viewer) returns (more: seq<Event>)
    requires s.page.requested.Some? && FirstFor(s.replies, s.page.requested.value).Some?
    requires FirstFor(s.replies, s.page.requested.value).value.body.Some?
    ensures NoPing(more) && Run(s, more).page.shown.Some?
    decreases |s.replies|
  {
    var n := Step(s, Deliver);
    if s.replies[0].version == s.page.requested.value {
      more := [Deliver] + [];
      RunCons(s, Deliver, []);
    } else {
      var rest := DeliverUntil(n);
      more := [Deliver] + rest;
      RunCons(s, Deliver, rest);
    }
  }

  lemma {:induction false} PostThenDeliver(s: Viewer) returns (more: seq<Event>)
    requires s.page.requested.Some? && s.loading == s.page.requested
    requires FirstFor(s.replies, s.page.requested.value) == None
    ensures NoPing(more) && Run(s, more).page.shown.Some?
  {
    var v := s.page.requested.value;
    var body := Some(Preview.Pub(v, 0));
    FirstForSnoc(s.replies, Reply(v, body), v);
    var rest := DeliverUntil(Step(s, Post(body)));
    more := [Post(body)] + rest;
    RunCons(s, Post(body), rest);
  }

  lemma {:induction false} TakeUntil(s: Viewer) returns (more: seq<Event>)
    requires s.page.requested.Some? && s.page.requested.value in s.asked
    requires FirstFor(s.replies, s.page.requested.value) == None
    ensures NoPing(more) && Run(s, more).page.shown.Some?
    decreases |s.asked|
  {
    var n := Step(s, Take);
    var rest;
    if s.asked[0] == s.page.requested.value {
      rest := PostThenDeliver(n);
    } else {
      rest := TakeUntil(n);
    }
    more := [Take] + rest;
    RunCons(s, Take, rest);
  }

  lemma CanBeAnswered(s: Viewer) returns (more: seq<Event>)
    requires Answerable(s)
    ensures NoPing(more) && Run(s, more).page.shown.Some?
  {
    var v := s.page.requested.value;
    if FirstFor(s.replies, v).Some? {
      more := DeliverUntil(s);
    } else if s.loading == Some(v) {
      more := PostThenDeliver(s);
    } else {
      more := TakeUntil(s);
    }
  }

  /** An emptied viewer stays empty until the next ping if and only if the version last
      asked for can no longer be answered: emptying does not withdraw the request, and
      one the worker has given up never replies. */
  lemma {:induction false} EmptiedStaysEmptyExactlyWhen(s: Viewer)
    ensures var n := Step(s, Emptied);
            (forall more :: NoPing(more) ==> Run(n, more).page.shown == None) <==> !Answerable(s)
  {
    var n := Step(s, Emptied);
    assert Answerable(n) == Answerable(s);
    if Answerable(s) {
      var late := CanBeAnswered(n);
    } else {
      forall more | NoPing(more) ensures Run(n, more).page.shown == None {
        StaysBlank(n, more);
      }
    }
  }

  // ---- asking, once and again ----

  /** A ping for a version asks for it unless it was the one asked for last: with no reply
      for it on its way it can then be answered, and a repeated ping changes nothing. */
  lemma {:induction false} PingAsksOnce(s: Viewer, v: nat)
    ensures Step(Step(s, Ping(v)), Ping(v)) == Step(s, Ping(v))
    ensures Step(s, Ping(v)).page.latest == v && Step(s, Ping(v)).page.requested == Some(v)
    ensures s.page.requested != Some(v) ==> |Step(s, Ping(v)).asked| == |s.asked| + 1
    ensures s.page.requested != Some(v) && FirstFor(s.replies, v) == None ==> Answerable(Step(s, Ping(v)))
  {
  }

  /** A failed page asks again at the next ping, for whatever version. */
  lemma {:induction false} FailureAllowsRetry(s: Viewer, v: nat)
    ensures v in Step(Step(s, Crashed), Ping(v)).asked
    ensures s.replies != [] && s.replies[0].body.None? && s.page.requested == Some(s.replies[0].version) ==>
              v in Step(Step(s, Deliver), Ping(v)).asked
  {
  }

  /** The worker answers each load once. */
  lemma {:induction false} PostsOnce(s: Viewer, a: Option<Preview.Pub>, b: Option<Preview.Pub>)
    ensures Step(Step(s, Post(a)), Post(b)) == Step(s, Post(a))
    ensures s.loading.Some? ==> |Step(s, Post(a)).replies| == |s.replies| + 1
  {
  }

  /** An event that decides whether an error is shown, and how: a crash, or the reply the
      page waits for. */
  function Outcome(s: Viewer, e: Event): Option<bool> {
    if e.Crashed? then Some(true)
    else if e.Deliver? && s.replies != [] && s.page.requested == Some(s.replies[0].version)
    then Some(s.replies[0].body == None)
    else None
  }

  function LastOutcome(events: seq<Event>): bool {
    if events == [] then false
    else
      var before, e := events[..|events| - 1], events[|events| - 1];
      match Outcome(Run(BLANK, before), e)
      case Some(failed) => failed
      case None => LastOutcome(before)
  }

  /** Over every run the error shows exactly when the last thing to decide it failed. */
  lemma {:induction false} ErrorIsLastOutcome(events: seq<Event>)
    ensures Run(BLANK, events).page.failed <==> LastOutcome(events)
  {
    if events != [] {
      ErrorIsLastOutcome(events[..|events| - 1]);
    }
  }
}
