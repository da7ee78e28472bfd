/** What a GET of the preview answers: the payload of the cache, in an encoding the client
    takes; and what the cache's records say of that payload. */
module PreviewGets {
  import opened Wrappers
  import opened Preview

  // ---- the records agree ----

  /** At rest the payload is there in exactly one encoding, or not at all, and both records
      of its file agree. */
  ghost predicate AtRest(b: Book) {
    && b.pending == b.lastFile && (Served(b).Some? <==> b.lastFile.Some?)
    && (b.bytes.None? || b.gz.None?)
  }

  /** Half way through its writes, the loop is on its way to such a state. */
  ghost predicate OnTheWay(s: Sys) {
    match s.loop
    case Idle => AtRest(s.book)
    case Publishing(id, job, k) =>
      && k < PUBLISH_WRITES
      && (k >= 1 ==> s.book.pending == Some(job.file) && s.book.bytes == if job.compressed then None else Some(job.pub))
      && (k >= 2 ==> s.book.gz == if job.compressed then Some(job.pub) else None)
      && (k >= 4 ==> s.book.lastFile == Some(job.file))
    case Clearing(k) =>
      && k < CLEAR_WRITES
      && (k >= 1 ==> s.book.pending == None && s.book.bytes == None) && (k >= 2 ==> s.book.gz == None)
  }

  lemma OnTheWayWrite(s: Sys)
    requires OnTheWay(s)
    ensures OnTheWay(OnWrite(s))
  {
  }

  lemma OnTheWayStep(parse: Content -> Data, s: Sys, e: Event)
    requires OnTheWay(s)
    ensures OnTheWay(Step(parse, s, e))
  {
    if e.LoopWrites? {
      OnTheWayWrite(s);
    }
  }

  /** Over every run, whenever the loop is idle, the file named for clients is the one the
      poller compares, and a payload is there exactly when one is named. */
  lemma {:induction false} RecordsAgree(parse: Content -> Data, seed: nat, events: seq<Event>)
    ensures OnTheWay(Run(parse, Start(seed), events))
    ensures Run(parse, Start(seed), events).loop.Idle? ==> AtRest(Run(parse, Start(seed), events).book)
  {
    if events != [] {
      RecordsAgree(parse, seed, events[..|events| - 1]);
      OnTheWayStep(parse, Run(parse, Start(seed), events[..|events| - 1]), events[|events| - 1]);
    }
  }

  // ---- an undisturbed GET ----

  function Fetch(g: nat, asked: nat, acceptsGzip: bool): seq<Event> {
    [Issue(g, asked)] + [GetStep(g, acceptsGzip)] + [GetStep(g, acceptsGzip)] + [GetStep(g, acceptsGzip)]
  }

  lemma OneGetStep(parse: Content -> Data, s: Sys, g: nat, acceptsGzip: bool)
    requires g in s.gets
    ensures Step(parse, s, GetStep(g, acceptsGzip)) == s.(gets := s.gets[g := NextGet(s.book, s.gets[g], acceptsGzip)])
  {
  }

  lemma ThreeSteps(b: Book, n: nat, acceptsGzip: bool)
    requires b.bytes.None? || b.gz.None?
    ensures NextGet(b, NextGet(b, NextGet(b, Issued(n), acceptsGzip), acceptsGzip), acceptsGzip) == Read(n, Served(b))
  {
  }

  /** A GET that meets no writes answers with the very payload of the cache, or none when
      there is none, whether the client takes gzip or not. */
  lemma {:induction false} GetReadsTheCache(parse: Content -> Data, seed: nat, events: seq<Event>, g: nat, asked: nat, acceptsGzip: bool)
    requires var s := Run(parse, Start(seed), events); s.loop.Idle? && g !in s.gets && asked <= s.book.version
    ensures var s := Run(parse, Start(seed), events);
            var n := Run(parse, s, Fetch(g, asked, acceptsGzip));
            g in n.gets && n.gets[g] == Read(asked, Served(s.book)) && n.book == s.book
  {
    RecordsAgree(parse, seed, events);
    var s := Run(parse, Start(seed), events);
    var a := Step(parse, s, Issue(g, asked));
    assert a == s.(gets := s.gets[g := Issued(asked)]);
    var b := Step(parse, a, GetStep(g, acceptsGzip));
    var d := Step(parse, b, GetStep(g, acceptsGzip));
    RunOne(parse, s, Issue(g, asked));
    RunSnoc(parse, s, [Issue(g, asked)], GetStep(g, acceptsGzip));
    RunSnoc(parse, s, [Issue(g, asked)] + [GetStep(g, acceptsGzip)], GetStep(g, acceptsGzip));
    RunSnoc(parse, s, [Issue(g, asked)] + [GetStep(g, acceptsGzip)] + [GetStep(g, acceptsGzip)], GetStep(g, acceptsGzip));
    OneGetStep(parse, a, g, acceptsGzip);
    OneGetStep(parse, b, g, acceptsGzip);
    OneGetStep(parse, d, g, acceptsGzip);
    ThreeSteps(s.book, asked, acceptsGzip);
  }

  lemma GzipStep(parse: Content -> Data, s: Sys, e: Event, g: nat)
    ensures var n := Step(parse, s, e);
            g in n.gets && n.gets[g].Picked? && n.gets[g].field.Gz? ==>
              e == GetStep(g, true) || (g in s.gets && s.gets[g].Picked? && s.gets[g].field.Gz?)
  {
  }

  /** The compressed bytes go only to a client that takes them. */
  lemma {:induction false} GzipOnlyWhenAccepted(parse: Content -> Data, seed: nat, events: seq<Event>, g: nat)
    ensures var s := Run(parse, Start(seed), events);
            g in s.gets && s.gets[g].Picked? && s.gets[g].field.Gz? ==> GetStep(g, true) in events
  {
    if events != [] {
      var before, e := events[..|events| - 1], events[|events| - 1];
      GzipOnlyWhenAccepted(parse, seed, before, g);
      GzipStep(parse, Run(parse, Start(seed), before), e, g);
      assert events == before + [e];
    }
  }

  /** And a client that takes them gets them when they are there. */
  lemma {:induction false} GzipWhenAccepted(parse: Content -> Data, s: Sys, g: nat, asked: nat)
    requires s.loop.Idle? && g !in s.gets && asked <= s.book.version && s.book.gz.Some?
    ensures var n := Run(parse, s, [Issue(g, asked)] + [GetStep(g, true)]); g in n.gets && n.gets[g] == Picked(asked, Gz)
  {
    RunOne(parse, s, Issue(g, asked));
    RunSnoc(parse, s, [Issue(g, asked)], GetStep(g, true));
  }

  // ---- loading ----

  /** Once the controller names a file that is there, and is not the one on record, a poll and
      one undisturbed refresh show it. */
  lemma {:induction false} LoadingShows(parse: Content -> Data, seed: nat, events: seq<Event>, f: Path, compressed: bool)
    requires var s := Run(parse, Start(seed), events); s.loop.Idle? && s.tasks == map[] && f in s.files && s.book.lastFile != Some(f)
    ensures var s := Step(parse, Run(parse, Start(seed), events), SetActive(Some(f)));
            UpToDate(parse, Run(parse, s, Reload(s.nextTask, compressed)), f)
  {
    AlwaysOrdered(parse, seed, events);
    ReloadConverges(parse, Step(parse, Run(parse, Start(seed), events), SetActive(Some(f))), f, compressed);
  }
}
