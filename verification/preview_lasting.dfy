/** How long a cache state lasts: an unloaded cache, and the preview of a file that was
    edited without its mtime moving. */
module PreviewLasting {
  import opened Wrappers
  import opened Preview
  import opened PreviewGets

  // ---- unloading ----

  /** Nobody loads a file. */
  ghost predicate Quiet(events: seq<Event>) { forall i :: 0 <= i < |events| ==> !events[i].SetActive? }

  function Unloading(): seq<Event> { [Unload] + Writes(4) }

  lemma {:induction false} UnloadEmpties(parse: Content -> Data, s: Sys)
    requires s.loop.Idle?
    ensures Run(parse, s, Unloading()) == s.(book := Cleared(s.book))
  {
    RunOne(parse, s, Unload);
    RunConcat(parse, s, [Unload], Writes(4));
    WritesClear(parse, s.(loop := Clearing(0)));
  }

  /** Empty, with nothing about to fill it. */
  ghost predicate Unfilled(s: Sys) {
    && s.tasks == map[] && s.active == None && !s.book.running && s.book.lastFile == None
    && Served(s.book).None? && !s.loop.Publishing?
  }

  lemma UnfilledStep(parse: Content -> Data, s: Sys, e: Event)
    requires Unfilled(s) && !e.SetActive?
    ensures Unfilled(Step(parse, s, e))
  {
  }

  lemma {:induction false} UnfilledStays(parse: Content -> Data, s: Sys, events: seq<Event>)
    requires Unfilled(s) && Quiet(events)
    ensures Unfilled(Run(parse, s, events))
  {
    if events != [] {
      UnfilledStays(parse, s, events[..|events| - 1]);
      UnfilledStep(parse, Run(parse, s, events[..|events| - 1]), events[|events| - 1]);
    }
  }

  function Finishing(id: nat): seq<Event> { [Finish(id, 0, true)] + Writes(5) }

  lemma ParsingFills(parse: Content -> Data, s: Sys, id: nat)
    requires s.loop.Idle? && id in s.tasks && s.tasks[id].Parsing?
    ensures Served(Run(parse, s, Finishing(id)).book).Some?
  {
    FinishThenWrite(parse, s, id, 0, true);
  }

  lemma ScheduledFills(parse: Content -> Data, s: Sys, id: nat)
    requires s.loop.Idle? && id in s.tasks && s.tasks[id].Scheduled?
    ensures Served(Run(parse, s, [Begin(id)] + Finishing(id)).book).Some?
  {
    RunOne(parse, s, Begin(id));
    RunConcat(parse, s, [Begin(id)], Finishing(id));
    ParsingFills(parse, Step(parse, s, Begin(id)), id);
  }

  lemma PollFills(parse: Content -> Data, s: Sys)
    requires s.loop.Idle? && s.active.Some? && s.book.lastFile == None && !s.book.running
    ensures Served(Run(parse, s, [Poll] + [Begin(s.nextTask)] + Finishing(s.nextTask)).book).Some?
  {
    var begin := [Poll] + [Begin(s.nextTask)];
    PollThenBegin(parse, s, s.active.value);
    RunConcat(parse, s, begin, Finishing(s.nextTask));
    ParsingFills(parse, Run(parse, s, begin), s.nextTask);
  }

  lemma WritesAreQuiet(n: nat)
    ensures Quiet(Writes(n))
  {
    if n > 0 { WritesAreQuiet(n - 1); }
  }

  ghost predicate StaysEmpty(parse: Content -> Data, s: Sys) {
    forall more :: Quiet(more) ==> Served(Run(parse, s, more).book).None?
  }

  /** A refresh in flight fills an unloaded cache, whether it has begun or not. */
  lemma TaskFills(parse: Content -> Data, s: Sys, id: nat)
    requires s.loop.Idle? && id in s.tasks
    ensures !StaysEmpty(parse, s)
  {
    WritesAreQuiet(5);
    if s.tasks[id].Parsing? {
      ParsingFills(parse, s, id);
      assert Quiet(Finishing(id));
    } else {
      ScheduledFills(parse, s, id);
      assert Quiet([Begin(id)] + Finishing(id));
    }
  }

  lemma ActiveFills(parse: Content -> Data, s: Sys)
    requires s.loop.Idle? && s.active.Some? && s.book.lastFile == None && !s.book.running
    ensures !StaysEmpty(parse, s)
  {
    WritesAreQuiet(5);
    PollFills(parse, s);
    assert Quiet([Poll] + [Begin(s.nextTask)] + Finishing(s.nextTask));
  }

  /** An unload lasts, through everything but a new load, if and only if the controller
      names no file and no refresh is in flight: the next poll would schedule that file
      again, and the refresh would publish over the unload. */
  lemma {:induction false} UnloadLastsExactlyWhen(parse: Content -> Data, seed: nat, events: seq<Event>)
    requires Run(parse, Start(seed), events).loop.Idle?
    ensures var s := Run(parse, Start(seed), events);
            var n := Run(parse, s, Unloading());
            && Served(n.book).None? && n.book.version == s.book.version + 1
            && (StaysEmpty(parse, n) <==> s.active == None && s.tasks == map[])
  {
    AlwaysOrdered(parse, seed, events);
    var s := Run(parse, Start(seed), events);
    UnloadEmpties(parse, s);
    var n := Run(parse, s, Unloading());
    if s.tasks != map[] {
      var id :| id in s.tasks;
      TaskFills(parse, n, id);
    } else if s.active.Some? {
      ActiveFills(parse, n);
    } else {
      forall more | Quiet(more) ensures Served(Run(parse, n, more).book).None? {
        UnfilledStays(parse, n, more);
      }
    }
  }

  // ---- editing without moving the mtime ----

  /** The file f is left alone and nobody loads or unloads; browsers may come and go. */
  predicate LeavesAlone(e: Event, f: Path) {
    match e
    case Edit(g, _, _) => g != f
    case Delete(g) => g != f
    case SetActive(_) => false
    case Unload => false
    case _ => true
  }

  ghost predicate AllLeaveAlone(events: seq<Event>, f: Path) {
    forall i :: 0 <= i < |events| ==> LeavesAlone(events[i], f)
  }

  /** At rest with f as recorded. */
  ghost predicate Settled(s: Sys, b: Book, f: Path) {
    && s.book == b && s.loop.Idle? && s.tasks == map[] && !b.running
    && s.active == Some(f) && b.lastFile == Some(f) && f in s.files && b.lastMtime == MtimeOf(s.files, f) && Holds(b, f)
  }

  lemma NothingSoiled(g: Path)
    ensures SoilAll(map[], g) == map[]
  {
  }

  lemma SettledStep(parse: Content -> Data, s: Sys, b: Book, f: Path, e: Event)
    requires Settled(s, b, f) && LeavesAlone(e, f)
    ensures Settled(Step(parse, s, e), b, f)
  {
    match e
    case Edit(g, m, c) => NothingSoiled(g);
    case Delete(g) => NothingSoiled(g);
    case _ =>
  }

  lemma {:induction false} SettledStays(parse: Content -> Data, s: Sys, b: Book, f: Path, events: seq<Event>)
    requires Settled(s, b, f) && AllLeaveAlone(events, f)
    ensures Settled(Run(parse, s, events), b, f)
  {
    if events != [] {
      SettledStays(parse, s, b, f, events[..|events| - 1]);
      SettledStep(parse, Run(parse, s, events[..|events| - 1]), b, f, events[|events| - 1]);
    }
  }

  ghost predicate Shows(b: Book, d: Data) { Served(b).Some? && Served(b).value.data == d }

  /** Left alone, some continuation comes to serve the data d. */
  ghost predicate ComesToShow(parse: Content -> Data, s: Sys, f: Path, d: Data) {
    exists more :: AllLeaveAlone(more, f) && Shows(Run(parse, s, more).book, d)
  }

  lemma ReloadShows(parse: Content -> Data, s: Sys, f: Path)
    requires s.loop.Idle? && s.tasks == map[] && s.active == Some(f) && f in s.files
    requires Decide(s.book, s.active, s.files) == Refresh(f)
    ensures ComesToShow(parse, s, f, parse(s.files[f].content))
  {
    ReloadConverges(parse, s, f, true);
    var more := Reload(s.nextTask, true);
    WritesLeaveAlone(5, f);
    assert AllLeaveAlone(more, f) && Shows(Run(parse, s, more).book, parse(s.files[f].content));
  }

  lemma WritesLeaveAlone(n: nat, f: Path)
    ensures AllLeaveAlone(Writes(n), f)
  {
    if n > 0 { WritesLeaveAlone(n - 1, f); }
  }

  /** After an edit that changes the preview of an up-to-date file, in any run's state with
      no refresh in flight, the new preview ever comes, with the file left alone and
      nobody loading, if and only if the edit moved the mtime; otherwise no such
      continuation, however long, changes anything in the cache, not for a browser that
      joins either. */
  lemma {:induction false} EditShownExactlyWhenMtimeMoves(parse: Content -> Data, seed: nat, events: seq<Event>,
                                                         f: Path, m: Mtime, c: Content)
    requires var s := Run(parse, Start(seed), events);
             UpToDate(parse, s, f) && s.tasks == map[] && parse(c) != parse(s.files[f].content)
    ensures var s := Run(parse, Start(seed), events);
            var n := Step(parse, s, Edit(f, m, c));
            && (ComesToShow(parse, n, f, parse(c)) <==> m != s.files[f].mtime)
            && (m == s.files[f].mtime ==> forall more :: AllLeaveAlone(more, f) ==> Run(parse, n, more).book == s.book)
  {
    AlwaysOrdered(parse, seed, events);
    RecordsAgree(parse, seed, events);
    var s := Run(parse, Start(seed), events);
    var n := Step(parse, s, Edit(f, m, c));
    assert n.tasks == map[] && n.book == s.book && n.files[f] == File(m, c) && !s.book.running;
    if m != s.files[f].mtime {
      ReloadShows(parse, n, f);
    } else {
      forall more | AllLeaveAlone(more, f) ensures Run(parse, n, more).book == s.book {
        SettledStays(parse, n, s.book, f, more);
      }
    }
  }

  lemma JoinThenBegin(parse: Content -> Data, s: Sys, f: Path)
    requires s.loop.Idle? && !s.book.running && s.tasks == map[] && s.active == Some(f) && !Holds(s.book, f)
    ensures Run(parse, s, [Join] + [Begin(s.nextTask)]) ==
            s.(book := s.book.(running := true), nextTask := s.nextTask + 1,
               tasks := map[s.nextTask := Parsing(f, MtimeOf(s.files, f), false)])
  {
    var id, n := s.nextTask, Schedule(s, f);
    assert Step(parse, s, Join) == n && n.tasks == map[id := Scheduled(f)];
    RunOne(parse, s, Join);
    RunSnoc(parse, s, [Join], Begin(id));
    BeginParses(parse, n, id);
  }

  /** From every run's state at rest, a browser that joins finds the active file in the cache,
      or its joining starts the refresh that leaves the cache up to date with it. */
  lemma {:induction false} JoiningLoads(parse: Content -> Data, seed: nat, events: seq<Event>, f: Path, compressed: bool)
    requires var s := Run(parse, Start(seed), events); s.loop.Idle? && s.tasks == map[] && s.active == Some(f) && f in s.files
    ensures var s := Run(parse, Start(seed), events);
            if Holds(s.book, f) then Step(parse, s, Join) == s
            else UpToDate(parse, Run(parse, s, [Join] + [Begin(s.nextTask)] + ([Finish(s.nextTask, 0, compressed)] + Writes(5))), f)
  {
    AlwaysOrdered(parse, seed, events);
    var s := Run(parse, Start(seed), events);
    if !Holds(s.book, f) {
      var id := s.nextTask;
      JoinThenBegin(parse, s, f);
      var begun := Run(parse, s, [Join] + [Begin(id)]);
      RunConcat(parse, s, [Join] + [Begin(id)], [Finish(id, 0, compressed)] + Writes(5));
      FinishThenWrite(parse, begun, id, 0, compressed);
    }
  }
}
