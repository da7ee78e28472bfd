/** Publication of parsed previews: a single-flight refresh with an mtime snapshot, the
    poller that triggers it, unloads, concurrent edits on disk, and GET requests that
    read the cache from other threads while the loop writes it. */
module Preview {
  import opened Wrappers

  type Path = string
  type Mtime = int
  type Content = int
  type Data = int

  /** Payload bytes, tagged with the version their publication gets. */
  datatype Pub = Pub(no: nat, data: Data)

  /** The pipeline's preview fields. */
  datatype Book = Book(pending: Option<Path>, bytes: Option<Pub>, gz: Option<Pub>, version: nat,
                       lastFile: Option<Path>, lastMtime: Option<Mtime>, running: bool)

  datatype Job = Job(file: Path, mtime: Option<Mtime>, pub: Pub, compressed: bool)

  const PUBLISH_WRITES := 5
  const CLEAR_WRITES := 4

  /** The writes of a publication, in program order: payload fields, then the version,
      then what the poller compares. */
  function PublishWrite(b: Book, j: Job, k: nat): Book {
    match k
    case 0 => b.(pending := Some(j.file), bytes := if j.compressed then None else Some(j.pub))
    case 1 => b.(gz := if j.compressed then Some(j.pub) else None)
    case 2 => b.(version := b.version + 1)
    case 3 => b.(lastFile := Some(j.file))
    case _ => b.(lastMtime := j.mtime, running := false)
  }

  function ClearWrite(b: Book, k: nat): Book {
    match k
    case 0 => b.(pending := None, bytes := None)
    case 1 => b.(gz := None)
    case 2 => b.(version := b.version + 1)
    case _ => b.(lastFile := None, lastMtime := None)
  }

  function Published(b: Book, j: Job): Book {
    PublishWrite(PublishWrite(PublishWrite(PublishWrite(PublishWrite(b, j, 0), j, 1), j, 2), j, 3), j, 4)
  }

  function Cleared(b: Book): Book { ClearWrite(ClearWrite(ClearWrite(ClearWrite(b, 0), 1), 2), 3) }

  datatype File = File(mtime: Mtime, content: Content)

  /** What a poll of the active file decides. */
  datatype Decision = Refresh(file: Path) | Clear | Nothing

  function Decide(b: Book, active: Option<Path>, files: map<Path, File>): Decision {
    match active
    case None => if b.lastFile.Some? then Clear else Nothing
    case Some(f) =>
      var current := if f in files then Some(files[f].mtime) else b.lastMtime;
      if (b.lastFile != active || current != b.lastMtime) && !b.running then Refresh(f) else Nothing
  }

  class BulkPipeline {
    var previewPending: Option<Path>
    var previewBytes: Option<Pub>
    var previewBytesGz: Option<Pub>
    var previewVersion: nat
    var lastFile: Option<Path>
    var lastMtime: Option<Mtime>
    var refreshRunning: bool

    constructor (seed: nat)
      ensures View() == Book(None, None, None, seed, None, None, false)
    {
      previewPending, previewBytes, previewBytesGz, previewVersion := None, None, None, seed;
      lastFile, lastMtime, refreshRunning := None, None, false;
    }

    function View(): Book
      reads this
    {
      Book(previewPending, previewBytes, previewBytesGz, previewVersion, lastFile, lastMtime, refreshRunning)
    }

    method ClearPreview()
      modifies this
      ensures View() == Cleared(old(View()))
    {
      previewPending := None;
      previewBytes := None;
      previewBytesGz := None;
      previewVersion := previewVersion + 1;
      lastFile := None;
      lastMtime := None;
    }

    /** The poller's check; a refresh is scheduled with the flag already set. */
    method Poll(active: Option<Path>, files: map<Path, File>) returns (d: Decision)
      modifies this
      ensures d == Decide(old(View()), active, files)
      ensures View() == match d
                        case Refresh(_) => old(View()).(running := true)
                        case Clear => Cleared(old(View()))
                        case Nothing => old(View())
    {
      d := Nothing;
      if active.Some? {
        var f := active.value;
        var current := if f in files then Some(files[f].mtime) else lastMtime;
        if (active != lastFile || current != lastMtime) && !refreshRunning {
          refreshRunning := true;
          d := Refresh(f);
        }
      } else if lastFile.Some? {
        ClearPreview();
        d := Clear;
      }
    }

    /** The end of a refresh: None when the parse failed. */
    method FinishRefresh(file: Path, mtime: Option<Mtime>, output: Option<Data>, compressed: bool)
      modifies this
      ensures output.None? ==> View() == old(View()).(running := false)
      ensures output.Some? ==>
        View() == Published(old(View()), Job(file, mtime, Pub(old(previewVersion) + 1, output.value), compressed))
    {
      if output.Some? {
        var pub := Pub(previewVersion + 1, output.value);
        previewPending := Some(file);
        previewBytes := if compressed then None else Some(pub);
        previewBytesGz := if compressed then Some(pub) else None;
        previewVersion := previewVersion + 1;
        lastFile := Some(file);
        lastMtime := mtime;
      }
      refreshRunning := false;
    }
  }

  // ---- the system around it ----

  /** A refresh task: not begun, or parsing since its snapshot of the mtime; `dirty` once
      the file has changed on disk after the snapshot. */
  datatype Task = Scheduled(file: Path) | Parsing(file: Path, mtime: Option<Mtime>, dirty: bool)

  /** What the event loop is in the middle of. */
  datatype Loop = Idle | Publishing(id: nat, job: Job, k: nat) | Clearing(k: nat)

  /** A GET, issued after the client saw version `asked`; it picks a field, then reads
      it.  The body is None when the field was emptied in between. */
  datatype Field = Gz | Raw | Unzipped
  datatype Get = Issued(asked: nat) | NoGz(asked: nat) | Picked(asked: nat, field: Field) | Read(asked: nat, body: Option<Pub>)

  datatype Sys = Sys(book: Book, loop: Loop, tasks: map<nat, Task>, nextTask: nat,
                     files: map<Path, File>, used: set<Mtime>, active: Option<Path>, gets: map<nat, Get>)

  /** `Join`: a browser connects and is told of the active file's preview, which is parsed
      first unless the cache holds it. */
  datatype Event =
    | Edit(f: Path, mtime: Mtime, content: Content)
    | Delete(f: Path)
    | SetActive(active: Option<Path>)
    | Poll
    | Join
    | Unload
    | Begin(id: nat)
    | Fail(id: nat)
    | Finish(id: nat, garbage: Data, compressed: bool)
    | LoopWrites
    | Issue(g: nat, asked: nat)
    | GetStep(g: nat, acceptsGzip: bool)

  function Start(seed: nat): Sys {
    Sys(Book(None, None, None, seed, None, None, false), Idle, map[], 0, map[], {}, None, map[])
  }

  function Soiled(t: Task, f: Path): Task { if t.Parsing? && t.file == f then t.(dirty := true) else t }

  function SoilAll(tasks: map<nat, Task>, f: Path): map<nat, Task> { map id | id in tasks :: Soiled(tasks[id], f) }

  function Schedule(s: Sys, f: Path): Sys {
    s.(book := s.book.(running := true), tasks := s.tasks[s.nextTask := Scheduled(f)], nextTask := s.nextTask + 1)
  }

  /** The payload a GET is answered with. */
  function Served(b: Book): Option<Pub> { if b.gz.Some? then b.gz else b.bytes }

  predicate Holds(b: Book, f: Path) { b.pending == Some(f) && Served(b).Some? }

  function MtimeOf(files: map<Path, File>, f: Path): Option<Mtime> { if f in files then Some(files[f].mtime) else None }

  /** The worker's output: the parse of the file, unless the file changed under it. */
  function Output(parse: Content -> Data, s: Sys, t: Task, garbage: Data): Data {
    if t.Parsing? && !t.dirty && t.file in s.files then parse(s.files[t.file].content) else garbage
  }

  function OnFinish(parse: Content -> Data, s: Sys, id: nat, garbage: Data, compressed: bool): Sys
    requires id in s.tasks && s.tasks[id].Parsing?
  {
    var t := s.tasks[id];
    var pub := Pub(s.book.version + 1, Output(parse, s, t, garbage));
    s.(loop := Publishing(id, Job(t.file, t.mtime, pub, compressed), 0))
  }

  function OnWrite(s: Sys): Sys {
    match s.loop
    case Idle => s
    case Publishing(id, job, k) =>
      var b := PublishWrite(s.book, job, k);
      if k + 1 < PUBLISH_WRITES then s.(book := b, loop := Publishing(id, job, k + 1))
      else s.(book := b, loop := Idle, tasks := s.tasks - {id})
    case Clearing(k) =>
      s.(book := ClearWrite(s.book, k), loop := if k + 1 < CLEAR_WRITES then Clearing(k + 1) else Idle)
  }

  function NextGet(b: Book, g: Get, acceptsGzip: bool): Get {
    match g
    case Issued(n) => if acceptsGzip && b.gz.Some? then Picked(n, Gz) else NoGz(n)
    case NoGz(n) => Picked(n, if b.bytes.Some? then Raw else Unzipped)
    case Picked(n, field) => Read(n, if field.Raw? then b.bytes else b.gz)
    case Read(_, _) => g
  }

  function Step(parse: Content -> Data, s: Sys, e: Event): Sys {
    match e
    case Edit(f, m, c) =>
      s.(files := s.files[f := File(m, c)], used := s.used + {m}, tasks := SoilAll(s.tasks, f))
    case Delete(f) => s.(files := s.files - {f}, tasks := SoilAll(s.tasks, f))
    case SetActive(active) => s.(active := active)
    case Poll =>
      if !s.loop.Idle? then s
      else
        (match Decide(s.book, s.active, s.files)
         case Refresh(f) => Schedule(s, f)
         case Clear => s.(loop := Clearing(0))
         case Nothing => s)
    case Join => if s.loop.Idle? && s.active.Some? && !Holds(s.book, s.active.value) && !s.book.running then Schedule(s, s.active.value) else s
    case Unload => if s.loop.Idle? then s.(loop := Clearing(0)) else s
    case Begin(id) =>
      if s.loop.Idle? && id in s.tasks && s.tasks[id].Scheduled?
      then s.(tasks := s.tasks[id := Parsing(s.tasks[id].file, MtimeOf(s.files, s.tasks[id].file), false)]) else s
    case Fail(id) =>
      if s.loop.Idle? && id in s.tasks then s.(tasks := s.tasks - {id}, book := s.book.(running := false)) else s
    case Finish(id, garbage, compressed) =>
      if s.loop.Idle? && id in s.tasks && s.tasks[id].Parsing? then OnFinish(parse, s, id, garbage, compressed) else s
    case LoopWrites => OnWrite(s)
    case Issue(g, asked) =>
      if s.loop.Idle? && g !in s.gets && asked <= s.book.version then s.(gets := s.gets[g := Issued(asked)]) else s
    case GetStep(g, acceptsGzip) =>
      if g in s.gets then s.(gets := s.gets[g := NextGet(s.book, s.gets[g], acceptsGzip)]) else s
  }

  function Run(parse: Content -> Data, s: Sys, events: seq<Event>): Sys {
    if events == [] then s else Step(parse, Run(parse, s, events[..|events| - 1]), events[|events| - 1])
  }

  // ---- single flight, versions and GETs: every run ----

  /** At most one refresh is in flight, and the flag says whether there is one. */
  ghost predicate SingleFlight(s: Sys) {
    && (forall a, b :: a in s.tasks && b in s.tasks ==> a == b)
    && (s.book.running <==> exists id :: id in s.tasks)
    && (s.loop.Publishing? ==> s.loop.id in s.tasks && s.tasks[s.loop.id].Parsing?)
  }

  lemma FlightStep(parse: Content -> Data, s: Sys, e: Event)
    requires SingleFlight(s)
    ensures SingleFlight(Step(parse, s, e))
  {
    var n := Step(parse, s, e);
    if s.book.running {
      var id :| id in s.tasks;
      assert id in n.tasks || !n.book.running;
    } else {
      assert s.nextTask in n.tasks || !n.book.running;
    }
  }

  predicate FieldOk(p: Option<Pub>, lo: nat, hi: nat) { p.Some? ==> lo <= p.value.no <= hi }

  /** The cached payload carries the current version; during a publication the next one
      may already be in place. */
  ghost predicate Stamped(s: Sys) {
    match s.loop
    case Idle => FieldOk(s.book.bytes, s.book.version, s.book.version) && FieldOk(s.book.gz, s.book.version, s.book.version)
    case Publishing(id, job, k) =>
      && k < PUBLISH_WRITES
      && job.pub.no == s.book.version + (if k <= 2 then 1 else 0)
      && (if k == 0 then FieldOk(s.book.bytes, s.book.version, s.book.version)
          else s.book.bytes == if job.compressed then None else Some(job.pub))
      && (if k <= 1 then FieldOk(s.book.gz, s.book.version, s.book.version)
          else s.book.gz == if job.compressed then Some(job.pub) else None)
    case Clearing(k) =>
      && k < CLEAR_WRITES
      && (if k == 0 then FieldOk(s.book.bytes, s.book.version, s.book.version) else s.book.bytes == None)
      && (if k <= 1 then FieldOk(s.book.gz, s.book.version, s.book.version) else s.book.gz == None)
  }

  lemma StampedWrite(s: Sys)
    requires Stamped(s)
    ensures Stamped(OnWrite(s)) && s.book.version <= OnWrite(s).book.version <= s.book.version + 1
  {
  }

  /** Versions only grow, one at a time. */
  lemma {:induction false} StampedStep(parse: Content -> Data, s: Sys, e: Event)
    requires Stamped(s)
    ensures Stamped(Step(parse, s, e))
    ensures s.book.version <= Step(parse, s, e).book.version <= s.book.version + 1
  {
    if e.LoopWrites? {
      StampedWrite(s);
    }
  }

  ghost predicate GetOk(g: Get, version: nat) {
    g.asked <= version && (g.Read? && g.body.Some? ==> g.body.value.no >= g.asked)
  }

  ghost predicate GetsOk(s: Sys) { forall g :: g in s.gets ==> GetOk(s.gets[g], s.book.version) }

  lemma GetsStep(parse: Content -> Data, s: Sys, e: Event)
    requires Stamped(s) && GetsOk(s)
    ensures GetsOk(Step(parse, s, e))
  {
    StampedStep(parse, s, e);
    var n := Step(parse, s, e);
    forall g | g in n.gets ensures GetOk(n.gets[g], n.book.version) {
      if g in s.gets {
        assert GetOk(s.gets[g], s.book.version);
      }
    }
  }

  lemma {:induction false} AlwaysOrdered(parse: Content -> Data, seed: nat, events: seq<Event>)
    ensures var s := Run(parse, Start(seed), events); SingleFlight(s) && Stamped(s) && GetsOk(s)
  {
    if events != [] {
      AlwaysOrdered(parse, seed, events[..|events| - 1]);
      var s, e := Run(parse, Start(seed), events[..|events| - 1]), events[|events| - 1];
      FlightStep(parse, s, e);
      StampedStep(parse, s, e);
      GetsStep(parse, s, e);
    }
  }

  /** A GET issued after the client saw version n never returns an older payload. */
  lemma {:induction false} GetIsNeverStale(parse: Content -> Data, seed: nat, events: seq<Event>, g: nat)
    ensures var s := Run(parse, Start(seed), events);
            g in s.gets && s.gets[g].Read? && s.gets[g].body.Some? ==> s.gets[g].body.value.no >= s.gets[g].asked
  {
    AlwaysOrdered(parse, seed, events);
    var s := Run(parse, Start(seed), events);
    if g in s.gets {
      assert GetOk(s.gets[g], s.book.version);
    }
  }

  /** Over every run at most one refresh is in flight, and the flag is never stuck. */
  lemma {:induction false} OneRefresh(parse: Content -> Data, seed: nat, events: seq<Event>, a: nat, b: nat)
    ensures var s := Run(parse, Start(seed), events);
            (a in s.tasks && b in s.tasks ==> a == b) && (s.book.running <==> s.tasks != map[])
  {
    AlwaysOrdered(parse, seed, events);
    var s := Run(parse, Start(seed), events);
    if s.tasks != map[] {
      var id :| id in s.tasks;
    }
  }

  lemma {:induction false} VersionsGrowFrom(parse: Content -> Data, s: Sys, more: seq<Event>)
    requires Stamped(s)
    ensures Stamped(Run(parse, s, more)) && s.book.version <= Run(parse, s, more).book.version
  {
    if more != [] {
      VersionsGrowFrom(parse, s, more[..|more| - 1]);
      StampedStep(parse, Run(parse, s, more[..|more| - 1]), more[|more| - 1]);
    }
  }

  /** Over every run versions never go back. */
  lemma {:induction false} VersionsGrow(parse: Content -> Data, seed: nat, events: seq<Event>, more: seq<Event>)
    ensures Run(parse, Start(seed), events).book.version <= Run(parse, Start(seed), events + more).book.version
  {
    AlwaysOrdered(parse, seed, events);
    VersionsGrowFrom(parse, Run(parse, Start(seed), events), more);
    RunConcat(parse, Start(seed), events, more);
  }

  // ---- coherence ----

  /** Whenever the recorded file and mtime are the file's current ones, the payload is
      the parse of its current content. */
  ghost predicate Coherent(parse: Content -> Data, b: Book, files: map<Path, File>) {
    b.lastFile.Some? && b.lastMtime.Some? && MtimeOf(files, b.lastFile.value) == b.lastMtime ==>
      Served(b).Some? && Served(b).value.data == parse(files[b.lastFile.value].content)
  }

  ghost predicate JobOk(parse: Content -> Data, j: Job, files: map<Path, File>) {
    j.mtime.Some? && MtimeOf(files, j.file) == j.mtime ==> j.pub.data == parse(files[j.file].content)
  }

  ghost predicate TaskOk(t: Task, files: map<Path, File>) {
    t.Parsing? ==>
      if t.dirty then t.file in files ==> MtimeOf(files, t.file) != t.mtime else MtimeOf(files, t.file) == t.mtime
  }

  ghost predicate Known(m: Option<Mtime>, used: set<Mtime>) { m.Some? ==> m.value in used }

  ghost predicate AllKnown(s: Sys) {
    && (forall f :: f in s.files ==> s.files[f].mtime in s.used)
    && Known(s.book.lastMtime, s.used)
    && (forall id :: id in s.tasks && s.tasks[id].Parsing? ==> Known(s.tasks[id].mtime, s.used))
    && (s.loop.Publishing? ==> Known(s.loop.job.mtime, s.used))
  }

  ghost predicate TasksOk(s: Sys) { forall id :: id in s.tasks ==> TaskOk(s.tasks[id], s.files) }

  ghost predicate LoopOk(parse: Content -> Data, s: Sys) {
    match s.loop
    case Idle => Coherent(parse, s.book, s.files)
    case Publishing(id, job, k) =>
      && JobOk(parse, job, s.files)
      && (k >= 1 ==> s.book.bytes == if job.compressed then None else Some(job.pub))
      && (k >= 2 ==> s.book.gz == if job.compressed then Some(job.pub) else None)
      && (k >= 4 ==> s.book.lastFile == Some(job.file))
      && k < PUBLISH_WRITES
    case Clearing(k) => k < CLEAR_WRITES
  }

  /** Every edit stamps the file with an mtime never used before. */
  ghost predicate FreshEdit(s: Sys, e: Event) { e.Edit? ==> e.mtime !in s.used }

  ghost predicate FreshRun(parse: Content -> Data, seed: nat, events: seq<Event>) {
    forall i :: 0 <= i < |events| ==> FreshEdit(Run(parse, Start(seed), events[..i]), events[i])
  }

  lemma KnownStep(parse: Content -> Data, s: Sys, e: Event)
    requires AllKnown(s)
    ensures AllKnown(Step(parse, s, e))
  {
  }

  lemma TasksStep(parse: Content -> Data, s: Sys, e: Event)
    requires AllKnown(s) && TasksOk(s) && FreshEdit(s, e)
    ensures TasksOk(Step(parse, s, e))
  {
    var n := Step(parse, s, e);
    forall id | id in n.tasks ensures TaskOk(n.tasks[id], n.files) {
      if id in s.tasks {
        assert TaskOk(s.tasks[id], s.files);
      }
    }
  }

  lemma EditKeepsLoop(parse: Content -> Data, s: Sys, f: Path, m: Mtime, c: Content)
    requires AllKnown(s) && LoopOk(parse, s) && m !in s.used
    ensures LoopOk(parse, s.(files := s.files[f := File(m, c)]))
  {
  }

  lemma FinishKeepsLoop(parse: Content -> Data, s: Sys, id: nat, garbage: Data, compressed: bool)
    requires TasksOk(s) && s.loop.Idle? && id in s.tasks && s.tasks[id].Parsing?
    ensures LoopOk(parse, OnFinish(parse, s, id, garbage, compressed))
  {
    assert TaskOk(s.tasks[id], s.files);
  }

  lemma LoopStep(parse: Content -> Data, s: Sys, e: Event)
    requires AllKnown(s) && TasksOk(s) && LoopOk(parse, s) && FreshEdit(s, e)
    ensures LoopOk(parse, Step(parse, s, e))
  {
    match e
    case Edit(f, m, c) => EditKeepsLoop(parse, s, f, m, c);
    case Finish(id, garbage, compressed) =>
      if s.loop.Idle? && id in s.tasks && s.tasks[id].Parsing? {
        FinishKeepsLoop(parse, s, id, garbage, compressed);
      }
    case _ =>
  }

  lemma {:induction false} FreshRunsAreCoherent(parse: Content -> Data, seed: nat, events: seq<Event>)
    requires FreshRun(parse, seed, events)
    ensures var s := Run(parse, Start(seed), events); AllKnown(s) && TasksOk(s) && LoopOk(parse, s)
  {
    if events != [] {
      var before := events[..|events| - 1];
      forall i | 0 <= i < |before| ensures FreshEdit(Run(parse, Start(seed), before[..i]), before[i]) {
        assert before[..i] == events[..i];
      }
      FreshRunsAreCoherent(parse, seed, before);
      var s, e := Run(parse, Start(seed), before), events[|events| - 1];
      KnownStep(parse, s, e);
      TasksStep(parse, s, e);
      LoopStep(parse, s, e);
    }
  }

  /** Cache coherence: under any interleaving of fresh edits, deletions, loads, unloads
      and failed parses, what is recorded as current is current. */
  lemma {:induction false} PreviewIsCoherent(parse: Content -> Data, seed: nat, events: seq<Event>)
    requires FreshRun(parse, seed, events)
    ensures var s := Run(parse, Start(seed), events); s.loop.Idle? ==> Coherent(parse, s.book, s.files)
  {
    FreshRunsAreCoherent(parse, seed, events);
  }

  // ---- what a publication and an unload amount to ----

  function Writes(n: nat): seq<Event> { if n == 0 then [] else Writes(n - 1) + [LoopWrites] }

  lemma RunSnoc(parse: Content -> Data, s: Sys, events: seq<Event>, e: Event)
    ensures Run(parse, s, events + [e]) == Step(parse, Run(parse, s, events), e)
  {
    assert (events + [e])[..|events|] == events;
  }

  lemma {:induction false} RunConcat(parse: Content -> Data, s: Sys, a: seq<Event>, b: seq<Event>)
    ensures Run(parse, s, a + b) == Run(parse, Run(parse, s, a), b)
    decreases |b|
  {
    if b == [] {
      assert a + b == a;
    } else {
      RunConcat(parse, s, a, b[..|b| - 1]);
      assert (a + b)[..|a + b| - 1] == a + b[..|b| - 1];
    }
  }

  lemma RunWrite(parse: Content -> Data, s: Sys, n: nat)
    ensures Run(parse, s, Writes(n + 1)) == OnWrite(Run(parse, s, Writes(n)))
  {
    RunSnoc(parse, s, Writes(n), LoopWrites);
  }

  /** Uninterrupted, the loop's writes are exactly the publication the class performs. */
  lemma {:induction false} WritesPublish(parse: Content -> Data, s: Sys)
    requires s.loop.Publishing? && s.loop.k == 0
    ensures Run(parse, s, Writes(5)) ==
            s.(book := Published(s.book, s.loop.job), loop := Idle, tasks := s.tasks - {s.loop.id})
  {
    assert Run(parse, s, Writes(0)) == s;
    RunWrite(parse, s, 0);
    RunWrite(parse, s, 1);
    RunWrite(parse, s, 2);
    RunWrite(parse, s, 3);
    RunWrite(parse, s, 4);
  }

  lemma WritesClear(parse: Content -> Data, s: Sys)
    requires s.loop == Clearing(0)
    ensures Run(parse, s, Writes(4)) == s.(book := Cleared(s.book), loop := Idle)
  {
    assert Run(parse, s, Writes(0)) == s;
    RunWrite(parse, s, 0);
    RunWrite(parse, s, 1);
    RunWrite(parse, s, 2);
    RunWrite(parse, s, 3);
  }

  ghost predicate UpToDate(parse: Content -> Data, s: Sys, f: Path) {
    && s.loop.Idle? && s.active == Some(f) && s.book.lastFile == Some(f) && f in s.files
    && s.book.lastMtime == MtimeOf(s.files, f)
    && Served(s.book).Some? && Served(s.book).value.data == parse(s.files[f].content)
  }

  function Reload(id: nat, compressed: bool): seq<Event> { [Poll] + [Begin(id)] + ([Finish(id, 0, compressed)] + Writes(5)) }

  lemma RunOne(parse: Content -> Data, s: Sys, e: Event)
    ensures Run(parse, s, [e]) == Step(parse, s, e)
  {
    assert [e][..0] == [];
  }

  lemma BeginParses(parse: Content -> Data, s: Sys, id: nat)
    requires s.loop.Idle? && id in s.tasks && s.tasks[id].Scheduled?
    ensures Step(parse, s, Begin(id)) ==
            s.(tasks := s.tasks[id := Parsing(s.tasks[id].file, MtimeOf(s.files, s.tasks[id].file), false)])
  {
  }

  lemma PollThenBegin(parse: Content -> Data, s: Sys, f: Path)
    requires s.loop.Idle? && Decide(s.book, s.active, s.files) == Refresh(f)
    ensures Run(parse, s, [Poll] + [Begin(s.nextTask)]) ==
            s.(book := s.book.(running := true), nextTask := s.nextTask + 1,
               tasks := s.tasks[s.nextTask := Parsing(f, MtimeOf(s.files, f), false)])
  {
    var id, n := s.nextTask, Schedule(s, f);
    assert Step(parse, s, Poll) == n;
    assert n.tasks[id := Parsing(f, MtimeOf(s.files, f), false)] == s.tasks[id := Parsing(f, MtimeOf(s.files, f), false)];
    RunOne(parse, s, Poll);
    RunSnoc(parse, s, [Poll], Begin(id));
    BeginParses(parse, n, id);
  }

  /** An undisturbed refresh from its begin to its last write. */
  lemma FinishThenWrite(parse: Content -> Data, s: Sys, id: nat, garbage: Data, compressed: bool)
    requires s.loop.Idle? && id in s.tasks && s.tasks[id].Parsing?
    ensures Run(parse, s, [Finish(id, garbage, compressed)] + Writes(5)) ==
            s.(book := Published(s.book, OnFinish(parse, s, id, garbage, compressed).loop.job), tasks := s.tasks - {id})
  {
    var n := OnFinish(parse, s, id, garbage, compressed);
    assert Step(parse, s, Finish(id, garbage, compressed)) == n;
    RunOne(parse, s, Finish(id, garbage, compressed));
    RunConcat(parse, s, [Finish(id, garbage, compressed)], Writes(5));
    WritesPublish(parse, n);
  }

  /** A poll that sees a change, followed by one undisturbed refresh, brings the cache
      up to date, and the next poll has nothing to do. */
  lemma {:induction false} ReloadConverges(parse: Content -> Data, s: Sys, f: Path, compressed: bool)
    requires s.loop.Idle? && s.tasks == map[] && s.active == Some(f) && f in s.files
    requires Decide(s.book, s.active, s.files) == Refresh(f)
    ensures var n := Run(parse, s, Reload(s.nextTask, compressed));
            UpToDate(parse, n, f) && n.tasks == map[] && n.files == s.files && Decide(n.book, n.active, n.files) == Nothing
  {
    var id := s.nextTask;
    PollThenBegin(parse, s, f);
    var begun := Run(parse, s, [Poll] + [Begin(id)]);
    RunConcat(parse, s, [Poll] + [Begin(id)], [Finish(id, 0, compressed)] + Writes(5));
    FinishThenWrite(parse, begun, id, 0, compressed);
  }

  /** With no active file, a poll and its writes empty a cache that held one, bumping the
      version once; with nothing recorded it does nothing. */
  lemma {:induction false} PollEmptiesWithoutFile(parse: Content -> Data, s: Sys)
    requires s.loop.Idle? && s.active == None
    ensures var n := Run(parse, s, [Poll] + Writes(4));
            && n.book.lastFile == None && n.loop.Idle? && n.tasks == s.tasks
            && (s.book.lastFile.Some? ==> Served(n.book).None? && n.book.version == s.book.version + 1 && n.book.lastMtime == None)
            && (s.book.lastFile.None? ==> n == s)
  {
    RunOne(parse, s, Poll);
    RunConcat(parse, s, [Poll], Writes(4));
    if s.book.lastFile.Some? {
      WritesClear(parse, s.(loop := Clearing(0)));
    } else {
      IdleWrites(parse, s, 4);
    }
  }

  lemma {:induction false} IdleWrites(parse: Content -> Data, s: Sys, n: nat)
    requires s.loop.Idle?
    ensures Run(parse, s, Writes(n)) == s
  {
    if n > 0 {
      IdleWrites(parse, s, n - 1);
      RunWrite(parse, s, n - 1);
    }
  }
}
