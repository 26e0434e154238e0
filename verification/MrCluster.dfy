/** The coordinator with its workers and their files, as a step system. Every hand-out starts a job; a
    job may stop anywhere (its worker crashed, or the reply was lost) and a task may have many jobs. */
module MrCluster {
  import opened MrDataflow
  import opened MrCoordinator

  /** The application and its input. */
  datatype App = App(contents: map<string, string>, mapf: Mapf, reducef: Reducef, hash: Hash)

  /** A map job renames its files bucket by bucket; a reduce job opens its files one by one, then
      sorts and prints, then renames. */
  datatype Job =
    | Mapping(task: nat, filename: string, nReduce: nat, renamed: nat)
    | Reducing(task: nat, nMap: nat, gathered: nat, got: seq<KeyValue>)
    | Printed(task: nat, lines: seq<string>)
    | Reporting(taskType: string, task: nat)
    | Over

  datatype Kind = MapKind | ReduceKind

  datatype HandOut = HandOut(kind: Kind, task: nat, time: int)

  /** `handouts` is history. */
  datatype Cluster = Cluster(core: Core, middle: Files, outs: map<nat, seq<string>>, jobs: seq<Job>,
                             now: int, handouts: seq<HandOut>)

  datatype Step =
    | Request(clock: Clock, now: int)
    | RenameBucket(job: nat)
    | MapDone(job: nat)
    | ReadFile(job: nat)
    | SortAndPrint(job: nat, sorted: seq<KeyValue>)
    | RenameOut(job: nat)
    | Report(job: nat)

  function TasksOf(c: Core, kind: Kind): Tasks {
    if kind == MapKind then c.maps else c.reduces
  }

  /** Clock readings never go back, and the new time is not before any of them. */
  ghost predicate Ticks(s: Cluster, clock: Clock, now: int) {
    s.now <= now && forall k: nat {:trigger clock(k)} :: s.now <= clock(k) <= now
  }

  ghost predicate Enabled(app: App, s: Cluster, step: Step) {
    if step.Request? then Ticks(s, step.clock, step.now)
    else
      step.job < |s.jobs| &&
      var job := s.jobs[step.job];
      if step.RenameBucket? then job.Mapping? && job.filename in app.contents && job.renamed < job.nReduce
      else if step.MapDone? then job.Mapping? && job.filename in app.contents && job.renamed == job.nReduce
      else if step.ReadFile? then job.Reducing? && job.gathered < job.nMap
      else if step.SortAndPrint? then job.Reducing? && job.gathered == job.nMap && SortOf(step.sorted, job.got)
      else if step.RenameOut? then job.Printed?
      else job.Reporting?
  }

  /** The job a reply starts. */
  function JobFor(reply: TaskReply): seq<Job> {
    match Act(reply)
    case Map(filename, task, nReduce) => [Mapping(task, filename, nReduce, 0)]
    case Reduce(task, nMap) => [Reducing(task, nMap, 0, [])]
    case Wait => []
  }

  function HandOutFor(reply: TaskReply, clock: Clock): seq<HandOut> {
    match Act(reply)
    case Map(_, task, _) => [HandOut(MapKind, task, clock(task))]
    case Reduce(task, _) => [HandOut(ReduceKind, task, clock(task))]
    case Wait => []
  }

  ghost function Pairs(app: App, job: Job): seq<KeyValue>
    requires job.Mapping? && job.filename in app.contents
  {
    app.mapf(job.filename, app.contents[job.filename])
  }

  /** A report of an id out of range would stop the coordinator; ReportsInRange shows there is none. */
  ghost function Apply(app: App, s: Cluster, step: Step): Cluster
    requires Enabled(app, s, step) && CoreOk(s.core)
  {
    if step.Request? then
      var (core, reply) := Requested(s.core, step.clock);
      s.(core := core, now := step.now, jobs := s.jobs + JobFor(reply),
         handouts := s.handouts + HandOutFor(reply, step.clock))
    else
      var job := s.jobs[step.job];
      if step.RenameBucket? then
        s.(middle := s.middle[(job.task, job.renamed) := Chosen(Pairs(app, job), app.hash, job.nReduce, job.renamed)],
           jobs := s.jobs[step.job := job.(renamed := job.renamed + 1)])
      else if step.MapDone? then s.(jobs := s.jobs[step.job := Reporting("map", job.task)])
      else if step.ReadFile? then
        s.(jobs := s.jobs[step.job := job.(gathered := job.gathered + 1,
                                           got := job.got + Read(s.middle, (job.gathered, job.task)))])
      else if step.SortAndPrint? then
        s.(jobs := s.jobs[step.job := Printed(job.task, Lines(Groups(step.sorted), app.reducef))])
      else if step.RenameOut? then
        s.(outs := s.outs[job.task := job.lines], jobs := s.jobs[step.job := Reporting("reduce", job.task)])
      else
        s.(core := if InRange(s.core, job.taskType, job.task) then Reported(s.core, job.taskType, job.task) else s.core,
           jobs := s.jobs[step.job := Over])
  }

  ghost predicate Init(s: Cluster) {
    && (exists zero :: s.core == Created(s.core.files, s.core.nReduce, zero))
    && s.core.files != [] && s.core.nReduce > 0
    && s.middle == map[] && s.outs == map[] && s.jobs == [] && s.handouts == []
  }

  ghost predicate Next(app: App, s: Cluster, s': Cluster) {
    CoreOk(s.core) && exists step :: Enabled(app, s, step) && s' == Apply(app, s, step)
  }

  ghost predicate Stepped(app: App, run: seq<Cluster>, k: nat)
    requires k + 1 < |run|
  {
    Next(app, run[k], run[k + 1])
  }

  ghost predicate IsRun(app: App, run: seq<Cluster>) {
    && |run| > 0 && Init(run[0])
    && forall k: nat {:trigger Stepped(app, run, k)} | k + 1 < |run| :: Stepped(app, run, k)
  }

  // ---------------------------------------------------------------- invariant: files

  /** The first n inputs can be read. */
  ghost predicate Readable(app: App, c: Core, n: nat) {
    n <= |c.files| && forall i | 0 <= i < n :: c.files[i] in app.contents
  }

  /** Bucket b of the first n inputs' pairs. */
  ghost function BucketOf(app: App, c: Core, n: nat, b: nat): seq<KeyValue>
    requires Readable(app, c, n) && c.nReduce > 0
  {
    Chosen(Mapped(c.files, app.contents, app.mapf, n), app.hash, c.nReduce, b)
  }

  ghost predicate MiddleOk(app: App, s: Cluster, name: (nat, nat))
    requires s.core.nReduce > 0 && name in s.middle
  {
    && name.0 < |s.core.files| && name.1 < s.core.nReduce && s.core.files[name.0] in app.contents
    && s.middle[name] == Chosen(app.mapf(s.core.files[name.0], app.contents[s.core.files[name.0]]),
                                app.hash, s.core.nReduce, name.1)
  }

  /** The first n buckets of the task have been written. */
  ghost predicate Written(s: Cluster, task: nat, n: nat) {
    forall b | 0 <= b < n :: (task, b) in s.middle
  }

  ghost predicate OutOk(app: App, s: Cluster, b: nat, lines: seq<string>)
    requires s.core.nReduce > 0
  {
    && b < s.core.nReduce && s.core.phase != MapPhase && Readable(app, s.core, |s.core.files|)
    && Prints(lines, BucketOf(app, s.core, |s.core.files|, b), app.reducef)
  }

  ghost predicate JobOk(app: App, s: Cluster, job: Job)
    requires s.core.nReduce > 0
  {
    match job
    case Mapping(task, filename, nReduce, renamed) =>
      && task < |s.core.files| && filename == s.core.files[task] && nReduce == s.core.nReduce
      && renamed <= nReduce && Written(s, task, renamed)
    case Reducing(task, nMap, gathered, got) =>
      && task < s.core.nReduce && s.core.phase != MapPhase && nMap == |s.core.files|
      && gathered <= nMap && Readable(app, s.core, nMap) && got == BucketOf(app, s.core, gathered, task)
    case Printed(task, lines) => OutOk(app, s, task, lines)
    case Reporting(taskType, task) =>
      || (taskType == "map" && task < |s.core.files| && Written(s, task, s.core.nReduce))
      || (taskType == "reduce" && task < s.core.nReduce && s.core.phase != MapPhase && task in s.outs)
    case Over => true
  }

  ghost predicate FilesInv(app: App, s: Cluster) {
    && CountersOk(s.core) && s.core.files != [] && s.core.nReduce > 0
    && (forall name {:trigger MiddleOk(app, s, name)} | name in s.middle :: MiddleOk(app, s, name))
    && (forall b {:trigger s.outs[b]} | b in s.outs :: OutOk(app, s, b, s.outs[b]))
    && (forall j | 0 <= j < |s.jobs| :: JobOk(app, s, s.jobs[j]))
    && (forall i: nat {:trigger Written(s, i, s.core.nReduce)} |
          i < |s.core.files| && s.core.maps.statuses[i] == Complete :: Written(s, i, s.core.nReduce))
    && (forall b: nat | b < s.core.nReduce && s.core.reduces.statuses[b] == Complete :: b in s.outs)
  }

  /** Files and progress are only ever added to; an intermediate file is only overwritten by the same content. */
  ghost predicate Grows(s: Cluster, s': Cluster) {
    && Advances(s.core, s'.core) && CountersOk(s'.core)
    && s.middle.Keys <= s'.middle.Keys && s.outs.Keys <= s'.outs.Keys
  }

  lemma JobStays(app: App, s: Cluster, s': Cluster, job: Job)
    requires Grows(s, s') && s.core.nReduce > 0 && JobOk(app, s, job)
    ensures JobOk(app, s', job)
  {
    match job
    case Mapping(task, _, _, renamed) => WrittenStays(s, s', task, renamed);
    case Reducing(_, _, _, _) =>
    case Printed(_, _) =>
    case Reporting(taskType, task) =>
      if taskType == "map" {
        WrittenStays(s, s', task, s.core.nReduce);
      }
    case Over =>
  }

  lemma WrittenStays(s: Cluster, s': Cluster, task: nat, n: nat)
    requires s.middle.Keys <= s'.middle.Keys && Written(s, task, n)
    ensures Written(s', task, n)
  {
    forall b | 0 <= b < n ensures (task, b) in s'.middle {
      assert (task, b) in s.middle.Keys;
    }
  }

  /** Once all maps are complete, every input has been read and every bucket is there. */
  lemma AllWritten(app: App, s: Cluster, i: nat, b: nat)
    requires FilesInv(app, s) && s.core.phase != MapPhase && i < |s.core.files| && b < s.core.nReduce
    ensures (i, b) in s.middle && MiddleOk(app, s, (i, b))
  {
    assert Written(s, i, s.core.nReduce);
  }

  lemma AllReadable(app: App, s: Cluster)
    requires FilesInv(app, s) && s.core.phase != MapPhase
    ensures Readable(app, s.core, |s.core.files|)
  {
    forall i | 0 <= i < |s.core.files| ensures s.core.files[i] in app.contents {
      AllWritten(app, s, i, 0);
    }
  }

  /** A step that changes one job (or adds one) keeps the rest. */
  lemma JobsKept(app: App, s: Cluster, s': Cluster, j: nat)
    requires FilesInv(app, s) && Grows(s, s') && |s.jobs| <= |s'.jobs| <= |s.jobs| + 1
    requires j < |s'.jobs| ==> JobOk(app, s', s'.jobs[j])
    requires |s'.jobs| > |s.jobs| ==> j == |s.jobs|
    requires forall i | 0 <= i < |s.jobs| && i != j :: s'.jobs[i] == s.jobs[i]
    ensures forall i | 0 <= i < |s'.jobs| :: JobOk(app, s', s'.jobs[i])
  {
    forall i | 0 <= i < |s'.jobs| ensures JobOk(app, s', s'.jobs[i]) {
      if i != j {
        JobStays(app, s, s', s.jobs[i]);
      }
    }
  }

  lemma MiddleStays(app: App, s: Cluster, s': Cluster)
    requires FilesInv(app, s) && Grows(s, s') && s'.middle == s.middle
    ensures forall name {:trigger MiddleOk(app, s', name)} | name in s'.middle :: MiddleOk(app, s', name)
  {
    forall name | name in s'.middle ensures MiddleOk(app, s', name) {
      assert MiddleOk(app, s, name);
    }
  }

  lemma OutStays(app: App, s: Cluster, s': Cluster, b: nat)
    requires FilesInv(app, s) && Grows(s, s') && b in s.outs && b in s'.outs && s'.outs[b] == s.outs[b]
    ensures OutOk(app, s', b, s'.outs[b])
  {
    assert OutOk(app, s, b, s.outs[b]);
  }

  lemma OutsStay(app: App, s: Cluster, s': Cluster)
    requires FilesInv(app, s) && Grows(s, s') && s'.outs == s.outs
    ensures forall b {:trigger s'.outs[b]} | b in s'.outs :: OutOk(app, s', b, s'.outs[b])
  {
    forall b | b in s'.outs ensures OutOk(app, s', b, s'.outs[b]) {
      OutStays(app, s, s', b);
    }
  }

  lemma CompleteStaysWritten(app: App, s: Cluster, s': Cluster)
    requires FilesInv(app, s) && Grows(s, s')
    requires forall i | 0 <= i < |s.core.files| && s'.core.maps.statuses[i] == Complete ::
               s.core.maps.statuses[i] == Complete
    ensures forall i: nat {:trigger Written(s', i, s'.core.nReduce)} |
              i < |s'.core.files| && s'.core.maps.statuses[i] == Complete :: Written(s', i, s'.core.nReduce)
  {
    forall i: nat | i < |s'.core.files| && s'.core.maps.statuses[i] == Complete
      ensures Written(s', i, s'.core.nReduce)
    {
      WrittenStays(s, s', i, s.core.nReduce);
    }
  }

  lemma RequestFiles(app: App, s: Cluster, clock: Clock, now: int)
    requires FilesInv(app, s) && Ticks(s, clock, now)
    ensures Grows(s, Apply(app, s, Request(clock, now))) && FilesInv(app, Apply(app, s, Request(clock, now)))
  {
    var s' := Apply(app, s, Request(clock, now));
    RequestKeeps(s.core, clock);
    MiddleStays(app, s, s');
    OutsStay(app, s, s');
    CompleteStaysWritten(app, s, s');
    NewJobOk(app, s, clock, now);
    JobsKept(app, s, s', |s.jobs|);
  }

  lemma NewJobOk(app: App, s: Cluster, clock: Clock, now: int)
    requires FilesInv(app, s) && Ticks(s, clock, now)
    ensures var s' := Apply(app, s, Request(clock, now)); |s'.jobs| > |s.jobs| ==> JobOk(app, s', s'.jobs[|s.jobs|])
  {
    if s.core.phase != MapPhase {
      AllReadable(app, s);
    }
  }

  lemma RenameBucketFiles(app: App, s: Cluster, j: nat)
    requires FilesInv(app, s) && Enabled(app, s, RenameBucket(j))
    ensures Grows(s, Apply(app, s, RenameBucket(j))) && FilesInv(app, Apply(app, s, RenameBucket(j)))
  {
    var s' := Apply(app, s, RenameBucket(j));
    assert JobOk(app, s, s.jobs[j]);
    forall name | name in s'.middle ensures MiddleOk(app, s', name) {
      assert name in s.middle ==> MiddleOk(app, s, name);
    }
    OutsStay(app, s, s');
    WrittenStays(s, s', s.jobs[j].task, s.jobs[j].renamed);
    CompleteStaysWritten(app, s, s');
    JobsKept(app, s, s', j);
  }

  lemma ReadFileFiles(app: App, s: Cluster, j: nat)
    requires FilesInv(app, s) && Enabled(app, s, ReadFile(j))
    ensures Grows(s, Apply(app, s, ReadFile(j))) && FilesInv(app, Apply(app, s, ReadFile(j)))
  {
    var s', job := Apply(app, s, ReadFile(j)), s.jobs[j];
    assert JobOk(app, s, job);
    AllWritten(app, s, job.gathered, job.task);
    ChosenAppend(Mapped(s.core.files, app.contents, app.mapf, job.gathered),
                 app.mapf(s.core.files[job.gathered], app.contents[s.core.files[job.gathered]]),
                 app.hash, s.core.nReduce, job.task);
    MiddleStays(app, s, s');
    OutsStay(app, s, s');
    CompleteStaysWritten(app, s, s');
    JobsKept(app, s, s', j);
  }

  lemma RenamedOutOk(app: App, s: Cluster, j: nat)
    requires FilesInv(app, s) && Enabled(app, s, RenameOut(j))
    ensures var s' := Apply(app, s, RenameOut(j));
      && Grows(s, s')
      && (forall b {:trigger s'.outs[b]} | b in s'.outs :: OutOk(app, s', b, s'.outs[b]))
      && JobOk(app, s', s'.jobs[j])
  {
    var s', job := Apply(app, s, RenameOut(j)), s.jobs[j];
    assert JobOk(app, s, job);
    JobStays(app, s, s', job);
    forall b | b in s'.outs ensures OutOk(app, s', b, s'.outs[b]) {
      if b != job.task {
        OutStays(app, s, s', b);
      }
    }
  }

  lemma RenameOutFiles(app: App, s: Cluster, j: nat)
    requires FilesInv(app, s) && Enabled(app, s, RenameOut(j))
    ensures Grows(s, Apply(app, s, RenameOut(j))) && FilesInv(app, Apply(app, s, RenameOut(j)))
  {
    var s' := Apply(app, s, RenameOut(j));
    RenamedOutOk(app, s, j);
    MiddleStays(app, s, s');
    CompleteStaysWritten(app, s, s');
    JobsKept(app, s, s', j);
  }

  /** A job's own steps that write nothing. */
  lemma QuietFiles(app: App, s: Cluster, step: Step)
    requires FilesInv(app, s) && Enabled(app, s, step) && (step.MapDone? || step.SortAndPrint?)
    ensures Grows(s, Apply(app, s, step)) && FilesInv(app, Apply(app, s, step))
  {
    var s' := Apply(app, s, step);
    assert JobOk(app, s, s.jobs[step.job]);
    if step.SortAndPrint? {
      assert SortOf(step.sorted, s.jobs[step.job].got);
    }
    MiddleStays(app, s, s');
    OutsStay(app, s, s');
    CompleteStaysWritten(app, s, s');
    JobsKept(app, s, s', step.job);
  }

  /** A report grows the state, and leaves a task complete only where its files are written. */
  lemma ReportedIsWritten(app: App, s: Cluster, j: nat)
    requires FilesInv(app, s) && Enabled(app, s, Report(j))
    ensures var s' := Apply(app, s, Report(j));
      && Grows(s, s')
      && (forall i: nat {:trigger Written(s', i, s'.core.nReduce)} |
            i < |s'.core.files| && s'.core.maps.statuses[i] == Complete :: Written(s', i, s'.core.nReduce))
      && (forall b: nat | b < s'.core.nReduce && s'.core.reduces.statuses[b] == Complete :: b in s'.outs)
  {
    var s', job := Apply(app, s, Report(j)), s.jobs[j];
    assert JobOk(app, s, job);
    ReportKeeps(s.core, job.taskType, job.task);
    forall i: nat | i < |s'.core.files| && s'.core.maps.statuses[i] == Complete
      ensures Written(s', i, s'.core.nReduce)
    {
      WrittenStays(s, s', i, s.core.nReduce);
    }
  }

  lemma ReportFiles(app: App, s: Cluster, j: nat)
    requires FilesInv(app, s) && Enabled(app, s, Report(j))
    ensures Grows(s, Apply(app, s, Report(j))) && FilesInv(app, Apply(app, s, Report(j)))
  {
    var s' := Apply(app, s, Report(j));
    ReportedIsWritten(app, s, j);
    MiddleStays(app, s, s');
    OutsStay(app, s, s');
    JobsKept(app, s, s', j);
  }

  lemma FilesKept(app: App, s: Cluster, step: Step)
    requires FilesInv(app, s) && Enabled(app, s, step)
    ensures Grows(s, Apply(app, s, step)) && FilesInv(app, Apply(app, s, step))
  {
    match step
    case Request(clock, now) => RequestFiles(app, s, clock, now);
    case RenameBucket(j) => RenameBucketFiles(app, s, j);
    case MapDone(_) => QuietFiles(app, s, step);
    case ReadFile(j) => ReadFileFiles(app, s, j);
    case SortAndPrint(_, _) => QuietFiles(app, s, step);
    case RenameOut(j) => RenameOutFiles(app, s, j);
    case Report(j) => ReportFiles(app, s, j);
  }

  // ---------------------------------------------------------------- invariant: hand-outs

  /** A hand-out is in the past; its task is idle only if that was more than ten seconds ago. */
  ghost predicate HandOutOk(s: Cluster, h: HandOut)
    requires CoreOk(s.core)
  {
    var t := TasksOf(s.core, h.kind);
    && h.task < |t.statuses| && h.time <= s.now
    && (t.statuses[h.task] == Idle ==> s.now - h.time > TIMEOUT)
    && (t.statuses[h.task] == InProgress ==> h.time <= t.times[h.task])
    && (h.kind == ReduceKind ==> s.core.phase != MapPhase)
  }

  ghost predicate Apart(h: HandOut, g: HandOut) {
    h.kind == g.kind && h.task == g.task ==> g.time - h.time > TIMEOUT
  }

  ghost predicate HandOutsInv(s: Cluster) {
    && CoreOk(s.core)
    && (forall h | 0 <= h < |s.handouts| :: HandOutOk(s, s.handouts[h]))
    && (forall h, g | 0 <= h < g < |s.handouts| :: Apart(s.handouts[h], s.handouts[g]))
  }

  /** What a scan can do to one task. */
  lemma ScanOne(t: Tasks, clock: Clock, k: nat)
    requires k < |t.statuses| == |t.times|
    ensures var t' := Scanned(t, clock);
      && (t'.statuses[k] == Idle ==> t.statuses[k] == Idle || Overdue(t, k, clock))
      && (t'.statuses[k] == InProgress ==>
            || (t.statuses[k] == InProgress && t'.times[k] == t.times[k])
            || (t.statuses[k] == Idle && t'.times[k] == clock(k)))
  {
  }

  lemma RequestKeepsHandOut(app: App, s: Cluster, clock: Clock, now: int, h: HandOut)
    requires FilesInv(app, s) && Ticks(s, clock, now) && HandOutOk(s, h)
    ensures HandOutOk(Apply(app, s, Request(clock, now)), h)
  {
    ScanOne(TasksOf(s.core, h.kind), clock, h.task);
    RequestKeeps(s.core, clock);
    assert s.now <= clock(h.task) <= now;
  }

  lemma ReportKeepsHandOut(app: App, s: Cluster, j: nat, h: HandOut)
    requires FilesInv(app, s) && HandOutOk(s, h) && Enabled(app, s, Report(j))
    ensures HandOutOk(Apply(app, s, Report(j)), h)
  {
    ReportFiles(app, s, j);
  }

  lemma OldHandOutKept(app: App, s: Cluster, step: Step, h: HandOut)
    requires FilesInv(app, s) && HandOutOk(s, h) && Enabled(app, s, step)
    ensures HandOutOk(Apply(app, s, step), h)
  {
    if step.Request? {
      RequestKeepsHandOut(app, s, step.clock, step.now, h);
    } else if step.Report? {
      ReportKeepsHandOut(app, s, step.job, h);
    } else {
      SameCore(app, s, step);
    }
  }

  lemma SameCore(app: App, s: Cluster, step: Step)
    requires CoreOk(s.core) && Enabled(app, s, step) && !step.Request? && !step.Report?
    ensures var s' := Apply(app, s, step); s'.core == s.core && s'.now == s.now && s'.handouts == s.handouts
  {
  }

  /** A new hand-out is of a task that has been idle long enough. */
  lemma NewHandOutOk(app: App, s: Cluster, step: Step, h: nat)
    requires FilesInv(app, s) && HandOutsInv(s) && Enabled(app, s, step)
    requires |s.handouts| <= h < |Apply(app, s, step).handouts|
    ensures HandOutOk(Apply(app, s, step), Apply(app, s, step).handouts[h]) && h == |s.handouts|
    ensures forall g | 0 <= g < |s.handouts| :: Apart(s.handouts[g], Apply(app, s, step).handouts[h])
  {
    var g := Apply(app, s, step).handouts[h];
    assert step.Request? && s.now <= step.clock(g.task) <= step.now;
    forall o | 0 <= o < |s.handouts| ensures Apart(s.handouts[o], g) {
      assert HandOutOk(s, s.handouts[o]);
    }
  }

  lemma HandOutsKept(app: App, s: Cluster, step: Step)
    requires FilesInv(app, s) && HandOutsInv(s) && Enabled(app, s, step)
    ensures HandOutsInv(Apply(app, s, step))
  {
    var s' := Apply(app, s, step);
    FilesKept(app, s, step);
    assert s.handouts <= s'.handouts;
    forall h: nat | h < |s'.handouts| ensures HandOutOk(s', s'.handouts[h]) {
      if h < |s.handouts| {
        OldHandOutKept(app, s, step, s.handouts[h]);
      } else {
        NewHandOutOk(app, s, step, h);
      }
    }
    forall h, g | 0 <= h < g < |s'.handouts| ensures Apart(s'.handouts[h], s'.handouts[g]) {
      if g >= |s.handouts| {
        NewHandOutOk(app, s, step, g);
      }
    }
  }

  lemma {:induction false} RunKeeps(app: App, run: seq<Cluster>, k: nat)
    requires IsRun(app, run) && k < |run|
    ensures FilesInv(app, run[k]) && HandOutsInv(run[k])
  {
    if k == 0 {
      var zero :| run[0].core == Created(run[0].core.files, run[0].core.nReduce, zero);
      CreatedOk(run[0].core.files, run[0].core.nReduce, zero);
    } else {
      RunKeeps(app, run, k - 1);
      var step := StepOf(app, run, k - 1);
      FilesKept(app, run[k - 1], step);
      HandOutsKept(app, run[k - 1], step);
    }
  }

  // ---------------------------------------------------------------- theorems

  /** The done counters count the complete tasks, and the phase tells which kinds are all complete. */
  lemma CountersOverRuns(app: App, run: seq<Cluster>, k: nat)
    requires IsRun(app, run) && k < |run|
    ensures var c := run[k].core;
      && c.mapsDone == CountComplete(c.maps.statuses) && c.reduceDone == CountComplete(c.reduces.statuses)
      && (c.phase == MapPhase <==> !AllComplete(c.maps.statuses))
      && (c.phase == DonePhase <==> AllComplete(c.maps.statuses) && AllComplete(c.reduces.statuses))
  {
    RunKeeps(app, run, k);
  }

  /** COMPLETE never reverts and the phase only moves forward. */
  lemma {:induction false} ProgressIsKept(app: App, run: seq<Cluster>, j: nat, k: nat)
    requires IsRun(app, run) && j <= k < |run|
    ensures Advances(run[j].core, run[k].core) && |run[j].handouts| <= |run[k].handouts|
    decreases k
  {
    RunKeeps(app, run, j);
    if j < k {
      ProgressIsKept(app, run, j, k - 1);
      RunKeeps(app, run, k - 1);
      var step := StepOf(app, run, k - 1);
      FilesKept(app, run[k - 1], step);
    }
  }

  /** No reduce task is handed out before every map task is complete. */
  lemma NoEarlyReduce(app: App, run: seq<Cluster>, k: nat, h: nat)
    requires IsRun(app, run) && k < |run| && h < |run[k].handouts| && run[k].handouts[h].kind == ReduceKind
    ensures AllComplete(run[k].core.maps.statuses)
  {
    RunKeeps(app, run, k);
    assert HandOutOk(run[k], run[k].handouts[h]);
  }

  /** What is handed out was idle. */
  lemma NewHandOut(app: App, s: Cluster, step: Step, h: nat)
    requires CoreOk(s.core) && Enabled(app, s, step) && |s.handouts| <= h < |Apply(app, s, step).handouts|
    ensures var g := Apply(app, s, step).handouts[h];
      g.task < |TasksOf(s.core, g.kind).statuses| && TasksOf(s.core, g.kind).statuses[g.task] == Idle
  {
  }

  /** A complete task is never handed out again. */
  lemma {:induction false} NeverAgain(app: App, run: seq<Cluster>, j: nat, k: nat, h: nat)
    requires IsRun(app, run) && j <= k < |run| && |run[j].handouts| <= h < |run[k].handouts|
    ensures var g := run[k].handouts[h];
      && g.task < |TasksOf(run[j].core, g.kind).statuses|
      && TasksOf(run[j].core, g.kind).statuses[g.task] != Complete
    decreases k
  {
    var step := StepOf(app, run, k - 1);
    if h < |run[k - 1].handouts| {
      NeverAgain(app, run, j, k - 1, h);
    } else {
      ProgressIsKept(app, run, j, k - 1);
      NewHandOut(app, run[k - 1], step, h);
    }
  }

  lemma StepOf(app: App, run: seq<Cluster>, k: nat) returns (step: Step)
    requires IsRun(app, run) && k + 1 < |run|
    ensures CoreOk(run[k].core) && Enabled(app, run[k], step) && run[k + 1] == Apply(app, run[k], step)
  {
    assert Stepped(app, run, k);
    step :| Enabled(app, run[k], step) && run[k + 1] == Apply(app, run[k], step);
  }

  /** Two hand-outs of one task are more than ten seconds apart. */
  lemma TenSecondsApart(app: App, run: seq<Cluster>, k: nat, h: nat, g: nat)
    requires IsRun(app, run) && k < |run| && h < g < |run[k].handouts|
    requires run[k].handouts[h].kind == run[k].handouts[g].kind && run[k].handouts[h].task == run[k].handouts[g].task
    ensures run[k].handouts[g].time - run[k].handouts[h].time > TIMEOUT
  {
    RunKeeps(app, run, k);
    assert Apart(run[k].handouts[h], run[k].handouts[g]);
  }

  /** Workers only report ids that are indices of the coordinator's tables. */
  lemma ReportsInRange(app: App, run: seq<Cluster>, k: nat, j: nat)
    requires IsRun(app, run) && k < |run| && j < |run[k].jobs| && run[k].jobs[j].Reporting?
    ensures InRange(run[k].core, run[k].jobs[j].taskType, run[k].jobs[j].task)
  {
    RunKeeps(app, run, k);
    assert JobOk(app, run[k], run[k].jobs[j]);
  }

  lemma {:induction false} GatheredUpTo(app: App, s: Cluster, n: nat, b: nat)
    requires FilesInv(app, s) && s.core.phase != MapPhase && n <= |s.core.files| && b < s.core.nReduce
    requires Readable(app, s.core, |s.core.files|)
    ensures GatheredFrom(s.middle, n, b) == BucketOf(app, s.core, n, b)
  {
    if n > 0 {
      GatheredUpTo(app, s, n - 1, b);
      AllWritten(app, s, n - 1, b);
      ChosenAppend(Mapped(s.core.files, app.contents, app.mapf, n - 1),
                   app.mapf(s.core.files[n - 1], app.contents[s.core.files[n - 1]]), app.hash, s.core.nReduce, b);
    }
  }

  /** Once the map phase is over, what a reduce worker gathers from the intermediate files is its bucket
      of all pairs of all inputs, and what it prints from that is an output the job asks for. */
  lemma GatheredIsTheBucket(app: App, run: seq<Cluster>, k: nat, b: nat)
    requires IsRun(app, run) && k < |run| && run[k].core.phase != MapPhase && b < run[k].core.nReduce
    ensures var s := run[k]; var n := |s.core.files|;
      && (forall i | 0 <= i < n :: s.core.files[i] in app.contents)
      && GatheredFrom(s.middle, n, b) ==
           Chosen(Mapped(s.core.files, app.contents, app.mapf, n), app.hash, s.core.nReduce, b)
      && forall lines :: Prints(lines, GatheredFrom(s.middle, n, b), app.reducef) ==> OutOk(app, s, b, lines)
  {
    RunKeeps(app, run, k);
    AllReadable(app, run[k]);
    GatheredUpTo(app, run[k], |run[k].core.files|, b);
  }

  /** mr-out-0 to mr-out-(n-1). */
  function OutFiles(outs: map<nat, seq<string>>, n: nat): (files: seq<seq<string>>)
    requires forall b | 0 <= b < n :: b in outs
    ensures |files| == n && forall b | 0 <= b < n :: files[b] == outs[b]
  {
    seq(n, b requires 0 <= b < n => outs[b])
  }

  /** When the job is done, all inputs were readable, all output files are there, and their lines are
      together the lines that the sequential program prints for the same inputs, whatever crashed, timed
      out or was run more than once. */
  lemma MapReduceEndToEnd(app: App, run: seq<Cluster>, k: nat, lines: seq<string>)
    requires IsRun(app, run) && k < |run| && run[k].core.phase == DonePhase && OrderFree(app.reducef)
    ensures var s := run[k];
      && (forall i | 0 <= i < |s.core.files| :: s.core.files[i] in app.contents)
      && (forall b | 0 <= b < s.core.nReduce :: b in s.outs)
      && (Prints(lines, Mapped(s.core.files, app.contents, app.mapf, |s.core.files|), app.reducef) ==>
            multiset(Concat(OutFiles(s.outs, s.core.nReduce))) == multiset(lines))
  {
    RunKeeps(app, run, k);
    var s := run[k];
    AllReadable(app, s);
    var kva, files := Mapped(s.core.files, app.contents, app.mapf, |s.core.files|), OutFiles(s.outs, s.core.nReduce);
    if Prints(lines, kva, app.reducef) {
      forall b: nat | b < |files| ensures Prints(files[b], Chosen(kva, app.hash, |files|, b), app.reducef) {
        assert OutOk(app, s, b, s.outs[b]);
      }
      DistributedEqualsSequential(files, lines, kva, app.hash, app.reducef);
    }
  }
}
