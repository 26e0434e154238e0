/** A job never gets stuck: whatever has crashed, timed out or been done twice, it can still be finished,
    if and only if all its inputs can be read. */
module MrProgress {
  import opened MrDataflow
  import opened MrCoordinator
  import opened MrCluster

  function EndOf(run: seq<Cluster>): Cluster
    requires |run| > 0
  {
    run[|run| - 1]
  }

  ghost predicate AllInputsReadable(app: App, c: Core) {
    forall i | 0 <= i < |c.files| :: c.files[i] in app.contents
  }

  lemma OneMore(app: App, run: seq<Cluster>, step: Step) returns (run': seq<Cluster>)
    requires IsRun(app, run) && Enabled(app, EndOf(run), step)
    ensures CoreOk(EndOf(run).core)
    ensures IsRun(app, run') && run <= run' && EndOf(run') == Apply(app, EndOf(run), step)
  {
    RunKeeps(app, run, |run| - 1);
    run' := run + [Apply(app, EndOf(run), step)];
    forall k: nat | k + 1 < |run'| ensures Stepped(app, run', k) {
      if k + 1 < |run| {
        assert Stepped(app, run, k);
      }
    }
  }

  // ---------------------------------------------------------------- getting a task

  lemma {:induction false} Latest(times: seq<int>, least: int) returns (t: int)
    ensures t >= least && forall k | 0 <= k < |times| :: t > times[k] + TIMEOUT
  {
    if times == [] {
      t := least;
    } else {
      var u := Latest(times[..|times| - 1], least);
      t := if u > times[|times| - 1] + TIMEOUT then u else times[|times| - 1] + TIMEOUT + 1;
      assert forall k | 0 <= k < |times| - 1 :: times[..|times| - 1][k] == times[k];
    }
  }

  /** What a worker does with the task it was handed. */
  ghost predicate Started(s: Cluster, kind: Kind, task: nat, j: nat) {
    && j < |s.jobs| && task < |TasksOf(s.core, kind).statuses|
    && TasksOf(s.core, kind).statuses[task] == InProgress
    && s.jobs[j] == match kind
                    case MapKind => (if task < |s.core.files| then Mapping(task, s.core.files[task], s.core.nReduce, 0) else Over)
                    case ReduceKind => Reducing(task, |s.core.files|, 0, [])
  }

  function KindOf(phase: Phase): Kind {
    if phase == MapPhase then MapKind else ReduceKind
  }

  /** Asking when everything that is out is overdue: the first idle task, if there is one, is handed out;
      if there is none, every task that is not complete is idle afterwards. */
  lemma AskLate(app: App, run: seq<Cluster>, t: int) returns (run': seq<Cluster>)
    requires IsRun(app, run) && EndOf(run).core.phase != DonePhase && EndOf(run).now <= t && CoreOk(EndOf(run).core)
    requires var tasks := TasksOf(EndOf(run).core, KindOf(EndOf(run).core.phase));
      forall k | 0 <= k < |tasks.times| :: t > tasks.times[k] + TIMEOUT
    ensures IsRun(app, run') && run <= run' && EndOf(run').now == t && CoreOk(EndOf(run').core)
    ensures var c, c' := EndOf(run).core, EndOf(run').core; var kind := KindOf(c.phase);
      && c'.phase == c.phase && c'.files == c.files && c'.nReduce == c.nReduce
      && c'.mapsDone == c.mapsDone && c'.reduceDone == c.reduceDone
      && (forall i | 0 <= i < |TasksOf(c, kind).statuses| && TasksOf(c, kind).statuses[i] == Idle ::
            exists task, j :: Started(EndOf(run'), kind, task, j))
      && ((forall i | 0 <= i < |TasksOf(c, kind).statuses| :: TasksOf(c, kind).statuses[i] != Idle) ==>
            && |TasksOf(c', kind).statuses| == |TasksOf(c, kind).statuses|
            && TasksOf(c', kind).times == TasksOf(c, kind).times
            && forall i | 0 <= i < |TasksOf(c, kind).statuses| && TasksOf(c, kind).statuses[i] != Complete ::
                 TasksOf(c', kind).statuses[i] == Idle)
  {
    var s := EndOf(run);
    var kind := KindOf(s.core.phase);
    var tasks := TasksOf(s.core, kind);
    var i := FirstIdle(tasks.statuses);
    run' := OneMore(app, run, Request(_ => t, t));
    ScanExactly(tasks, _ => t, i);
    if i < |tasks.statuses| {
      assert Started(EndOf(run'), kind, i, |s.jobs|);
    }
  }

  /** As long as a kind is not finished, one of its tasks can be had. */
  lemma GetTask(app: App, run: seq<Cluster>) returns (run': seq<Cluster>, task: nat, j: nat)
    requires IsRun(app, run) && EndOf(run).core.phase != DonePhase
    ensures IsRun(app, run') && run <= run' && CoreOk(EndOf(run').core)
    ensures var c, c' := EndOf(run).core, EndOf(run').core;
      && Started(EndOf(run'), KindOf(c.phase), task, j)
      && c'.phase == c.phase && c'.files == c.files && c'.nReduce == c.nReduce
      && c'.mapsDone == c.mapsDone && c'.reduceDone == c.reduceDone
  {
    RunKeeps(app, run, |run| - 1);
    var s := EndOf(run);
    var kind := KindOf(s.core.phase);
    var tasks := TasksOf(s.core, kind);
    var t := Latest(tasks.times, s.now);
    run' := AskLate(app, run, t);
    if forall i | 0 <= i < |tasks.statuses| :: tasks.statuses[i] != Idle {
      var i := SomeIncomplete(app, s);
      assert TasksOf(EndOf(run').core, kind).statuses[i] == Idle;
      run' := AskLate(app, run', t);
    }
    task, j :| Started(EndOf(run'), kind, task, j);
  }

  lemma SomeIncomplete(app: App, s: Cluster) returns (i: nat)
    requires FilesInv(app, s) && s.core.phase != DonePhase
    ensures var tasks := TasksOf(s.core, KindOf(s.core.phase)); i < |tasks.statuses| && tasks.statuses[i] != Complete
  {
    var tasks := TasksOf(s.core, KindOf(s.core.phase));
    assert !AllComplete(tasks.statuses);
    i :| 0 <= i < |tasks.statuses| && tasks.statuses[i] != Complete;
  }

  // ---------------------------------------------------------------- doing it

  /** Everything but one job and the files is as before. */
  ghost predicate OnlyJob(s: Cluster, s': Cluster, j: nat) {
    s'.core == s.core && |s'.jobs| == |s.jobs| && j < |s.jobs|
  }

  lemma {:induction false} MapRuns(app: App, run: seq<Cluster>, j: nat) returns (run': seq<Cluster>)
    requires IsRun(app, run) && j < |EndOf(run).jobs| && EndOf(run).jobs[j].Mapping?
    requires EndOf(run).jobs[j].filename in app.contents && EndOf(run).jobs[j].renamed <= EndOf(run).jobs[j].nReduce
    ensures IsRun(app, run') && run <= run' && OnlyJob(EndOf(run), EndOf(run'), j)
    ensures EndOf(run').jobs[j] == Reporting("map", EndOf(run).jobs[j].task)
    decreases EndOf(run).jobs[j].nReduce - EndOf(run).jobs[j].renamed
  {
    if EndOf(run).jobs[j].renamed == EndOf(run).jobs[j].nReduce {
      run' := OneMore(app, run, MapDone(j));
    } else {
      var next := OneMore(app, run, RenameBucket(j));
      run' := MapRuns(app, next, j);
    }
  }

  lemma {:induction false} ReduceRuns(app: App, run: seq<Cluster>, j: nat) returns (run': seq<Cluster>)
    requires IsRun(app, run) && j < |EndOf(run).jobs| && EndOf(run).jobs[j].Reducing?
    requires EndOf(run).jobs[j].gathered <= EndOf(run).jobs[j].nMap
    ensures IsRun(app, run') && run <= run' && OnlyJob(EndOf(run), EndOf(run'), j)
    ensures EndOf(run').jobs[j] == Reporting("reduce", EndOf(run).jobs[j].task)
    decreases EndOf(run).jobs[j].nMap - EndOf(run).jobs[j].gathered
  {
    var job := EndOf(run).jobs[j];
    if job.gathered == job.nMap {
      EverySliceSorts(job.got);
      var sorted :| SortOf(sorted, job.got);
      var printed := OneMore(app, run, SortAndPrint(j, sorted));
      run' := OneMore(app, printed, RenameOut(j));
    } else {
      var next := OneMore(app, run, ReadFile(j));
      run' := ReduceRuns(app, next, j);
    }
  }

  /** One more task of the present kind can be completed. */
  lemma OneMoreDone(app: App, run: seq<Cluster>) returns (run': seq<Cluster>)
    requires IsRun(app, run) && EndOf(run).core.phase != DonePhase && AllInputsReadable(app, EndOf(run).core)
    ensures IsRun(app, run') && run <= run'
    ensures var c, c' := EndOf(run).core, EndOf(run').core;
      && c'.files == c.files && c'.nReduce == c.nReduce
      && (if c.phase == MapPhase then c'.mapsDone == c.mapsDone + 1 && c'.reduceDone == c.reduceDone
          else c'.mapsDone == c.mapsDone && c'.reduceDone == c.reduceDone + 1)
  {
    var asked, task, j := GetTask(app, run);
    var kind := KindOf(EndOf(run).core.phase);
    RunKeeps(app, asked, |asked| - 1);
    assert JobOk(app, EndOf(asked), EndOf(asked).jobs[j]);
    var worked;
    if kind == MapKind {
      worked := MapRuns(app, asked, j);
    } else {
      worked := ReduceRuns(app, asked, j);
    }
    ReportsInRange(app, worked, |worked| - 1, j);
    RunKeeps(app, worked, |worked| - 1);
    run' := OneMore(app, worked, Report(j));
    ReportEffect(EndOf(worked).core, EndOf(worked).jobs[j].taskType, task);
  }

  lemma {:induction false} FinishKind(app: App, run: seq<Cluster>, kind: Kind) returns (run': seq<Cluster>)
    requires IsRun(app, run) && AllInputsReadable(app, EndOf(run).core)
    requires kind == ReduceKind ==> EndOf(run).core.phase != MapPhase
    ensures IsRun(app, run') && run <= run' && AllInputsReadable(app, EndOf(run').core)
    ensures EndOf(run').core.phase != MapPhase && (kind == ReduceKind ==> EndOf(run').core.phase == DonePhase)
    decreases |EndOf(run).core.files| - EndOf(run).core.mapsDone, EndOf(run).core.nReduce - EndOf(run).core.reduceDone
  {
    RunKeeps(app, run, |run| - 1);
    if if kind == MapKind then EndOf(run).core.phase != MapPhase else EndOf(run).core.phase == DonePhase {
      run' := run;
    } else {
      var next := OneMoreDone(app, run);
      RunKeeps(app, next, |next| - 1);
      ProgressIsKept(app, next, |run| - 1, |next| - 1);
      run' := FinishKind(app, next, kind);
    }
  }

  /** From every reachable state the job can still be finished if and only if all its inputs can be read. */
  lemma JobCanFinishExactly(app: App, run: seq<Cluster>)
    requires IsRun(app, run)
    ensures (exists run' :: IsRun(app, run') && run <= run' && EndOf(run').core.phase == DonePhase) <==>
              AllInputsReadable(app, EndOf(run).core)
  {
    if AllInputsReadable(app, EndOf(run).core) {
      var mapped := FinishKind(app, run, MapKind);
      var finished := FinishKind(app, mapped, ReduceKind);
      assert IsRun(app, finished) && run <= finished;
    }
    forall run' | IsRun(app, run') && run <= run' && EndOf(run').core.phase == DonePhase
      ensures AllInputsReadable(app, EndOf(run).core)
    {
      RunKeeps(app, run', |run'| - 1);
      AllReadable(app, EndOf(run'));
      ProgressIsKept(app, run', |run| - 1, |run'| - 1);
      assert run'[|run| - 1] == EndOf(run);
    }
  }

  /** Every readable input has a run that finishes its job. */
  lemma EveryInputFinishes(app: App, files: seq<string>, nReduce: nat) returns (run: seq<Cluster>)
    requires files != [] && nReduce > 0 && forall i | 0 <= i < |files| :: files[i] in app.contents
    ensures IsRun(app, run) && run[0].core.files == files && run[0].core.nReduce == nReduce
    ensures EndOf(run).core.phase == DonePhase
  {
    var s := Cluster(Created(files, nReduce, 0), map[], map[], [], 0, []);
    JobCanFinishExactly(app, [s]);
    run :| IsRun(app, run) && [s] <= run && EndOf(run).core.phase == DonePhase;
    assert run[0] == s;
  }
}
