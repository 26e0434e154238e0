/** The coordinator: hands out map tasks, then reduce tasks, and takes back a task that has been out for
    more than ten seconds. */
module MrCoordinator {

  datatype Status = Idle | InProgress | Complete

  datatype Phase = MapPhase | ReducePhase | DonePhase

  /** In nanoseconds, as Go counts durations. */
  const TIMEOUT := 10_000_000_000

  /** Clock readings made by one call, one for each task it looks at. */
  type Clock = nat -> int

  /** The statuses of the tasks of one kind, and when each was last handed out. */
  datatype Tasks = Tasks(statuses: seq<Status>, times: seq<int>)

  datatype Core = Core(files: seq<string>, phase: Phase, maps: Tasks, mapsDone: nat,
                       reduces: Tasks, reduceDone: nat, nReduce: nat)

  datatype TaskReply = TaskReply(taskType: string, filename: string, mapTaskId: nat, reduceTaskId: nat,
                                 nReduce: nat, nMap: nat)

  const FRESH := TaskReply("", "", 0, 0, 0, 0)

  predicate TasksOk(t: Tasks, n: nat) {
    |t.statuses| == |t.times| == n
  }

  predicate CoreOk(c: Core) {
    TasksOk(c.maps, |c.files|) && TasksOk(c.reduces, c.nReduce)
  }

  function Created(files: seq<string>, nReduce: nat, zero: int): (c: Core)
    ensures CoreOk(c)
  {
    Core(files, MapPhase, Fresh(|files|, zero), 0, Fresh(nReduce, zero), 0, nReduce)
  }

  function Fresh(n: nat, zero: int): Tasks {
    Tasks(seq(n, _ => Idle), seq(n, _ => zero))
  }

  // ---------------------------------------------------------------- handing out

  function FirstIdle(statuses: seq<Status>): (i: nat)
    ensures i <= |statuses| && (i < |statuses| ==> statuses[i] == Idle)
    ensures forall k | 0 <= k < i :: statuses[k] != Idle
  {
    if statuses == [] || statuses[0] == Idle then 0 else 1 + FirstIdle(statuses[1..])
  }

  predicate Overdue(t: Tasks, k: nat, clock: Clock)
    requires k < |t.statuses| == |t.times|
  {
    t.statuses[k] == InProgress && clock(k) - t.times[k] > TIMEOUT
  }

  /** The scan up to task i: what is overdue before i is idle again. */
  function TakenBack(t: Tasks, i: nat, clock: Clock): (t': Tasks)
    requires |t.statuses| == |t.times| && i <= |t.statuses|
    ensures TasksOk(t', |t.times|)
  {
    t.(statuses := seq(|t.statuses|, k requires 0 <= k < |t.statuses| =>
                         if k < i && Overdue(t, k, clock) then Idle else t.statuses[k]))
  }

  /** The task handed out is the first that was idle before the scan, if there is one: what the scan
      itself takes back waits for the next call. */
  function Scanned(t: Tasks, clock: Clock): (t': Tasks)
    requires |t.statuses| == |t.times|
    ensures TasksOk(t', |t.times|)
  {
    var i := FirstIdle(t.statuses);
    var back := TakenBack(t, i, clock);
    if i < |t.statuses| then Tasks(back.statuses[i := InProgress], back.times[i := clock(i)]) else back
  }

  function Requested(c: Core, clock: Clock): (r: (Core, TaskReply))
    requires CoreOk(c)
    ensures CoreOk(r.0)
  {
    var wait := FRESH.(taskType := "wait");
    match c.phase
    case MapPhase =>
      var i := FirstIdle(c.maps.statuses);
      (c.(maps := Scanned(c.maps, clock)),
       if i < |c.files|
       then FRESH.(taskType := "map", filename := c.files[i], mapTaskId := i, nReduce := c.nReduce) else wait)
    case ReducePhase =>
      var i := FirstIdle(c.reduces.statuses);
      (c.(reduces := Scanned(c.reduces, clock)),
       if i < c.nReduce then FRESH.(taskType := "reduce", reduceTaskId := i, nMap := |c.files|) else wait)
    case DonePhase => (c, wait)
  }

  // ---------------------------------------------------------------- completion

  /** A worker may report any task it was handed: the ids it sends are indices. */
  predicate InRange(c: Core, taskType: string, taskId: nat) {
    (taskType == "map" ==> taskId < |c.files|) && (taskType == "reduce" ==> taskId < c.nReduce)
  }

  function Completed(t: Tasks, id: nat): (t': Tasks)
    requires id < |t.statuses| == |t.times|
    ensures TasksOk(t', |t.times|)
  {
    t.(statuses := t.statuses[id := Complete])
  }

  function Reported(c: Core, taskType: string, taskId: nat): (c': Core)
    requires CoreOk(c) && InRange(c, taskType, taskId)
    ensures CoreOk(c')
  {
    if taskType == "map" && c.maps.statuses[taskId] != Complete then
      c.(maps := Completed(c.maps, taskId), mapsDone := c.mapsDone + 1,
         phase := if c.mapsDone + 1 == |c.files| then ReducePhase else c.phase)
    else if taskType == "reduce" && c.reduces.statuses[taskId] != Complete then
      c.(reduces := Completed(c.reduces, taskId), reduceDone := c.reduceDone + 1,
         phase := if c.reduceDone + 1 == c.nReduce then DonePhase else c.phase)
    else c
  }

  // ---------------------------------------------------------------- invariant

  function CountComplete(statuses: seq<Status>): (n: nat)
    ensures n <= |statuses|
  {
    if statuses == [] then 0
    else CountComplete(statuses[..|statuses| - 1]) + (if statuses[|statuses| - 1] == Complete then 1 else 0)
  }

  ghost predicate AllComplete(statuses: seq<Status>) {
    forall k | 0 <= k < |statuses| :: statuses[k] == Complete
  }

  lemma {:induction false} CountAll(statuses: seq<Status>)
    ensures CountComplete(statuses) == |statuses| <==> AllComplete(statuses)
  {
    if statuses != [] {
      CountAll(statuses[..|statuses| - 1]);
      assert statuses == statuses[..|statuses| - 1] + [statuses[|statuses| - 1]];
    }
  }

  lemma {:induction false} CountSet(statuses: seq<Status>, i: nat, status: Status)
    requires i < |statuses|
    ensures CountComplete(statuses[i := status]) ==
              CountComplete(statuses) - (if statuses[i] == Complete then 1 else 0)
              + (if status == Complete then 1 else 0)
  {
    var n := |statuses| - 1;
    if i < n {
      CountSet(statuses[..n], i, status);
      assert statuses[i := status][..n] == statuses[..n][i := status];
    } else {
      assert statuses[i := status][..n] == statuses[..n];
    }
  }

  /** The counters count the complete tasks, and the phase says which counters are full. */
  ghost predicate CountersOk(c: Core) {
    && CoreOk(c)
    && c.mapsDone == CountComplete(c.maps.statuses)
    && c.reduceDone == CountComplete(c.reduces.statuses)
    && (c.phase != MapPhase <==> AllComplete(c.maps.statuses) && c.files != [])
    && (c.phase == DonePhase <==> AllComplete(c.reduces.statuses) && c.nReduce > 0 && c.phase != MapPhase)
    && (c.phase == MapPhase ==> forall k | 0 <= k < c.nReduce :: c.reduces.statuses[k] == Idle)
  }

  function Rank(phase: Phase): nat {
    match phase
    case MapPhase => 0
    case ReducePhase => 1
    case DonePhase => 2
  }

  /** What no call undoes: completion, and the phase. */
  ghost predicate Advances(c: Core, c': Core) {
    && CoreOk(c) && CoreOk(c') && c'.files == c.files && c'.nReduce == c.nReduce
    && Rank(c.phase) <= Rank(c'.phase)
    && (forall k | 0 <= k < |c.files| :: c.maps.statuses[k] == Complete ==> c'.maps.statuses[k] == Complete)
    && (forall k | 0 <= k < c.nReduce :: c.reduces.statuses[k] == Complete ==> c'.reduces.statuses[k] == Complete)
  }

  lemma {:induction false} SameCount(s: seq<Status>, t: seq<Status>)
    requires |s| == |t| && forall k | 0 <= k < |s| :: s[k] == Complete <==> t[k] == Complete
    ensures CountComplete(s) == CountComplete(t)
  {
    if s != [] {
      SameCount(s[..|s| - 1], t[..|t| - 1]);
    }
  }

  lemma CreatedOk(files: seq<string>, nReduce: nat, zero: int)
    requires files != [] && nReduce > 0
    ensures CountersOk(Created(files, nReduce, zero))
  {
    NoneComplete(seq(|files|, _ => Idle));
    NoneComplete(seq(nReduce, _ => Idle));
    CountAll(seq(|files|, _ => Idle));
    CountAll(seq(nReduce, _ => Idle));
  }

  lemma {:induction false} NoneComplete(statuses: seq<Status>)
    requires forall k | 0 <= k < |statuses| :: statuses[k] == Idle
    ensures CountComplete(statuses) == 0
  {
    if statuses != [] {
      NoneComplete(statuses[..|statuses| - 1]);
    }
  }

  /** A request completes nothing and takes no completion back. */
  lemma RequestKeeps(c: Core, clock: Clock)
    requires CountersOk(c)
    ensures CountersOk(Requested(c, clock).0) && Advances(c, Requested(c, clock).0)
  {
    SameCount(c.maps.statuses, Scanned(c.maps, clock).statuses);
    SameCount(c.reduces.statuses, Scanned(c.reduces, clock).statuses);
    CountAll(c.maps.statuses);
    CountAll(c.reduces.statuses);
    CountAll(Scanned(c.maps, clock).statuses);
    CountAll(Scanned(c.reduces, clock).statuses);
  }

  /** A report can be late or repeated, but a reduce task is reported only after it was handed out. */
  lemma ReportKeeps(c: Core, taskType: string, taskId: nat)
    requires CountersOk(c) && InRange(c, taskType, taskId)
    requires taskType == "reduce" ==> c.phase != MapPhase
    ensures CountersOk(Reported(c, taskType, taskId)) && Advances(c, Reported(c, taskType, taskId))
  {
    var c' := Reported(c, taskType, taskId);
    CountAll(c.maps.statuses);
    CountAll(c.reduces.statuses);
    CountAll(c'.maps.statuses);
    CountAll(c'.reduces.statuses);
    if taskType == "map" {
      CountSet(c.maps.statuses, taskId, Complete);
    } else if taskType == "reduce" {
      CountSet(c.reduces.statuses, taskId, Complete);
    }
  }

  /** A scan hands out the first idle task i at its clock reading, makes the tasks before i idle that have
      been out for more than ten seconds, and leaves everything else. */
  lemma ScanExactly(t: Tasks, clock: Clock, i: nat)
    requires |t.statuses| == |t.times| && i <= |t.statuses|
    requires (forall k | 0 <= k < i :: t.statuses[k] != Idle) && (i < |t.statuses| ==> t.statuses[i] == Idle)
    ensures var t' := Scanned(t, clock);
      && (i < |t.statuses| ==> t'.statuses[i] == InProgress && t'.times[i] == clock(i))
      && (forall k | 0 <= k < i :: t'.statuses[k] ==
            if t.statuses[k] == InProgress && clock(k) > t.times[k] + TIMEOUT then Idle else t.statuses[k])
      && (forall k | i < k < |t.statuses| :: t'.statuses[k] == t.statuses[k])
      && (forall k | 0 <= k < |t.statuses| && k != i :: t'.times[k] == t.times[k])
  {
    FirstIdleIs(t.statuses, i);
  }

  lemma {:induction false} FirstIdleIs(statuses: seq<Status>, i: nat)
    requires i <= |statuses| && (forall k | 0 <= k < i :: statuses[k] != Idle)
    requires i < |statuses| ==> statuses[i] == Idle
    ensures FirstIdle(statuses) == i
  {
    if i > 0 {
      FirstIdleIs(statuses[1..], i - 1);
    }
  }

  /** A report completes the task it names, leaves every other status and all times, and adds one to the
      counter of its kind exactly when the task was not complete before. */
  lemma ReportEffect(c: Core, taskType: string, taskId: nat)
    requires CoreOk(c) && InRange(c, taskType, taskId)
    ensures var c' := Reported(c, taskType, taskId);
      && c'.files == c.files && c'.nReduce == c.nReduce
      && (taskType == "map" ==>
            && c'.maps == Tasks(c.maps.statuses[taskId := Complete], c.maps.times)
            && c'.mapsDone == c.mapsDone + (if c.maps.statuses[taskId] == Complete then 0 else 1))
      && (taskType == "reduce" ==>
            && c'.reduces == Tasks(c.reduces.statuses[taskId := Complete], c.reduces.times)
            && c'.reduceDone == c.reduceDone + (if c.reduces.statuses[taskId] == Complete then 0 else 1))
      && (taskType != "map" ==> c'.maps == c.maps && c'.mapsDone == c.mapsDone)
      && (taskType != "reduce" ==> c'.reduces == c.reduces && c'.reduceDone == c.reduceDone)
      && (taskType != "map" && taskType != "reduce" ==> c' == c)
  {
  }

  // ---------------------------------------------------------------- the class

  class Coordinator {
    const files: seq<string>
    const nReduce: nat
    var phase: Phase
    const mapStatuses: array<Status>
    const mapTimes: array<int>
    var mapsDone: nat
    const reduceStatuses: array<Status>
    const reduceTimes: array<int>
    var reduceDone: nat

    ghost predicate Valid()
      reads this
    {
      && mapStatuses.Length == mapTimes.Length == |files|
      && reduceStatuses.Length == reduceTimes.Length == nReduce
      && mapStatuses != reduceStatuses && mapTimes != reduceTimes
    }

    ghost function Value(): (c: Core)
      requires Valid()
      reads this, mapStatuses, mapTimes, reduceStatuses, reduceTimes
      ensures CoreOk(c)
    {
      Core(files, phase, Tasks(mapStatuses[..], mapTimes[..]), mapsDone,
           Tasks(reduceStatuses[..], reduceTimes[..]), reduceDone, nReduce)
    }

    constructor (files: seq<string>, nReduce: nat, zero: int)
      ensures Valid() && Value() == Created(files, nReduce, zero)
      ensures fresh(mapStatuses) && fresh(mapTimes) && fresh(reduceStatuses) && fresh(reduceTimes)
    {
      this.files := files;
      this.nReduce := nReduce;
      phase := MapPhase;
      mapsDone := 0;
      reduceDone := 0;
      mapStatuses := new Status[|files|](_ => Idle);
      mapTimes := new int[|files|](_ => zero);
      reduceStatuses := new Status[nReduce](_ => Idle);
      reduceTimes := new int[nReduce](_ => zero);
      new;
      assert Value().maps == Fresh(|files|, zero);
      assert Value().reduces == Fresh(nReduce, zero);
    }

    /** The scanning loop of RequestTask, which the source writes once for each kind of task. */
    static method Scan(statuses: array<Status>, times: array<int>, clock: Clock) returns (id: nat)
      requires statuses.Length == times.Length
      modifies statuses, times
      ensures id == old(FirstIdle(statuses[..]))
      ensures Tasks(statuses[..], times[..]) == old(Scanned(Tasks(statuses[..], times[..]), clock))
    {
      ghost var before := Tasks(statuses[..], times[..]);
      for i := 0 to statuses.Length
        invariant Tasks(statuses[..], times[..]) == TakenBack(before, i, clock)
        invariant i <= FirstIdle(before.statuses)
      {
        assert statuses[i] == before.statuses[i];
        if statuses[i] == Idle {
          statuses[i] := InProgress;
          times[i] := clock(i);
          return i;
        } else if statuses[i] == InProgress {
          if clock(i) - times[i] > TIMEOUT {
            statuses[i] := Idle;
          }
        }
      }
      return statuses.Length;
    }

    method RequestTask(clock: Clock) returns (reply: TaskReply)
      requires Valid()
      modifies this, mapStatuses, mapTimes, reduceStatuses, reduceTimes
      ensures Valid() && (Value(), reply) == Requested(old(Value()), clock)
    {
      reply := FRESH;
      if phase == MapPhase {
        var i := Scan(mapStatuses, mapTimes, clock);
        if i < |files| {
          reply := reply.(taskType := "map", filename := files[i], mapTaskId := i, nReduce := nReduce);
          return;
        }
        reply := reply.(taskType := "wait");
      } else if phase == ReducePhase {
        var i := Scan(reduceStatuses, reduceTimes, clock);
        if i < nReduce {
          reply := reply.(taskType := "reduce", reduceTaskId := i, nMap := |files|);
          return;
        }
        reply := reply.(taskType := "wait");
      } else {
        reply := reply.(taskType := "wait");
      }
    }

    method ReportTaskComplete(taskType: string, taskId: nat)
      requires Valid() && InRange(Value(), taskType, taskId)
      modifies this, mapStatuses, reduceStatuses
      ensures Valid() && Value() == Reported(old(Value()), taskType, taskId)
    {
      if taskType == "map" {
        if mapStatuses[taskId] != Complete {
          mapStatuses[taskId] := Complete;
          mapsDone := mapsDone + 1;
          if mapsDone == |files| {
            phase := ReducePhase;
          }
        }
      } else if taskType == "reduce" {
        if reduceStatuses[taskId] != Complete {
          reduceStatuses[taskId] := Complete;
          reduceDone := reduceDone + 1;
          if reduceDone == nReduce {
            phase := DonePhase;
          }
        }
      }
    }

    /** Done answers whether the job has finished: every task of both kinds is complete. */
    method Done() returns (ret: bool)
      requires Valid() && CountersOk(Value()) && files != [] && nReduce > 0
      ensures ret <==> AllComplete(mapStatuses[..]) && AllComplete(reduceStatuses[..])
    {
      ret := phase == DonePhase;
    }
  }

  // ---------------------------------------------------------------- reusing the reply record

  /** gob leaves out zero fields, and the receiver keeps what it had in them. */
  function Decoded(kept: TaskReply, sent: TaskReply): TaskReply {
    TaskReply(if sent.taskType == "" then kept.taskType else sent.taskType,
              if sent.filename == "" then kept.filename else sent.filename,
              if sent.mapTaskId == 0 then kept.mapTaskId else sent.mapTaskId,
              if sent.reduceTaskId == 0 then kept.reduceTaskId else sent.reduceTaskId,
              if sent.nReduce == 0 then kept.nReduce else sent.nReduce,
              if sent.nMap == 0 then kept.nMap else sent.nMap)
  }

  /** What the worker does with a reply. */
  datatype Action = Map(filename: string, task: nat, nReduce: nat) | Reduce(task: nat, nMap: nat) | Wait

  function Act(r: TaskReply): Action {
    if r.taskType == "map" then Map(r.filename, r.mapTaskId, r.nReduce)
    else if r.taskType == "reduce" then Reduce(r.reduceTaskId, r.nMap)
    else Wait
  }

  /** A worker that keeps one reply record for all its calls does what the coordinator told it exactly
      when it is not task 0 that is handed to a worker who had another task of that kind before. */
  lemma ReusedReply(c: Core, clock: Clock, kept: TaskReply)
    requires CoreOk(c) && c.nReduce > 0 && c.files != [] && forall i | 0 <= i < |c.files| :: c.files[i] != ""
    ensures var sent := Requested(c, clock).1;
      Act(Decoded(kept, sent)) == Act(sent) <==>
        match Act(sent)
        case Map(_, task, _) => task != 0 || kept.mapTaskId == 0
        case Reduce(task, _) => task != 0 || kept.reduceTaskId == 0
        case Wait => true
  {
  }

  /** A worker that did map task 1 and is then handed task 0 writes file 0's pairs as task 1's. */
  lemma StaleTaskId(c: Core, clock: Clock, kept: TaskReply)
    requires CoreOk(c) && c.nReduce > 0 && c.phase == MapPhase && |c.files| > 1 && c.files[0] != ""
    requires c.maps.statuses[0] == Idle && kept.mapTaskId == 1
    ensures Act(Requested(c, clock).1) == Map(c.files[0], 0, c.nReduce)
    ensures Act(Decoded(kept, Requested(c, clock).1)) == Map(c.files[0], 1, c.nReduce)
  {
  }
}
