/** Concurrent clerk histories refine the sequential model of one key: when requests are not
    executed late, every history has an order the model accepts and real time agrees with. */
module KvLinear {
  import opened KvServer
  import opened KvNetwork
  import opened KvTruth
  import opened Sorting

  // ---------------------------------------------------------------- the model of one key

  datatype KvState = KvState(value: string, version: nat)

  const INITIAL := KvState("", 0)

  /** Whether the model allows this output, and the state it moves to. */
  function ModelStep(st: KvState, input: Request, output: Reply): (bool, KvState) {
    match input
    case Get(_) => (output.Got? && output.value == st.value, st)
    case Put(args) =>
      if st.version == args.version
      then (output == Done(OK) || output == Done(ErrMaybe), KvState(args.value, st.version + 1))
      else (output == Done(ErrVersion) || output == Done(ErrMaybe), st)
  }

  /** One operation of a history, placed at the execution `at`. */
  datatype Operation = Operation(op: nat, input: Request, output: Reply, at: nat)

  function RunModel(history: seq<Operation>): (bool, KvState) {
    if history == [] then (true, INITIAL)
    else
      var n := |history| - 1;
      var (accepted, st) := RunModel(history[..n]);
      var (allowed, st') := ModelStep(st, history[n].input, history[n].output);
      (accepted && allowed, st')
  }

  /** models/kv.go's Partition, for one key. */
  function PartOf(history: seq<Operation>, key: string): seq<Operation> {
    if history == [] then []
    else
      var n := |history| - 1;
      if history[n].input.Key() == key then PartOf(history[..n], key) + [history[n]] else PartOf(history[..n], key)
  }

  /** The loop of Partition that gathers each key's operations. */
  method Gather(history: seq<Operation>) returns (parts: map<string, seq<Operation>>)
    ensures forall key :: key in parts <==> PartOf(history, key) != []
    ensures forall key | key in parts :: parts[key] == PartOf(history, key)
  {
    parts := map[];
    for i := 0 to |history|
      invariant forall key :: key in parts <==> PartOf(history[..i], key) != []
      invariant forall key | key in parts :: parts[key] == PartOf(history[..i], key)
    {
      assert history[..i + 1][..i] == history[..i];
      var key := history[i].input.Key();
      parts := parts[key := (if key in parts then parts[key] else []) + [history[i]]];
    }
    assert history[..|history|] == history;
  }

  /** Strictly ascending, so without repetition. */
  ghost predicate StrictlyAscending(keys: seq<string>) {
    forall i, j | 0 <= i < j < |keys| :: Less(keys[i], keys[j])
  }

  /** The keys of a map, walked in any order and then sorted. */
  method SortedKeysOf(keys: set<string>) returns (sorted: seq<string>)
    ensures StrictlyAscending(sorted) && forall key :: key in sorted <==> key in keys
  {
    var unsorted: seq<string> := [];
    var rest := keys;
    while rest != {}
      invariant rest <= keys && multiset(unsorted) == multiset(keys - rest)
      decreases |rest|
    {
      var key :| key in rest;
      assert keys - (rest - {key}) == (keys - rest) + {key};
      unsorted := unsorted + [key];
      rest := rest - {key};
    }
    assert keys - rest == keys;
    sorted := SortBy(unsorted, (key: string) => key);
    SortedKeys(sorted, keys);
  }

  lemma {:induction false} PartHasKey(history: seq<Operation>, key: string)
    ensures forall i | 0 <= i < |PartOf(history, key)| :: PartOf(history, key)[i].input.Key() == key
  {
    if history != [] {
      PartHasKey(history[..|history| - 1], key);
    }
  }

  /** The parts of a history, one for each key that occurs in it, in the order of the keys. */
  method Partition(history: seq<Operation>) returns (ret: seq<seq<Operation>>)
    ensures forall i | 0 <= i < |ret| :: ret[i] != [] && ret[i] == PartOf(history, ret[i][0].input.Key())
    ensures forall i, j | 0 <= i < j < |ret| :: Less(ret[i][0].input.Key(), ret[j][0].input.Key())
    ensures forall key | PartOf(history, key) != [] :: PartOf(history, key) in ret
  {
    var parts := Gather(history);
    var keys := SortedKeysOf(parts.Keys);
    assert forall i | 0 <= i < |keys| :: keys[i] in keys;
    ret := [];
    for i := 0 to |keys|
      invariant |ret| == i && forall m | 0 <= m < i :: ret[m] == PartOf(history, keys[m])
    {
      ret := ret + [parts[keys[i]]];
    }
    forall i | 0 <= i < |ret| ensures ret[i] != [] && ret[i][0].input.Key() == keys[i] {
      PartHasKey(history, keys[i]);
    }
    forall key | PartOf(history, key) != [] ensures PartOf(history, key) in ret {
      var i :| 0 <= i < |keys| && keys[i] == key;
      assert ret[i] == PartOf(history, key);
    }
  }

  lemma SortedKeys(sorted: seq<string>, keys: set<string>)
    requires SortedBy(sorted, (key: string) => key) && multiset(sorted) == multiset(keys)
    ensures StrictlyAscending(sorted) && forall key :: key in sorted <==> key in keys
  {
    forall key ensures key in sorted <==> key in keys {
      assert key in sorted <==> key in multiset(sorted);
    }
    forall i, j | 0 <= i < j < |sorted| ensures Less(sorted[i], sorted[j]) {
      LessIsTotal(sorted[i], sorted[j]);
      var id := (key: string) => key;
      assert !Less(id(sorted[j]), id(sorted[i]));
      if sorted[i] == sorted[j] {
        CountedTwice(sorted, i, j);
      }
    }
  }

  lemma CountedTwice(s: seq<string>, i: nat, j: nat)
    requires i < j < |s| && s[i] == s[j]
    ensures multiset(s)[s[i]] >= 2
  {
    assert s == s[..i] + [s[i]] + s[i + 1..j] + [s[j]] + s[j + 1..];
  }

  // ---------------------------------------------------------------- the server's own order

  function Replay(executed: seq<Served>): Store {
    if executed == [] then map[]
    else Serve(Replay(executed[..|executed| - 1]), executed[|executed| - 1].request).0
  }

  ghost predicate ServedOk(s: System, t: nat)
    requires Linked(s) && t < |s.executed|
  {
    var e := s.executed[t];
    && e.attempt < |s.attempts|
    && s.attempts[e.attempt].reply == Some(e.reply) && s.attempts[e.attempt].at == t
    && e.request == RequestOf(s, e.attempt)
    && e.reply == Serve(Replay(s.executed[..t]), e.request).1
    && s.ops[s.attempts[e.attempt].op].invoked <= t
  }

  ghost predicate ExecutedOk(s: System, a: nat)
    requires a < |s.attempts|
  {
    s.attempts[a].reply.Some? ==> s.attempts[a].at < |s.executed| && s.executed[s.attempts[a].at].attempt == a
  }

  /** A returned op has no attempt executed after its return. */
  ghost predicate InTime(s: System, o: nat)
    requires Linked(s) && o < |s.ops|
  {
    && s.ops[o].invoked <= |s.executed|
    && (s.ops[o].result.Some? ==>
          forall a | a in s.ops[o].attempts && a < |s.attempts| && s.attempts[a].reply.Some? ::
            s.attempts[a].at < s.ops[o].returned <= |s.executed|)
  }

  ghost predicate LogInv(s: System) {
    && Inv(s) && !s.late
    && s.store == Replay(s.executed)
    && (forall t: nat {:trigger ServedOk(s, t)} | t < |s.executed| :: ServedOk(s, t))
    && (forall a: nat {:trigger ExecutedOk(s, a)} | a < |s.attempts| :: ExecutedOk(s, a))
    && (forall o: nat {:trigger InTime(s, o)} | o < |s.ops| :: InTime(s, o))
    && (forall o: nat {:trigger NoKeyOk(s, o)} | o < |s.ops| :: NoKeyOk(s, o))
  }

  lemma OldServedKept(s: System, step: Step, t: nat)
    requires LogInv(s) && Enabled(s, step) && t < |s.executed|
    ensures Linked(Apply(s, step)) && t < |Apply(s, step).executed| && ServedOk(Apply(s, step), t)
  {
    StepKeeps(s, step);
    assert ServedOk(s, t);
    var s' := Apply(s, step);
    assert s'.executed[..t] == s.executed[..t];
  }

  lemma ReplayAppend(executed: seq<Served>, e: Served)
    ensures Replay(executed + [e]) == Serve(Replay(executed), e.request).0
  {
    assert (executed + [e])[..|executed|] == executed;
  }

  lemma NewServedOk(s: System, s': System, a: nat)
    requires Linked(s) && Linked(s') && Enabled(s, Execute(a)) && s' == Apply(s, Execute(a))
    requires s.store == Replay(s.executed) && s.ops[s.attempts[a].op].invoked <= |s.executed|
    ensures ServedOk(s', |s.executed|) && s'.store == Replay(s'.executed)
  {
    var request := RequestOf(s, a);
    var e := Served(a, request, Serve(s.store, request).1);
    assert s'.executed == s.executed + [e];
    ReplayAppend(s.executed, e);
    assert s'.executed[..|s.executed|] == s.executed;
  }

  lemma InTimeKept(s: System, step: Step, o: nat)
    requires LogInv(s) && Enabled(s, step) && o < |Apply(s, step).ops|
    ensures Linked(Apply(s, step)) && InTime(Apply(s, step), o)
  {
    StepKeeps(s, step);
    var s' := Apply(s, step);
    if o < |s.ops| {
      assert InTime(s, o);
      forall a | a in s'.ops[o].attempts && a < |s'.attempts| && s'.attempts[a].reply.Some? && s'.ops[o].result.Some?
        ensures s'.attempts[a].at < s'.ops[o].returned <= |s'.executed|
      {
        OwnAttempt(s', o, a);
        if a < |s.attempts| {
          assert ExecutedOk(s, a);
        }
      }
    }
  }

  lemma ExecutedKept(s: System, step: Step, a: nat)
    requires LogInv(s) && Enabled(s, step) && a < |Apply(s, step).attempts|
    ensures ExecutedOk(Apply(s, step), a)
  {
    if a < |s.attempts| {
      assert ExecutedOk(s, a);
    }
  }

  lemma NoKeyStepKept(s: System, step: Step, o: nat)
    requires LogInv(s) && Enabled(s, step) && o < |Apply(s, step).ops|
    ensures Linked(Apply(s, step)) && NoKeyOk(Apply(s, step), o)
  {
    StepKeeps(s, step);
    if o < |s.ops| {
      assert NoKeyOk(s, o);
      if s.ops[o].request.Put? {
        NoKeyKept(s, step, o);
      }
    } else {
      assert Apply(s, step).ops[o].attempts == [|s.attempts|];
    }
  }

  lemma StoreReplayed(s: System, step: Step)
    requires LogInv(s) && Enabled(s, step)
    ensures Linked(Apply(s, step)) && Apply(s, step).store == Replay(Apply(s, step).executed)
    ensures forall t: nat {:trigger ServedOk(Apply(s, step), t)} | t < |Apply(s, step).executed| :: ServedOk(Apply(s, step), t)
  {
    var s' := Apply(s, step);
    StepKeeps(s, step);
    if step.Execute? {
      assert InTime(s, s.attempts[step.attempt].op);
      NewServedOk(s, s', step.attempt);
    }
    forall t: nat | t < |s'.executed| ensures ServedOk(s', t) {
      if t < |s.executed| {
        OldServedKept(s, step, t);
      }
    }
  }

  lemma LogStepKeeps(s: System, step: Step)
    requires LogInv(s) && Enabled(s, step)
    ensures LogInv(Apply(s, step))
  {
    var s' := Apply(s, step);
    StepKeeps(s, step);
    StoreReplayed(s, step);
    forall a: nat | a < |s'.attempts| ensures ExecutedOk(s', a) {
      ExecutedKept(s, step, a);
    }
    forall o: nat | o < |s'.ops| ensures InTime(s', o) {
      InTimeKept(s, step, o);
    }
    forall o: nat | o < |s'.ops| ensures NoKeyOk(s', o) {
      NoKeyStepKept(s, step, o);
    }
  }

  lemma {:induction false} LogRunKeeps(run: seq<System>, k: nat)
    requires IsRun(run) && !run[0].late && k < |run|
    ensures LogInv(run[k])
  {
    if k == 0 {
      RunKeeps(run, 0);
    } else {
      LogRunKeeps(run, k - 1);
      assert Stepped(run, k - 1);
      var step :| Enabled(run[k - 1], step) && run[k] == Apply(run[k - 1], step);
      LogStepKeeps(run[k - 1], step);
    }
  }

  // ---------------------------------------------------------------- linearization points

  /** Execution t is where op o takes effect: its successful attempt, or else, once it has returned,
      the attempt whose answer it returned. Puts answered ErrNoKey have no point. */
  ghost predicate IsPoint(s: System, o: nat, t: nat)
    requires Linked(s)
  {
    && t < |s.executed| && o < |s.ops|
    && var e := s.executed[t];
       && e.attempt < |s.attempts| && s.attempts[e.attempt].op == o
       && match e.request
          case Get(_) => s.ops[o].result.Some? && e.attempt == Last(s.ops[o])
          case Put(_) => e.reply == Done(OK)
                         || (s.ops[o].result.Some? && !Performed(s, o)
                             && e.attempt == Last(s.ops[o]) && e.reply == Done(ErrVersion))
  }

  /** What the op answered; one that is still running but has taken effect may yet answer ErrMaybe. */
  function Output(op: Op): Reply {
    match op.result
    case Some(reply) => reply
    case None => Done(ErrMaybe)
  }

  ghost function OpAt(s: System, t: nat): nat
    requires Linked(s) && t < |s.executed| && ServedOk(s, t)
  {
    s.attempts[s.executed[t].attempt].op
  }

  /** The operations with a point among the first t executions, in the order of their points. */
  ghost function Ordered(s: System, t: nat): seq<Operation>
    requires LogInv(s) && t <= |s.executed|
  {
    if t == 0 then []
    else
      assert ServedOk(s, t - 1);
      var o := OpAt(s, t - 1);
      if IsPoint(s, o, t - 1)
      then Ordered(s, t - 1) + [Operation(o, s.ops[o].request, Output(s.ops[o]), t - 1)]
      else Ordered(s, t - 1)
  }

  // ---------------------------------------------------------------- the order is legal

  /** The model's step at a point moves exactly as the store does. */
  lemma PointIsLegal(s: System, t: nat, o: nat)
    requires LogInv(s) && t < |s.executed| && IsPoint(s, o, t)
    ensures ServedOk(s, t)
    ensures var before, key := Replay(s.executed[..t]), s.ops[o].request.Key();
            var after := Serve(before, s.ops[o].request).0;
            ModelStep(KvState(ValueOf(before, key), VersionOf(before, key)), s.ops[o].request, Output(s.ops[o]))
              == (true, KvState(ValueOf(after, key), VersionOf(after, key)))
  {
    assert ServedOk(s, t);
    assert OpOk(s, o) && NoKeyOk(s, o);
    var a := s.executed[t].attempt;
    ReplayOk(s.executed[..t]);
    if s.ops[o].request.Put? {
      PutIsCompareAndSwap(Replay(s.executed[..t]), s.ops[o].request.args);
      assert a in s.ops[o].attempts;
      if s.executed[t].reply == Done(OK) {
        assert Effective(s, a);
        assert Performed(s, o);
        if s.ops[o].result.Some? {
          assert ReplyOk(s, Last(s.ops[o]));
          OneAttemptIsLast(s, o, a);
        }
      }
    }
  }

  lemma OneAttemptIsLast(s: System, o: nat, a: nat)
    requires Linked(s) && o < |s.ops| && a in s.ops[o].attempts
    ensures |s.ops[o].attempts| == 1 ==> a == Last(s.ops[o])
  {
  }

  lemma {:induction false} ReplayOk(executed: seq<Served>)
    ensures StoreOk(Replay(executed))
  {
    if executed != [] {
      ReplayOk(executed[..|executed| - 1]);
      ServeRaisesVersions(Replay(executed[..|executed| - 1]), executed[|executed| - 1].request, "");
    }
  }

  /** An execution that is nobody's point changes nothing. */
  lemma NoPointNoChange(s: System, t: nat)
    requires LogInv(s) && t < |s.executed| && ServedOk(s, t) && !IsPoint(s, OpAt(s, t), t)
    ensures Replay(s.executed[..t + 1]) == Replay(s.executed[..t])
  {
    ReplayOk(s.executed[..t]);
    assert s.executed[..t + 1][..t] == s.executed[..t];
    if s.executed[t].request.Put? {
      PutIsCompareAndSwap(Replay(s.executed[..t]), s.executed[t].request.args);
    }
  }

  /** Appending an operation of the key runs the model one step on; any other leaves it. */
  lemma RunAppend(history: seq<Operation>, next: Operation, key: string)
    ensures PartOf(history + [next], key) ==
              if next.input.Key() == key then PartOf(history, key) + [next] else PartOf(history, key)
    ensures next.input.Key() == key ==>
              var (accepted, st) := RunModel(PartOf(history, key));
              var (allowed, st') := ModelStep(st, next.input, next.output);
              RunModel(PartOf(history + [next], key)) == (accepted && allowed, st')
  {
    assert (history + [next])[..|history|] == history;
    var part := PartOf(history, key);
    assert (part + [next])[..|part|] == part;
  }

  ghost predicate Legal(s: System, key: string, t: nat)
    requires LogInv(s) && t <= |s.executed|
  {
    var store := Replay(s.executed[..t]);
    RunModel(PartOf(Ordered(s, t), key)) == (true, KvState(ValueOf(store, key), VersionOf(store, key)))
  }

  lemma LegalAtPoint(s: System, key: string, t: nat, o: nat)
    requires LogInv(s) && t < |s.executed| && ServedOk(s, t) && o == OpAt(s, t) && IsPoint(s, o, t)
    requires Legal(s, key, t)
    ensures Legal(s, key, t + 1)
  {
    var next := Operation(o, s.ops[o].request, Output(s.ops[o]), t);
    PointIsLegal(s, t, o);
    RunAppend(Ordered(s, t), next, key);
    assert Ordered(s, t + 1) == Ordered(s, t) + [next];
    assert s.executed[..t + 1] == s.executed[..t] + [s.executed[t]];
    ReplayAppend(s.executed[..t], s.executed[t]);
    ReplayOk(s.executed[..t]);
    ServeRaisesVersions(Replay(s.executed[..t]), s.executed[t].request, key);
  }

  lemma {:induction false} OrderIsLegal(s: System, key: string, t: nat)
    requires LogInv(s) && t <= |s.executed|
    ensures Legal(s, key, t)
  {
    if t == 0 {
      assert s.executed[..0] == [];
    } else {
      OrderIsLegal(s, key, t - 1);
      assert ServedOk(s, t - 1);
      var o := OpAt(s, t - 1);
      if IsPoint(s, o, t - 1) {
        LegalAtPoint(s, key, t - 1, o);
      } else {
        NoPointNoChange(s, t - 1);
        assert Ordered(s, t) == Ordered(s, t - 1);
      }
    }
  }

  // ---------------------------------------------------------------- the order is complete and real-time

  lemma {:induction false} OrderedEntries(s: System, t: nat)
    requires LogInv(s) && t <= |s.executed|
    ensures forall i: nat | i < |Ordered(s, t)| ::
              var e := Ordered(s, t)[i];
              e.at < t && IsPoint(s, e.op, e.at) && e.input == s.ops[e.op].request && e.output == Output(s.ops[e.op])
    ensures forall i, j | 0 <= i < j < |Ordered(s, t)| :: Ordered(s, t)[i].at < Ordered(s, t)[j].at
  {
    if t > 0 {
      assert ServedOk(s, t - 1);
      OrderedEntries(s, t - 1);
    }
  }

  lemma {:induction false} PointIsOrdered(s: System, o: nat, at: nat, t: nat)
    requires LogInv(s) && at < t <= |s.executed| && IsPoint(s, o, at)
    ensures Operation(o, s.ops[o].request, Output(s.ops[o]), at) in Ordered(s, t)
  {
    assert ServedOk(s, t - 1);
    if at < t - 1 {
      PointIsOrdered(s, o, at, t - 1);
    }
  }

  lemma PointIsUnique(s: System, o: nat, t: nat, u: nat)
    requires LogInv(s) && IsPoint(s, o, t) && IsPoint(s, o, u)
    ensures t == u
  {
    assert ServedOk(s, t) && ServedOk(s, u);
    var a, b := s.executed[t].attempt, s.executed[u].attempt;
    if s.ops[o].request.Put? {
      assert ReplyOk(s, a) && ReplyOk(s, b);
      if s.executed[t].reply == Done(OK) {
        assert Effective(s, a) && Performed(s, o);
      }
      if s.executed[u].reply == Done(OK) {
        assert Effective(s, b) && Performed(s, o);
      }
    }
    assert a == b;
  }

  /** Puts answered ErrNoKey are the only returned operations that are left out of the order. */
  ghost predicate LeftOut(op: Op) {
    op.request.Put? && op.result == Some(Done(ErrNoKey))
  }

  lemma ReturnedHasPoint(s: System, o: nat) returns (t: nat)
    requires LogInv(s) && o < |s.ops| && s.ops[o].result.Some? && !LeftOut(s.ops[o])
    ensures t < |s.executed| && IsPoint(s, o, t)
  {
    assert OpOk(s, o);
    var last := Last(s.ops[o]);
    assert last in s.ops[o].attempts;
    OwnAttempt(s, o, last);
    assert ReplyOk(s, last);
    var a := last;
    if s.ops[o].request.Put? && Performed(s, o) {
      a :| a in s.ops[o].attempts && Effective(s, a);
      OwnAttempt(s, o, a);
    }
    assert ExecutedOk(s, a);
    t := s.attempts[a].at;
    assert ServedOk(s, t);
  }

  lemma PointInTime(s: System, o: nat, t: nat)
    requires LogInv(s) && IsPoint(s, o, t)
    ensures s.ops[o].invoked <= t && (s.ops[o].result.Some? ==> t < s.ops[o].returned)
  {
    assert ServedOk(s, t);
    assert InTime(s, o);
  }

  /** Key/value runs refine the model, when each request executes before its call gives up: the
      operations of any moment have an order whose part for every key the model accepts; every
      returned operation, bar the puts answered ErrNoKey, appears in it exactly once with its own
      answer; and an operation that returned before another was invoked comes first. */
  lemma Linearizable(run: seq<System>, k: nat) returns (order: seq<Operation>)
    requires IsRun(run) && !run[0].late && k < |run|
    ensures forall key :: RunModel(PartOf(order, key)).0
    ensures forall i: nat | i < |order| ::
              order[i].op < |run[k].ops| && order[i].input == run[k].ops[order[i].op].request
              && order[i].output == Output(run[k].ops[order[i].op]) && !LeftOut(run[k].ops[order[i].op])
    ensures forall i, j | 0 <= i < j < |order| :: order[i].op != order[j].op
    ensures forall o: nat | o < |run[k].ops| && run[k].ops[o].result.Some? && !LeftOut(run[k].ops[o]) ::
              exists i :: 0 <= i < |order| && order[i].op == o
    ensures forall i, j | 0 <= i < j < |order| ::
              run[k].ops[order[j].op].result.Some? ==> run[k].ops[order[i].op].invoked < run[k].ops[order[j].op].returned
  {
    var s := run[k];
    LogRunKeeps(run, k);
    var n := |s.executed|;
    order := Ordered(s, n);
    forall key ensures RunModel(PartOf(order, key)).0 {
      OrderIsLegal(s, key, n);
      assert Legal(s, key, n);
    }
    OrderedEntries(s, n);
    forall i: nat | i < |order| ensures !LeftOut(s.ops[order[i].op]) {
      PointNotLeftOut(s, order[i].op, order[i].at);
    }
    forall i, j | 0 <= i < j < |order| ensures order[i].op != order[j].op {
      if order[i].op == order[j].op {
        PointIsUnique(s, order[i].op, order[i].at, order[j].at);
      }
    }
    forall o: nat | o < |s.ops| && s.ops[o].result.Some? && !LeftOut(s.ops[o])
      ensures exists i :: 0 <= i < |order| && order[i].op == o
    {
      var t := ReturnedHasPoint(s, o);
      PointIsOrdered(s, o, t, n);
    }
    forall i, j | 0 <= i < j < |order| && s.ops[order[j].op].result.Some?
      ensures s.ops[order[i].op].invoked < s.ops[order[j].op].returned
    {
      PointInTime(s, order[i].op, order[i].at);
      PointInTime(s, order[j].op, order[j].at);
    }
  }

  lemma PointNotLeftOut(s: System, o: nat, t: nat)
    requires LogInv(s) && IsPoint(s, o, t)
    ensures !LeftOut(s.ops[o])
  {
    assert ServedOk(s, t);
    assert OpOk(s, o) && NoKeyOk(s, o);
    if s.executed[t].reply == Done(OK) {
      assert Effective(s, s.executed[t].attempt) && Performed(s, o);
    }
  }
}
