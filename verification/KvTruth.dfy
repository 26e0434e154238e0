/** At-most-once puts, and what each answer of Clerk.Put tells its caller. */
module KvTruth {
  import opened KvServer
  import opened KvNetwork

  /** The attempt is a Put that the server performed. */
  ghost predicate Effective(s: System, a: nat) {
    a < |s.attempts| && s.attempts[a].reply == Some(Done(OK))
  }

  ghost predicate Performed(s: System, o: nat)
    requires o < |s.ops|
  {
    exists a :: a in s.ops[o].attempts && Effective(s, a)
  }

  // ---------------------------------------------------------------- at most once

  /** For each key and version at most one attempt of anybody ever succeeds. */
  lemma OneWriterPerVersion(run: seq<System>, k: nat, a: nat, b: nat)
    requires IsRun(run) && k < |run| && Effective(run[k], a) && Effective(run[k], b)
    requires Linked(run[k])
    requires RequestOf(run[k], a).Put? && RequestOf(run[k], b).Put?
    requires RequestOf(run[k], a).args.key == RequestOf(run[k], b).args.key
    requires RequestOf(run[k], a).args.version == RequestOf(run[k], b).args.version
    ensures a == b
  {
    RunKeeps(run, k);
    assert ReplyOk(run[k], a) && ReplyOk(run[k], b);
  }

  lemma OwnAttempt(s: System, o: nat, a: nat)
    requires Inv(s) && o < |s.ops| && a in s.ops[o].attempts
    ensures a < |s.attempts| && s.attempts[a].op == o
  {
    assert Owns(s, o);
    var i :| 0 <= i < |s.ops[o].attempts| && s.ops[o].attempts[i] == a;
  }

  /** However often one Clerk.Put is re-sent or delivered late, it takes effect at most once. */
  lemma AtMostOnce(run: seq<System>, k: nat, o: nat, a: nat, b: nat)
    requires IsRun(run) && k < |run| && o < |run[k].ops| && run[k].ops[o].request.Put?
    requires a in run[k].ops[o].attempts && b in run[k].ops[o].attempts
    requires Effective(run[k], a) && Effective(run[k], b)
    ensures a == b
  {
    RunKeeps(run, k);
    OwnAttempt(run[k], o, a);
    OwnAttempt(run[k], o, b);
    OneWriterPerVersion(run, k, a, b);
  }

  // ---------------------------------------------------------------- truthful answers

  /** A call returns what the server answered its last attempt, but for ErrVersion to a re-sent put, which
      it reports as ErrMaybe. */
  lemma AnswerIsPassedOn(run: seq<System>, k: nat, o: nat)
    requires IsRun(run) && k < |run| && o < |run[k].ops| && run[k].ops[o].result.Some?
    ensures var op := run[k].ops[o];
      && |op.attempts| > 0 && Last(op) < |run[k].attempts| && run[k].attempts[Last(op)].reply.Some?
      && var reply := run[k].attempts[Last(op)].reply.value;
         op.result.value == if reply == Done(ErrVersion) && |op.attempts| > 1 then Done(ErrMaybe) else reply
  {
    RunKeeps(run, k);
    assert OpOk(run[k], o);
    assert Last(run[k].ops[o]) in run[k].ops[o].attempts;
    OwnAttempt(run[k], o, Last(run[k].ops[o]));
  }

  /** OK means the put took effect; by AtMostOnce, exactly once. */
  lemma OkMeansPerformed(run: seq<System>, k: nat, o: nat)
    requires IsRun(run) && k < |run| && o < |run[k].ops| && run[k].ops[o].request.Put?
    requires run[k].ops[o].result == Some(Done(OK))
    ensures Performed(run[k], o)
  {
    RunKeeps(run, k);
    assert OpOk(run[k], o);
    assert Last(run[k].ops[o]) in run[k].ops[o].attempts;
  }

  /** ErrVersion means it never happens, now or at any later time: the op had one attempt, and the
      server answered that one. */
  lemma ErrVersionMeansNever(run: seq<System>, j: nat, k: nat, o: nat)
    requires IsRun(run) && j <= k < |run| && o < |run[j].ops| && run[j].ops[o].request.Put?
    requires run[j].ops[o].result == Some(Done(ErrVersion))
    ensures o < |run[k].ops| && !Performed(run[k], o)
  {
    ResultStays(run, j, k, o);
    RunKeeps(run, k);
    assert OpOk(run[k], o);
    forall a | a in run[k].ops[o].attempts ensures !Effective(run[k], a) {
      assert a == Last(run[k].ops[o]);
    }
  }

  lemma {:induction false} ResultStays(run: seq<System>, j: nat, k: nat, o: nat)
    requires IsRun(run) && j <= k < |run| && o < |run[j].ops| && run[j].ops[o].result.Some?
    ensures o < |run[k].ops| && run[k].ops[o] == run[j].ops[o]
    decreases k
  {
    if j < k {
      ResultStays(run, j, k - 1, o);
      OneStepGrows(run, k - 1);
    }
  }

  lemma OneStepGrows(run: seq<System>, k: nat)
    requires IsRun(run) && k + 1 < |run|
    ensures Grows(run[k], run[k + 1])
  {
    RunKeeps(run, k);
    assert Stepped(run, k);
    var step :| Enabled(run[k], step) && run[k + 1] == Apply(run[k], step);
    StepKeeps(run[k], step);
  }

  /** Without late delivery, an op whose last answer was ErrNoKey has had no effect. */
  ghost predicate NoKeyOk(s: System, o: nat)
    requires Linked(s) && o < |s.ops|
  {
    !s.late && s.ops[o].request.Put? && s.attempts[s.ops[o].attempts[|s.ops[o].attempts| - 1]].reply == Some(Done(ErrNoKey))
    ==> !Performed(s, o)
  }

  /** A put that took effect left its key present, at a version beyond the one it named. */
  lemma EffectiveIsPast(s: System, a: nat)
    requires Inv(s) && Effective(s, a) && RequestOf(s, a).Put?
    ensures VersionOf(s.store, RequestOf(s, a).args.key) > RequestOf(s, a).args.version
  {
    assert ReplyOk(s, a);
    assert WriterOk(s, (RequestOf(s, a).args.key, RequestOf(s, a).args.version + 1));
  }

  lemma NoKeyKept(s: System, step: Step, o: nat)
    requires Inv(s) && Enabled(s, step) && !s.late
    requires o < |s.ops| && NoKeyOk(s, o) && s.ops[o].request.Put?
    requires Linked(Apply(s, step)) && o < |Apply(s, step).ops|
    ensures NoKeyOk(Apply(s, step), o)
  {
    StepKeeps(s, step);
    var s' := Apply(s, step);
    if s'.attempts[Last(s'.ops[o])].reply == Some(Done(ErrNoKey)) {
      assert Last(s'.ops[o]) in s'.ops[o].attempts;
      OwnAttempt(s', o, Last(s'.ops[o]));
      assert !step.Retry? || step.op != o;
      forall a | a in s'.ops[o].attempts ensures !Effective(s', a) {
        OwnAttempt(s', o, a);
        assert a in s.ops[o].attempts;
        if step.Execute? && s.attempts[step.attempt].op == o {
          assert step.attempt == Last(s.ops[o]);
          if Effective(s, a) {
            EffectiveIsPast(s, a);
          }
        }
      }
    }
  }

  lemma {:induction false} NoKeyOverRuns(run: seq<System>, k: nat, o: nat)
    requires IsRun(run) && k < |run| && !run[0].late && Linked(run[k]) && o < |run[k].ops|
    ensures NoKeyOk(run[k], o) && !run[k].late
  {
    if k > 0 {
      RunKeeps(run, k - 1);
      assert Stepped(run, k - 1);
      var step :| Enabled(run[k - 1], step) && run[k] == Apply(run[k - 1], step);
      NotLate(run, k - 1);
      if o < |run[k - 1].ops| && run[k].ops[o].request.Put? {
        NoKeyOverRuns(run, k - 1, o);
        NoKeyKept(run[k - 1], step, o);
      } else if o == |run[k - 1].ops| {
        assert run[k].ops[o].attempts == [|run[k - 1].attempts|];
      }
    }
  }

  lemma {:induction false} NotLate(run: seq<System>, k: nat)
    requires IsRun(run) && k < |run|
    ensures run[k].late == run[0].late
  {
    if k > 0 {
      NotLate(run, k - 1);
      assert Stepped(run, k - 1);
    }
  }

  /** When every request is executed before its call gives up, ErrNoKey too means it never happens. */
  lemma ErrNoKeyMeansNever(run: seq<System>, j: nat, k: nat, o: nat)
    requires IsRun(run) && j <= k < |run| && o < |run[j].ops| && run[j].ops[o].request.Put?
    requires run[j].ops[o].result == Some(Done(ErrNoKey)) && !run[0].late
    ensures o < |run[k].ops| && !Performed(run[k], o)
  {
    ResultStays(run, j, k, o);
    RunKeeps(run, k);
    assert OpOk(run[k], o);
    NoKeyOverRuns(run, k, o);
  }

  /** An op answered on its first attempt that the key does not exist never happens, however late
      requests may arrive: that attempt was all there was of it. */
  lemma FirstTryNoKeyMeansNever(run: seq<System>, j: nat, k: nat, o: nat)
    requires IsRun(run) && j <= k < |run| && o < |run[j].ops| && run[j].ops[o].request.Put?
    requires run[j].ops[o].result == Some(Done(ErrNoKey)) && |run[j].ops[o].attempts| == 1
    ensures o < |run[k].ops| && !Performed(run[k], o)
  {
    ResultStays(run, j, k, o);
    RunKeeps(run, k);
    assert OpOk(run[k], o);
    forall a | a in run[k].ops[o].attempts ensures !Effective(run[k], a) {
      assert a == Last(run[k].ops[o]);
    }
  }

  // ---------------------------------------------------------------- late delivery, exactly

  /** `s'` follows from `s` by these steps. */
  ghost predicate Leads(s: System, steps: seq<Step>, s': System)
    decreases |steps|
  {
    if steps == [] then s' == s
    else Linked(s) && Enabled(s, steps[0]) && Leads(Apply(s, steps[0]), steps[1..], s')
  }

  ghost predicate CanHappen(s: System, o: nat)
    requires o < |s.ops|
  {
    exists steps, s' :: Leads(s, steps, s') && o < |s'.ops| && Performed(s', o)
  }

  /** Some attempt of the op is still on its way. */
  ghost predicate OnItsWay(s: System, o: nat)
    requires o < |s.ops|
  {
    exists a :: a in s.ops[o].attempts && a < |s.attempts| && s.attempts[a].reply.None?
  }

  /** The op has returned, has had no effect, and nothing can change that. */
  ghost predicate Spent(s: System, o: nat) {
    && o < |s.ops| && s.ops[o].request.Put? && s.ops[o].result.Some? && !Performed(s, o)
    && (!s.late || !OnItsWay(s, o) || VersionOf(s.store, s.ops[o].request.args.key) > s.ops[o].request.args.version)
  }

  lemma SpentStays(s: System, step: Step, o: nat)
    requires Inv(s) && Enabled(s, step) && Spent(s, o)
    ensures Spent(Apply(s, step), o)
  {
    StepKeeps(s, step);
    var s' := Apply(s, step);
    assert s'.ops[o] == s.ops[o];
    forall a | a in s'.ops[o].attempts ensures !Effective(s', a) {
      OwnAttempt(s, o, a);
      if step.Execute? && step.attempt == a {
        PutIsCompareAndSwap(s.store, s.ops[o].request.args);
      }
    }
    if OnItsWay(s', o) {
      var a :| a in s'.ops[o].attempts && a < |s'.attempts| && s'.attempts[a].reply.None?;
      OwnAttempt(s, o, a);
      assert s.attempts[a].reply.None?;
    }
  }

  lemma {:induction false} SpentForever(s: System, steps: seq<Step>, s': System, o: nat)
    requires Inv(s) && Spent(s, o) && Leads(s, steps, s')
    ensures Spent(s', o)
    decreases |steps|
  {
    if steps != [] {
      SpentStays(s, steps[0], o);
      StepKeeps(s, steps[0]);
      SpentForever(Apply(s, steps[0]), steps[1..], s', o);
    }
  }

  /** Another clerk raises the version of the key by one. */
  lemma Bump(s: System, key: string) returns (s': System, steps: seq<Step>)
    requires Inv(s)
    ensures Leads(s, steps, s') && Inv(s') && |s.ops| <= |s'.ops| && |s.attempts| <= |s'.attempts| && s'.late == s.late
    ensures VersionOf(s'.store, key) == VersionOf(s.store, key) + 1
    ensures forall o | 0 <= o < |s.ops| :: s'.ops[o] == s.ops[o]
    ensures forall a | 0 <= a < |s.attempts| :: s'.attempts[a] == s.attempts[a]
  {
    var args := PutArgs(key, "", VersionOf(s.store, key));
    var first := Invoke(Put(args));
    StepKeeps(s, first);
    var m := Apply(s, first);
    var second := Execute(|s.attempts|);
    assert Enabled(m, second);
    StepKeeps(m, second);
    PutIsCompareAndSwap(m.store, args);
    s' := Apply(m, second);
    steps := [first, second];
    assert steps[1..] == [second];
    assert Leads(m, [second], s');
  }

  lemma {:induction false} LeadsOn(s: System, a: seq<Step>, m: System, b: seq<Step>, s': System)
    requires Leads(s, a, m) && Leads(m, b, s')
    ensures Leads(s, a + b, s')
    decreases |a|
  {
    if a == [] {
      assert a + b == b;
    } else {
      LeadsOn(Apply(s, a[0]), a[1..], m, b, s');
      assert (a + b)[1..] == a[1..] + b;
    }
  }

  lemma {:induction false} LateDelivery(s: System, o: nat, a: nat) returns (steps: seq<Step>, s': System)
    requires Inv(s) && s.late && o < |s.ops| && s.ops[o].request.Put?
    requires a in s.ops[o].attempts && a < |s.attempts| && s.attempts[a].reply.None?
    requires VersionOf(s.store, s.ops[o].request.args.key) <= s.ops[o].request.args.version
    ensures Leads(s, steps, s') && o < |s'.ops| && Performed(s', o)
    ensures Inv(s') && |s.attempts| <= |s'.attempts| && s'.ops[o] == s.ops[o]
    ensures forall b | 0 <= b < |s.attempts| && b != a :: s'.attempts[b] == s.attempts[b]
    decreases s.ops[o].request.args.version - VersionOf(s.store, s.ops[o].request.args.key)
  {
    var args := s.ops[o].request.args;
    OwnAttempt(s, o, a);
    if VersionOf(s.store, args.key) == args.version {
      StepKeeps(s, Execute(a));
      PutIsCompareAndSwap(s.store, args);
      steps, s' := [Execute(a)], Apply(s, Execute(a));
      assert Leads(s', steps[1..], s');
      assert Effective(s', a);
    } else {
      var m, first := Bump(s, args.key);
      var rest;
      rest, s' := LateDelivery(m, o, a);
      LeadsOn(s, first, m, rest, s');
      steps := first + rest;
    }
  }

  /** A returned put has taken effect or still can exactly when it already has, or late delivery is
      possible, one of its attempts is still on its way, and the key has not passed its version. */
  lemma ReturnedPutCanHappen(run: seq<System>, k: nat, o: nat)
    requires IsRun(run) && k < |run| && o < |run[k].ops| && run[k].ops[o].request.Put?
    requires run[k].ops[o].result.Some?
    ensures CanHappen(run[k], o) <==>
              || Performed(run[k], o)
              || (run[k].late && OnItsWay(run[k], o)
                  && VersionOf(run[k].store, run[k].ops[o].request.args.key) <= run[k].ops[o].request.args.version)
  {
    RunKeeps(run, k);
    var s := run[k];
    if Performed(s, o) {
      assert Leads(s, [], s);
    } else if Spent(s, o) {
      forall steps, s' | Leads(s, steps, s') ensures o < |s'.ops| ==> !Performed(s', o) {
        SpentForever(s, steps, s', o);
      }
    } else {
      var a :| a in s.ops[o].attempts && a < |s.attempts| && s.attempts[a].reply.None?;
      var steps, s' := LateDelivery(s, o, a);
    }
  }

  // ---------------------------------------------------------------- what ErrNoKey is worth

  /** A put that was answered ErrNoKey after n attempts did not happen and never will, whatever the
      other clerks do and whenever its return is looked at. */
  ghost predicate NoKeyIsTrue(put: Request, n: nat, late: bool) {
    forall run, j: nat, k: nat, o: nat {:trigger AnsweredNoKey(run, j, o, put, n, late), Happened(run, k, o)} ::
      j <= k && AnsweredNoKey(run, j, o, put, n, late) ==> !Happened(run, k, o)
  }

  ghost predicate AnsweredNoKey(run: seq<System>, j: nat, o: nat, put: Request, n: nat, late: bool) {
    && IsRun(run) && run[0].late == late && j < |run| && o < |run[j].ops|
    && run[j].ops[o].request == put && |run[j].ops[o].attempts| == n
    && run[j].ops[o].result == Some(Done(ErrNoKey))
  }

  ghost predicate Happened(run: seq<System>, k: nat, o: nat) {
    k < |run| && o < |run[k].ops| && Performed(run[k], o)
  }

  /** A put sent n times, none of them executed yet. */
  ghost predicate SentTimes(s: System, put: Request, n: nat) {
    && Inv(s) && s.late && s.store == map[] && |s.ops| == 1 && |s.attempts| == n
    && s.ops[0].request == put && s.ops[0].result.None? && |s.ops[0].attempts| == n
    && (forall i | 0 <= i < n :: s.ops[0].attempts[i] == i && s.attempts[i].reply.None?)
  }

  lemma {:induction false} SendTimes(put: Request, n: nat) returns (s: System, steps: seq<Step>, s': System)
    requires put.Put? && n > 0
    ensures Init(s) && s.late && Leads(s, steps, s') && SentTimes(s', put, n)
  {
    if n == 1 {
      s, steps := System(map[], [], [], [], map[], true), [Invoke(put)];
      StepKeeps(s, Invoke(put));
      s' := Apply(s, Invoke(put));
      assert Leads(s', steps[1..], s');
    } else {
      var m, sent;
      s, sent, m := SendTimes(put, n - 1);
      StepKeeps(m, Retry(0));
      s' := Apply(m, Retry(0));
      assert Leads(s', [Retry(0)][1..], s');
      LeadsOn(s, sent, m, [Retry(0)], s');
      steps := sent + [Retry(0)];
    }
  }

  /** The last of n attempts is executed alone and told that the key does not exist. */
  lemma LastToldNoKey(put: Request, n: nat) returns (s: System, steps: seq<Step>, s': System)
    requires put.Put? && put.args.version > 0 && n > 1
    ensures Init(s) && s.late && Leads(s, steps, s') && Inv(s') && s'.late && s'.store == map[]
    ensures |s'.ops| == 1 && s'.ops[0].request == put && s'.ops[0].result.None? && |s'.ops[0].attempts| == n
    ensures s'.ops[0].attempts[0] == 0 && Last(s'.ops[0]) == n - 1
    ensures |s'.attempts| == n && s'.attempts[0].reply.None? && s'.attempts[n - 1].reply == Some(Done(ErrNoKey))
  {
    var m, sent;
    s, sent, m := SendTimes(put, n);
    assert Owns(m, 0);
    StepKeeps(m, Execute(n - 1));
    s' := Apply(m, Execute(n - 1));
    assert Leads(s', [Execute(n - 1)][1..], s');
    LeadsOn(s, sent, m, [Execute(n - 1)], s');
    steps := sent + [Execute(n - 1)];
  }

  /** The op's call returns the answer of its last attempt. */
  lemma ReturnsNoKey(s: System) returns (s': System)
    requires Inv(s) && |s.ops| > 0 && s.ops[0].request.Put? && s.ops[0].result.None?
    requires |s.ops[0].attempts| > 0 && Last(s.ops[0]) < |s.attempts|
    requires s.attempts[Last(s.ops[0])].reply == Some(Done(ErrNoKey))
    ensures Leads(s, [Return(0)], s') && Inv(s') && s'.late == s.late && s'.store == s.store
    ensures s'.attempts == s.attempts && |s'.ops| == |s.ops|
    ensures s'.ops[0].request == s.ops[0].request && s'.ops[0].attempts == s.ops[0].attempts
    ensures s'.ops[0].result == Some(Done(ErrNoKey))
  {
    StepKeeps(s, Return(0));
    s' := Apply(s, Return(0));
    assert Leads(s', [Return(0)][1..], s');
  }

  /** For every put of a version beyond 0 and every number of attempts beyond the first, the ErrNoKey
      answer can be wrong: the first request, arriving after the answer, finds the key created in the
      meantime at just the version it names. */
  lemma ErrNoKeyCanBeWrong(put: Request, n: nat)
    returns (s: System, steps: seq<Step>, m: System, more: seq<Step>, s': System)
    requires put.Put? && put.args.version > 0 && n > 1
    ensures Init(s) && s.late && Leads(s, steps, m) && Leads(m, more, s')
    ensures |m.ops| > 0 && m.ops[0].request == put && |m.ops[0].attempts| == n
    ensures m.ops[0].result == Some(Done(ErrNoKey)) && !Performed(m, 0)
    ensures |s'.ops| > 0 && Performed(s', 0)
  {
    var told, first;
    s, first, told := LastToldNoKey(put, n);
    m := ReturnsNoKey(told);
    LeadsOn(s, first, told, [Return(0)], m);
    steps := first + [Return(0)];
    NothingPerformed(m, 0);
    assert 0 in m.ops[0].attempts;
    more, s' := LateDelivery(m, 0, 0);
  }

  lemma NothingPerformed(s: System, o: nat)
    requires Inv(s) && s.store == map[] && o < |s.ops| && s.ops[o].request.Put?
    ensures !Performed(s, o)
  {
    forall a | a in s.ops[o].attempts ensures !Effective(s, a) {
      OwnAttempt(s, o, a);
      if Effective(s, a) {
        EffectiveIsPast(s, a);
      }
    }
  }

  /** It can even be wrong when it is given: the first request takes effect while the answer to the last
      one is on its way back. */
  lemma PerformedYetNoKey(put: Request, n: nat) returns (s: System, steps: seq<Step>, s': System)
    requires put.Put? && put.args.version > 0 && n > 1
    ensures Init(s) && s.late && Leads(s, steps, s')
    ensures |s'.ops| > 0 && s'.ops[0].request == put && |s'.ops[0].attempts| == n
    ensures s'.ops[0].result == Some(Done(ErrNoKey)) && Performed(s', 0)
  {
    var told, first, done, late;
    s, first, told := LastToldNoKey(put, n);
    assert 0 in told.ops[0].attempts;
    late, done := LateDelivery(told, 0, 0);
    s' := ReturnsNoKey(done);
    LeadsOn(s, first, told, late, done);
    LeadsOn(s, first + late, done, [Return(0)], s');
    steps := first + late + [Return(0)];
    var a :| a in done.ops[0].attempts && Effective(done, a);
    assert a in s'.ops[0].attempts && Effective(s', a);
  }

  /** Steps from an initial state make a run. */
  lemma RunOf(s: System, steps: seq<Step>, s': System) returns (run: seq<System>)
    requires Init(s) && Leads(s, steps, s')
    ensures IsRun(run) && run[0] == s && run[|run| - 1] == s'
  {
    run := PathOf(s, steps, s');
  }

  lemma {:induction false} PathOf(s: System, steps: seq<Step>, s': System) returns (path: seq<System>)
    requires Leads(s, steps, s')
    ensures |path| > 0 && path[0] == s && path[|path| - 1] == s'
    ensures forall k: nat {:trigger Stepped(path, k)} | k + 1 < |path| :: Stepped(path, k)
    decreases |steps|
  {
    if steps == [] {
      path := [s];
    } else {
      var rest := PathOf(Apply(s, steps[0]), steps[1..], s');
      path := [s] + rest;
      forall k: nat | k + 1 < |path| ensures Stepped(path, k) {
        if k > 0 {
          assert Stepped(rest, k - 1);
        }
      }
    }
  }

  /** What ErrNoKey is worth, exactly: it means that the put did not happen and never will if and only if
      no request arrives late, or the clerk was answered on its first attempt, or the put names version 0,
      which the server never answers so. The middle condition is the clerk's own `iteration > 0`. */
  lemma NoKeyIsTrueExactly(put: Request, n: nat, late: bool)
    requires put.Put?
    ensures NoKeyIsTrue(put, n, late) <==> !late || n <= 1 || put.args.version == 0
  {
    if !late || n <= 1 || put.args.version == 0 {
      forall run, j: nat, k: nat, o: nat | j <= k && AnsweredNoKey(run, j, o, put, n, late)
        ensures !Happened(run, k, o)
      {
        if k < |run| {
          NoKeyNeverHappens(run, j, k, o);
        }
      }
    } else {
      var s, steps, s' := PerformedYetNoKey(put, n);
      var run := RunOf(s, steps, s');
      var j := |run| - 1;
      assert AnsweredNoKey(run, j, 0, put, n, late) && Happened(run, j, 0);
    }
  }

  lemma NoKeyNeverHappens(run: seq<System>, j: nat, k: nat, o: nat)
    requires IsRun(run) && j <= k < |run| && o < |run[j].ops| && run[j].ops[o].request.Put?
    requires run[j].ops[o].result == Some(Done(ErrNoKey))
    requires !run[0].late || |run[j].ops[o].attempts| <= 1 || run[j].ops[o].request.args.version == 0
    ensures o < |run[k].ops| && !Performed(run[k], o)
  {
    if !run[0].late {
      ErrNoKeyMeansNever(run, j, k, o);
    } else {
      RunKeeps(run, j);
      assert OpOk(run[j], o);
      var last := Last(run[j].ops[o]);
      assert last in run[j].ops[o].attempts;
      OwnAttempt(run[j], o, last);
      assert ReplyOk(run[j], last);
      FirstTryNoKeyMeansNever(run, j, k, o);
    }
  }
}
