/** Clerks, the network and the server as a step system. One clerk call is an operation; each RPC it
    makes is an attempt. An attempt is executed at most once, but its request may be lost, its reply
    may be lost, and with `late` set it may be executed even after the clerk has given up on it. */
module KvNetwork {
  import opened KvServer
  import opened KvClerk

  datatype Option<T> = None | Some(value: T)

  /** `at` is when the server executed it. */
  datatype Attempt = Attempt(op: nat, reply: Option<Reply>, at: nat)

  datatype Served = Served(attempt: nat, request: Request, reply: Reply)

  /** `invoked` and `returned` are times, counted in executions at the server. */
  datatype Op = Op(request: Request, attempts: seq<nat>, invoked: nat, result: Option<Reply>, returned: nat)

  /** History: `executed` is what the server did, in order; `writer` maps (key, version) to the
      attempt that installed it. */
  datatype System = System(store: Store, ops: seq<Op>, attempts: seq<Attempt>,
                           executed: seq<Served>, writer: map<(string, nat), nat>, late: bool)

  datatype Step =
    | Invoke(request: Request)
    | Retry(op: nat)
    | Execute(attempt: nat)
    | Return(op: nat)

  function Last(op: Op): nat
    requires |op.attempts| > 0
  {
    op.attempts[|op.attempts| - 1]
  }

  ghost predicate Owns(s: System, o: nat)
    requires o < |s.ops|
  {
    var mine := s.ops[o].attempts;
    forall i | 0 <= i < |mine| :: mine[i] < |s.attempts| && s.attempts[mine[i]].op == o
  }

  ghost predicate Linked(s: System) {
    && (forall o: nat | o < |s.ops| :: |s.ops[o].attempts| > 0 && Owns(s, o))
    && (forall a | 0 <= a < |s.attempts| :: s.attempts[a].op < |s.ops| && a in s.ops[s.attempts[a].op].attempts)
  }

  ghost function RequestOf(s: System, a: nat): Request
    requires Linked(s) && a < |s.attempts|
  {
    s.ops[s.attempts[a].op].request
  }

  ghost predicate Enabled(s: System, step: Step)
    requires Linked(s)
  {
    match step
    case Invoke(request) => true
    case Retry(o) => o < |s.ops| && s.ops[o].result.None?
    case Execute(a) =>
      && a < |s.attempts| && s.attempts[a].reply.None?
      && (s.late || (s.ops[s.attempts[a].op].result.None? && Last(s.ops[s.attempts[a].op]) == a))
    case Return(o) =>
      && o < |s.ops| && s.ops[o].result.None?
      && s.attempts[Last(s.ops[o])].reply.Some?
  }

  /** The clerk's report on the reply to its last attempt. */
  function Report(reply: Reply, iteration: nat): Reply {
    if reply.Done? then Done(Reported(reply.err, iteration)) else reply
  }

  ghost function Apply(s: System, step: Step): System
    requires Linked(s) && Enabled(s, step)
  {
    match step
    case Invoke(request) =>
      s.(ops := s.ops + [Op(request, [|s.attempts|], |s.executed|, None, 0)],
         attempts := s.attempts + [Attempt(|s.ops|, None, 0)])
    case Retry(o) =>
      s.(ops := s.ops[o := s.ops[o].(attempts := s.ops[o].attempts + [|s.attempts|])],
         attempts := s.attempts + [Attempt(o, None, 0)])
    case Execute(a) =>
      var request := RequestOf(s, a);
      var (store, reply) := Serve(s.store, request);
      s.(store := store,
         attempts := s.attempts[a := s.attempts[a].(reply := Some(reply), at := |s.executed|)],
         executed := s.executed + [Served(a, request, reply)],
         writer := if reply == Done(OK) then s.writer[(request.Key(), VersionOf(store, request.Key())) := a] else s.writer)
    case Return(o) =>
      var op := s.ops[o];
      s.(ops := s.ops[o := op.(result := Some(Report(s.attempts[Last(op)].reply.value, |op.attempts| - 1)),
                               returned := |s.executed|)])
  }

  ghost predicate Next(s: System, s': System) {
    Linked(s) && exists step :: Enabled(s, step) && s' == Apply(s, step)
  }

  ghost predicate Init(s: System) {
    s == System(map[], [], [], [], map[], s.late)
  }

  ghost predicate Stepped(run: seq<System>, k: nat)
    requires k + 1 < |run|
  {
    Next(run[k], run[k + 1])
  }

  ghost predicate IsRun(run: seq<System>) {
    && |run| > 0 && Init(run[0])
    && forall k: nat {:trigger Stepped(run, k)} | k + 1 < |run| :: Stepped(run, k)
  }

  // ---------------------------------------------------------------- invariant

  /** The attempt is a Put of version - 1 that succeeded. */
  ghost predicate Installed(s: System, key: string, version: nat, a: nat)
    requires Linked(s)
  {
    && a < |s.attempts| && s.attempts[a].reply == Some(Done(OK))
    && RequestOf(s, a).Put? && RequestOf(s, a).args.key == key && RequestOf(s, a).args.version + 1 == version
  }

  ghost predicate WriterOk(s: System, k: (string, nat))
    requires Linked(s) && k in s.writer
  {
    0 < k.1 <= VersionOf(s.store, k.0) && Installed(s, k.0, k.1, s.writer[k])
  }

  /** The value a key had at a version. */
  ghost function ValueAt(s: System, key: string, version: nat): string
    requires Linked(s)
  {
    if (key, version) in s.writer && WriterOk(s, (key, version)) then RequestOf(s, s.writer[(key, version)]).args.value
    else ""
  }

  ghost predicate KeyOk(s: System, key: string)
    requires Linked(s)
  {
    && (forall v: nat | 0 < v <= VersionOf(s.store, key) :: (key, v) in s.writer)
    && ValueOf(s.store, key) == ValueAt(s, key, VersionOf(s.store, key))
  }

  ghost predicate ReplyOk(s: System, a: nat)
    requires Linked(s) && a < |s.attempts| && s.attempts[a].reply.Some?
  {
    var request, reply := RequestOf(s, a), s.attempts[a].reply.value;
    match request
    case Get(key) =>
      && reply.Got? && reply.version <= VersionOf(s.store, key)
      && reply.value == ValueAt(s, key, reply.version)
      && (reply.err == ErrNoKey ==> reply.version == 0)
    case Put(args) =>
      && (reply == Done(OK) || reply == Done(ErrNoKey) || reply == Done(ErrVersion))
      && (reply == Done(OK) ==> (args.key, args.version + 1) in s.writer && s.writer[(args.key, args.version + 1)] == a)
      && (reply == Done(ErrNoKey) ==> args.version > 0)
  }

  ghost predicate OpOk(s: System, o: nat)
    requires Linked(s) && o < |s.ops|
  {
    var op := s.ops[o];
    op.result.Some? ==>
      && s.attempts[Last(op)].reply.Some?
      && op.result == Some(Report(s.attempts[Last(op)].reply.value, |op.attempts| - 1))
  }

  ghost predicate Inv(s: System) {
    && Linked(s) && StoreOk(s.store)
    && (forall k {:trigger WriterOk(s, k)} | k in s.writer :: WriterOk(s, k))
    && (forall key {:trigger KeyOk(s, key)} :: KeyOk(s, key))
    && (forall a: nat {:trigger ReplyOk(s, a)} | a < |s.attempts| && s.attempts[a].reply.Some? :: ReplyOk(s, a))
    && (forall o: nat {:trigger OpOk(s, o)} | o < |s.ops| :: OpOk(s, o))
  }

  // ---------------------------------------------------------------- preservation

  /** What every step keeps: requests, replies given, and who wrote what. */
  ghost predicate Grows(s: System, s': System) {
    && Linked(s) && Linked(s') && s'.late == s.late
    && |s.ops| <= |s'.ops| && |s.attempts| <= |s'.attempts|
    && (forall o | 0 <= o < |s.ops| :: s'.ops[o].request == s.ops[o].request && s'.ops[o].invoked == s.ops[o].invoked
          && (s.ops[o].result.Some? ==> s'.ops[o] == s.ops[o]))
    && (forall a | 0 <= a < |s.attempts| :: s'.attempts[a].op == s.attempts[a].op
          && (s.attempts[a].reply.Some? ==> s'.attempts[a] == s.attempts[a]))
    && (forall k | k in s.writer :: k in s'.writer && s'.writer[k] == s.writer[k])
    && (forall key :: VersionOf(s.store, key) <= VersionOf(s'.store, key))
  }

  lemma WriterGrows(s: System, s': System, k: (string, nat))
    requires Grows(s, s') && k in s.writer && WriterOk(s, k)
    ensures WriterOk(s', k) && ValueAt(s', k.0, k.1) == ValueAt(s, k.0, k.1)
  {
  }

  lemma ReplyGrows(s: System, s': System, a: nat)
    requires Inv(s) && Grows(s, s') && a < |s.attempts| && s.attempts[a].reply.Some?
    ensures ReplyOk(s', a)
  {
    assert ReplyOk(s, a);
    if RequestOf(s, a).Get? {
      var key, version := RequestOf(s, a).key, s.attempts[a].reply.value.version;
      assert KeyOk(s, key);
      if version > 0 {
        assert (key, version) in s.writer;
        assert WriterOk(s, (key, version));
        WriterGrows(s, s', (key, version));
      } else {
        NothingAtZero(s, s', key);
      }
    }
  }

  lemma NothingAtZero(s: System, s': System, key: string)
    requires Linked(s) && Linked(s')
    ensures ValueAt(s, key, 0) == "" == ValueAt(s', key, 0)
  {
  }

  lemma RetryLinks(s: System, step: Step)
    requires Inv(s) && Enabled(s, step) && (step.Invoke? || step.Retry?)
    ensures Linked(Apply(s, step)) && Grows(s, Apply(s, step))
  {
    var s' := Apply(s, step);
    forall a: nat | a < |s'.attempts| ensures s'.attempts[a].op < |s'.ops| && a in s'.ops[s'.attempts[a].op].attempts {
      if a < |s.attempts| {
        assert a in s.ops[s.attempts[a].op].attempts;
      }
    }
  }

  /** A call that only adds operations and attempts, or returns, leaves the server's side alone. */
  lemma CallGrows(s: System, step: Step)
    requires Inv(s) && Enabled(s, step) && !step.Execute?
    ensures Grows(s, Apply(s, step))
  {
    if !step.Return? {
      RetryLinks(s, step);
    }
  }

  lemma ServerSideKept(s: System, s': System)
    requires Inv(s) && Grows(s, s') && s'.store == s.store && s'.writer == s.writer
    requires forall a: nat | a < |s'.attempts| && s'.attempts[a].reply.Some? ::
               a < |s.attempts| && s'.attempts[a] == s.attempts[a]
    requires forall o: nat {:trigger OpOk(s', o)} | o < |s'.ops| :: OpOk(s', o)
    ensures Inv(s')
  {
    forall k | k in s'.writer ensures WriterOk(s', k) {
      assert WriterOk(s, k);
    }
    forall key ensures KeyOk(s', key) {
      assert KeyOk(s, key);
      SameValue(s, s', key, VersionOf(s.store, key));
    }
    forall a: nat | a < |s'.attempts| && s'.attempts[a].reply.Some? ensures ReplyOk(s', a) {
      ReplyGrows(s, s', a);
    }
  }

  lemma CallKeeps(s: System, step: Step)
    requires Inv(s) && Enabled(s, step) && !step.Execute?
    ensures Grows(s, Apply(s, step)) && Inv(Apply(s, step))
  {
    var s' := Apply(s, step);
    CallGrows(s, step);
    forall o: nat | o < |s'.ops| ensures OpOk(s', o) {
      if o < |s.ops| {
        assert OpOk(s, o);
        assert Owns(s, o);
      }
    }
    ServerSideKept(s, s');
  }

  lemma SameValue(s: System, s': System, key: string, v: nat)
    requires Inv(s) && Grows(s, s') && s'.writer == s.writer
    ensures ValueAt(s', key, v) == ValueAt(s, key, v)
  {
    if (key, v) in s.writer {
      assert WriterOk(s, (key, v));
      WriterGrows(s, s', (key, v));
    }
  }

  lemma ExecuteGrows(s: System, a: nat)
    requires Inv(s) && Enabled(s, Execute(a))
    ensures Grows(s, Apply(s, Execute(a))) && StoreOk(Apply(s, Execute(a)).store)
  {
    var s' := Apply(s, Execute(a));
    var request := RequestOf(s, a);
    forall key ensures VersionOf(s.store, key) <= VersionOf(s'.store, key) {
      ServeRaisesVersions(s.store, request, key);
    }
    ServeRaisesVersions(s.store, request, request.Key());
    var slot := (request.Key(), VersionOf(s'.store, request.Key()));
    if slot in s.writer {
      assert WriterOk(s, slot);
    }
  }

  lemma WrittenKeyOk(s: System, a: nat, key: string)
    requires Inv(s) && Enabled(s, Execute(a))
    ensures Linked(Apply(s, Execute(a))) && KeyOk(Apply(s, Execute(a)), key)
  {
    var s' := Apply(s, Execute(a));
    var request := RequestOf(s, a);
    ExecuteGrows(s, a);
    assert KeyOk(s, key);
    ServeRaisesVersions(s.store, request, key);
    var now := VersionOf(s.store, key);
    if request.Put? && request.args.key == key && Serve(s.store, request).1 == Done(OK) {
      PutIsCompareAndSwap(s.store, request.args);
      assert VersionOf(s'.store, key) == now + 1;
      assert WriterOk(s', (key, now + 1));
    } else if now > 0 {
      assert WriterOk(s, (key, now));
      WriterGrows(s, s', (key, now));
    } else {
      NothingAtZero(s, s', key);
    }
  }

  lemma RepliesKept(s: System, a: nat, b: nat)
    requires Inv(s) && Enabled(s, Execute(a))
    requires Grows(s, Apply(s, Execute(a)))
    requires b < |s.attempts| && Apply(s, Execute(a)).attempts[b].reply.Some?
    ensures ReplyOk(Apply(s, Execute(a)), b)
  {
    var s' := Apply(s, Execute(a));
    if b != a {
      ReplyGrows(s, s', b);
    } else {
      var request := RequestOf(s, a);
      if request.Put? {
        PutIsCompareAndSwap(s.store, request.args);
      } else {
        WrittenKeyOk(s, a, request.key);
      }
    }
  }

  lemma ExecuteKeeps(s: System, a: nat)
    requires Inv(s) && Enabled(s, Execute(a))
    ensures Grows(s, Apply(s, Execute(a))) && Inv(Apply(s, Execute(a)))
  {
    var s' := Apply(s, Execute(a));
    var request := RequestOf(s, a);
    ExecuteGrows(s, a);
    forall k | k in s'.writer ensures WriterOk(s', k) {
      if k in s.writer {
        assert WriterOk(s, k);
        WriterGrows(s, s', k);
      } else {
        PutIsCompareAndSwap(s.store, request.args);
      }
    }
    forall key ensures KeyOk(s', key) {
      WrittenKeyOk(s, a, key);
    }
    forall b: nat | b < |s'.attempts| && s'.attempts[b].reply.Some? ensures ReplyOk(s', b) {
      RepliesKept(s, a, b);
    }
    forall o: nat | o < |s'.ops| ensures OpOk(s', o) {
      assert OpOk(s, o);
      assert Owns(s, o);
    }
  }

  lemma StepKeeps(s: System, step: Step)
    requires Inv(s) && Enabled(s, step)
    ensures Grows(s, Apply(s, step)) && Inv(Apply(s, step))
  {
    if step.Execute? {
      ExecuteKeeps(s, step.attempt);
    } else {
      CallKeeps(s, step);
    }
  }

  lemma {:induction false} RunKeeps(run: seq<System>, k: nat)
    requires IsRun(run) && k < |run|
    ensures Inv(run[k])
  {
    if k > 0 {
      RunKeeps(run, k - 1);
      assert Stepped(run, k - 1);
      var step :| Enabled(run[k - 1], step) && run[k] == Apply(run[k - 1], step);
      StepKeeps(run[k - 1], step);
    }
  }
}
