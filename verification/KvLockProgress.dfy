/** The lock can be taken and given back: from every reachable state in which it is free, any idle client
    can acquire it, and a holder can release it again, any number of times. */
module KvLockProgress {
  import opened KvServer
  import opened KvNetwork
  import opened KvLock

  function EndOf(run: seq<Locks>): Locks
    requires |run| > 0
  {
    run[|run| - 1]
  }

  lemma OneMore(run: seq<Locks>, step: LockStep) returns (run': seq<Locks>)
    requires IsLockRun(run) && Linked(EndOf(run).net) && CanStep(EndOf(run), step)
    ensures IsLockRun(run') && run <= run' && EndOf(run') == Do(EndOf(run), step)
  {
    run' := run + [Do(EndOf(run), step)];
    forall k: nat | k + 1 < |run'| ensures Moved(run', k) {
      if k + 1 < |run| {
        assert Moved(run, k);
      }
    }
  }

  /** Acquire tries to take the lock exactly when its Get saw no key or the empty value: then its own Put
      of its id, at the version it saw, is on its way, and nothing else has changed. */
  lemma FreeLockIsTried(s: Locks, c: nat)
    requires KvNetwork.Inv(s.net) && c < |s.clients| && CanMove(s, s.clients[c].pc, Looked)
    ensures var got, s', o := s.net.ops[s.clients[c].pc.op].result.value, Moving(s, c, Looked), |s.net.ops|;
      && (s'.clients[c].pc == Setting(o) <==> got.err == ErrNoKey || got.value == "")
      && s'.clients == s.clients[c := s.clients[c].(pc := s'.clients[c].pc)]
      && (s'.clients[c].pc == Setting(o) ==>
            Outstanding(s', o, Put(PutArgs(s.name, s.clients[c].id, got.version))))
  {
  }

  /** The newest op is this request, sent once and not executed yet. */
  ghost predicate Outstanding(s: Locks, o: nat, request: Request) {
    && |s.net.ops| == o + 1 && |s.net.attempts| > 0
    && s.net.ops[o].request == request && s.net.ops[o].result.None?
    && s.net.ops[o].attempts == [|s.net.attempts| - 1]
    && s.net.attempts[|s.net.attempts| - 1] == Attempt(o, None, 0)
  }

  /** A call just started can be served and return before anything else happens. */
  lemma CallCompletes(run: seq<Locks>, o: nat, request: Request) returns (run': seq<Locks>)
    requires IsLockRun(run) && Outstanding(EndOf(run), o, request)
    ensures IsLockRun(run') && run <= run'
    ensures var s, s' := EndOf(run), EndOf(run');
      && s'.clients == s.clients && s'.name == s.name && |s'.net.ops| == |s.net.ops|
      && s'.net.store == Serve(s.net.store, request).0
      && s'.net.ops[o].result == Some(Serve(s.net.store, request).1)
  {
    var s := EndOf(run);
    LockRunKeeps(run, |run| - 1);
    var a := |s.net.attempts| - 1;
    var served := OneMore(run, Network(Execute(a)));
    LockRunKeeps(served, |served| - 1);
    run' := OneMore(served, Network(Return(o)));
  }

  /** What the server holds of the lock. */
  lemma LockGet(s: Locks)
    requires KvNetwork.Inv(s.net)
    ensures var (store, reply) := Serve(s.net.store, Get(s.name));
      store == s.net.store && reply.Got? && reply.value == ValueOf(s.net.store, s.name) && reply.version == Now(s)
  {
  }

  /** A Get call just started returns the lock's present state. */
  lemma GetReturns(run: seq<Locks>, o: nat) returns (run': seq<Locks>)
    requires IsLockRun(run) && Outstanding(EndOf(run), o, Get(EndOf(run).name))
    ensures IsLockRun(run') && run <= run' && LockInv(EndOf(run'))
    ensures var s, s' := EndOf(run), EndOf(run');
      && s'.clients == s.clients && s'.name == s.name && |s'.net.ops| == |s.net.ops| && s'.net.store == s.net.store
      && Answered(s', o)
      && s'.net.ops[o].result.value.value == ValueOf(s.net.store, s.name)
      && s'.net.ops[o].result.value.version == Now(s)
  {
    LockRunKeeps(run, |run| - 1);
    LockGet(EndOf(run));
    run' := CallCompletes(run, o, Get(EndOf(run).name));
    LockRunKeeps(run', |run'| - 1);
  }

  /** A Put just started at the lock's present version takes effect. */
  lemma PutReturns(run: seq<Locks>, o: nat, value: string) returns (run': seq<Locks>)
    requires IsLockRun(run) && Outstanding(EndOf(run), o, Put(PutArgs(EndOf(run).name, value, Now(EndOf(run)))))
    ensures IsLockRun(run') && run <= run' && LockInv(EndOf(run'))
    ensures var s, s' := EndOf(run), EndOf(run');
      && s'.clients == s.clients && s'.name == s.name && |s'.net.ops| == |s.net.ops|
      && Returned(s', o) && ValueOf(s'.net.store, s.name) == value
  {
    LockRunKeeps(run, |run| - 1);
    var args := PutArgs(EndOf(run).name, value, Now(EndOf(run)));
    PutIsCompareAndSwap(EndOf(run).net.store, args);
    run' := CallCompletes(run, o, Put(args));
    LockRunKeeps(run', |run'| - 1);
  }

  /** A free lock can be acquired by any idle client. */
  lemma AcquireCanReturn(run: seq<Locks>, c: nat) returns (run': seq<Locks>)
    requires IsLockRun(run) && c < |EndOf(run).clients| && EndOf(run).clients[c].pc.Idle?
    requires ValueOf(EndOf(run).net.store, EndOf(run).name) == ""
    ensures IsLockRun(run') && run <= run' && EndOf(run').name == EndOf(run).name
    ensures EndOf(run').clients == EndOf(run).clients[c := EndOf(run).clients[c].(holding := true)]
  {
    LockRunKeeps(run, |run| - 1);
    var s := EndOf(run);
    var looking := OneMore(run, Turn(c, Acquire));
    var looked := GetReturns(looking, |s.net.ops|);
    FreeLockIsTried(EndOf(looked), c);
    var setting := OneMore(looked, Turn(c, Looked));
    var taken := PutReturns(setting, |EndOf(looked).net.ops|, s.clients[c].id);
    run' := CheckSucceeds(taken, c);
  }

  /** A client whose id the lock holds finds it there and returns from Acquire. */
  lemma CheckSucceeds(run: seq<Locks>, c: nat) returns (run': seq<Locks>)
    requires IsLockRun(run) && c < |EndOf(run).clients| && CanMove(EndOf(run), EndOf(run).clients[c].pc, HaveSet)
    requires ValueOf(EndOf(run).net.store, EndOf(run).name) == EndOf(run).clients[c].id
    ensures IsLockRun(run') && run <= run' && EndOf(run').name == EndOf(run).name
    ensures EndOf(run').clients == EndOf(run).clients[c := EndOf(run).clients[c].(pc := Idle, holding := true)]
  {
    LockRunKeeps(run, |run| - 1);
    var checking := OneMore(run, Turn(c, HaveSet));
    var checked := GetReturns(checking, |EndOf(run).net.ops|);
    run' := OneMore(checked, Turn(c, Checked));
  }

  /** A holder can release the lock: it is free again, and the client idle. */
  lemma ReleaseCanReturn(run: seq<Locks>, c: nat) returns (run': seq<Locks>)
    requires IsLockRun(run) && c < |EndOf(run).clients|
    requires EndOf(run).clients[c].pc.Idle? && EndOf(run).clients[c].holding
    ensures IsLockRun(run') && run <= run' && EndOf(run').name == EndOf(run).name
    ensures ValueOf(EndOf(run').net.store, EndOf(run').name) == ""
    ensures |EndOf(run').clients| == |EndOf(run).clients|
    ensures var client, client' := EndOf(run).clients[c], EndOf(run').clients[c];
      client'.pc.Idle? && !client'.holding && |client'.freed| == |client.freed| + 1
  {
    LockRunKeeps(run, |run| - 1);
    HolderIsTheValue(run, |run| - 1, c);
    var s := EndOf(run);
    var finding := OneMore(run, Turn(c, Release));
    var found := GetReturns(finding, |s.net.ops|);
    var freeing := OneMore(found, Turn(c, Found));
    var freed := PutReturns(freeing, |EndOf(found).net.ops|, "");
    run' := OneMore(freed, Turn(c, Freed));
  }

  /** Once free, the lock can be taken and given back any number of times. */
  lemma {:induction false} AnyNumberOfTimes(run: seq<Locks>, c: nat, times: nat) returns (run': seq<Locks>)
    requires IsLockRun(run) && c < |EndOf(run).clients| && EndOf(run).clients[c].pc.Idle?
    requires ValueOf(EndOf(run).net.store, EndOf(run).name) == ""
    ensures IsLockRun(run') && run <= run' && |EndOf(run').clients| == |EndOf(run).clients|
    ensures |EndOf(run').clients[c].freed| == |EndOf(run).clients[c].freed| + times
    ensures ValueOf(EndOf(run').net.store, EndOf(run').name) == "" && EndOf(run').clients[c].pc.Idle?
  {
    if times == 0 {
      run' := run;
    } else {
      var before := AnyNumberOfTimes(run, c, times - 1);
      var held := AcquireCanReturn(before, c);
      run' := ReleaseCanReturn(held, c);
    }
  }
}
