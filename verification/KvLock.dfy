/** The lock built on conditional puts: any number of lock clients, each running Acquire and Release as
    Get and Put calls through its clerk, beside other users of the server who never write the lock's key. */
module KvLock {
  import opened KvServer
  import opened KvNetwork
  import opened KvTruth

  /** Where a client is: idle, or waiting for one of its calls. Acquire looks, sets and checks; Release
      finds and frees. */
  datatype Pc = Idle | Looking(op: nat) | Setting(op: nat) | Checking(op: nat) | Finding(op: nat) | Freeing(op: nat)

  /** `holding` is set when Acquire returns and cleared when Release sends its Put; `freed` lists the
      Puts of the Releases that have returned. */
  datatype Client = Client(id: string, pc: Pc, holding: bool, freed: seq<nat>)

  datatype Locks = Locks(net: System, name: string, clients: seq<Client>)

  /** What a client does between two of its calls: enter Acquire or Release, or go on with what its
      last call returned. */
  datatype Move = Acquire | Looked | HaveSet | Checked | Release | Found | Freed

  datatype LockStep = Network(step: Step) | Other(request: Request) | Turn(client: nat, move: Move)

  ghost predicate Returned(s: Locks, o: nat) {
    o < |s.net.ops| && s.net.ops[o].result.Some?
  }

  /** What Get returned; a Get never returns the answer of a Put (GetsAnswerGot). */
  ghost predicate Answered(s: Locks, o: nat) {
    Returned(s, o) && s.net.ops[o].result.value.Got?
  }

  ghost predicate CanMove(s: Locks, pc: Pc, move: Move) {
    match move
    case Acquire => pc.Idle?
    case Looked => pc.Looking? && Answered(s, pc.op)
    case HaveSet => pc.Setting? && Returned(s, pc.op)
    case Checked => pc.Checking? && Answered(s, pc.op)
    case Release => pc.Idle?
    case Found => pc.Finding? && Answered(s, pc.op)
    case Freed => pc.Freeing? && Returned(s, pc.op)
  }

  ghost predicate CanStep(s: Locks, step: LockStep)
    requires Linked(s.net)
  {
    match step
    case Network(kv) => !kv.Invoke? && Enabled(s.net, kv)
    case Other(request) => request.Get? || request.args.key != s.name
    case Turn(c, move) => c < |s.clients| && CanMove(s, s.clients[c].pc, move)
  }

  /** The client starts a call and records where it now is. */
  ghost function Calls(s: Locks, c: nat, request: Request, client: Client): Locks
    requires Linked(s.net) && c < |s.clients|
  {
    s.(net := Apply(s.net, Invoke(request)), clients := s.clients[c := client])
  }

  ghost function Moving(s: Locks, c: nat, move: Move): Locks
    requires Linked(s.net) && c < |s.clients| && CanMove(s, s.clients[c].pc, move)
  {
    var client, next := s.clients[c], |s.net.ops|;
    match move
    case Acquire => Calls(s, c, Get(s.name), client.(pc := Looking(next)))
    case Looked =>
      var got := s.net.ops[client.pc.op].result.value;
      if got.err == ErrNoKey || got.value == "" then
        Calls(s, c, Put(PutArgs(s.name, client.id, got.version)), client.(pc := Setting(next)))
      else Calls(s, c, Get(s.name), client.(pc := Checking(next)))
    case HaveSet => Calls(s, c, Get(s.name), client.(pc := Checking(next)))
    case Checked =>
      if s.net.ops[client.pc.op].result.value.value == client.id then
        s.(clients := s.clients[c := client.(pc := Idle, holding := true)])
      else Calls(s, c, Get(s.name), client.(pc := Looking(next)))
    case Release => Calls(s, c, Get(s.name), client.(pc := Finding(next)))
    case Found =>
      var got := s.net.ops[client.pc.op].result.value;
      if got.value == client.id then
        Calls(s, c, Put(PutArgs(s.name, "", got.version)), client.(pc := Freeing(next), holding := false))
      else Calls(s, c, Get(s.name), client.(pc := Finding(next)))
    case Freed => s.(clients := s.clients[c := client.(pc := Idle, freed := client.freed + [client.pc.op])])
  }

  ghost function Do(s: Locks, step: LockStep): Locks
    requires Linked(s.net) && CanStep(s, step)
  {
    match step
    case Network(kv) => s.(net := Apply(s.net, kv))
    case Other(request) => s.(net := Apply(s.net, Invoke(request)))
    case Turn(c, move) => Moving(s, c, move)
  }

  ghost predicate Start(s: Locks) {
    && KvNetwork.Init(s.net)
    && (forall c | 0 <= c < |s.clients| ::
          s.clients[c] == Client(s.clients[c].id, Idle, false, []) && s.clients[c].id != "")
    && forall c, d | 0 <= c < d < |s.clients| :: s.clients[c].id != s.clients[d].id
  }

  ghost predicate Moves(s: Locks, s': Locks) {
    Linked(s.net) && exists step :: CanStep(s, step) && s' == Do(s, step)
  }

  ghost predicate Moved(run: seq<Locks>, k: nat)
    requires k + 1 < |run|
  {
    Moves(run[k], run[k + 1])
  }

  ghost predicate IsLockRun(run: seq<Locks>) {
    && |run| > 0 && Start(run[0])
    && forall k: nat {:trigger Moved(run, k)} | k + 1 < |run| :: Moved(run, k)
  }

  // ---------------------------------------------------------------- invariant

  ghost predicate IsLockPut(s: Locks, o: nat) {
    o < |s.net.ops| && s.net.ops[o].request.Put? && s.net.ops[o].request.args.key == s.name
  }

  function Now(s: Locks): nat {
    VersionOf(s.net.store, s.name)
  }

  /** The lock put took effect. */
  ghost predicate TookEffect(s: Locks, o: nat)
    requires IsLockPut(s, o) && Linked(s.net)
  {
    var slot := (s.name, s.net.ops[o].request.args.version + 1);
    slot in s.net.writer && WriterOk(s.net, slot) && s.net.attempts[s.net.writer[slot]].op == o
  }

  /** An execution of the call saw this value. */
  ghost predicate Saw(s: Locks, o: nat, a: nat, value: string) {
    && a < |s.net.attempts| && s.net.attempts[a].op == o
    && s.net.attempts[a].reply.Some? && s.net.attempts[a].reply.value.Got?
    && s.net.attempts[a].reply.value.value == value
  }

  /** The call reads the lock, and if it saw the value then the value is still the present one. */
  ghost predicate SightIsFresh(s: Locks, o: nat, value: string) {
    && o < |s.net.ops| && s.net.ops[o].request == Get(s.name)
    && forall a: nat {:trigger Saw(s, o, a, value)} ::
         Saw(s, o, a, value) ==> s.net.attempts[a].reply.value.version == Now(s)
  }

  ghost predicate PcOk(s: Locks, client: Client)
    requires Linked(s.net)
  {
    match client.pc
    case Idle => true
    case Looking(o) => o < |s.net.ops| && s.net.ops[o].request == Get(s.name)
    case Setting(o) =>
      && IsLockPut(s, o) && s.net.ops[o].request.args.value == client.id
      && s.net.ops[o].request.args.version <= Now(s)
      && ValueAt(s.net, s.name, s.net.ops[o].request.args.version) == ""
    case Checking(o) => SightIsFresh(s, o, client.id)
    case Finding(o) => SightIsFresh(s, o, client.id)
    case Freeing(o) =>
      && IsLockPut(s, o) && s.net.ops[o].request.args.value == "" && !client.holding
      && s.net.ops[o].request.args.version <= Now(s)
      && ValueAt(s.net, s.name, s.net.ops[o].request.args.version) == client.id
      && (s.net.ops[o].request.args.version == Now(s) || TookEffect(s, o))
  }

  /** The put of a finished Release: it took effect, on the version that held the id. */
  ghost predicate FreedOk(s: Locks, o: nat, id: string)
    requires Linked(s.net)
  {
    && IsLockPut(s, o) && s.net.ops[o].request.args.value == "" && Returned(s, o) && TookEffect(s, o)
    && s.net.ops[o].request.args.version <= Now(s)
    && ValueAt(s.net, s.name, s.net.ops[o].request.args.version) == id
  }

  ghost predicate ClientOk(s: Locks, c: nat)
    requires Linked(s.net) && c < |s.clients|
  {
    var client := s.clients[c];
    && client.id != "" && PcOk(s, client)
    && (client.holding ==> ValueOf(s.net.store, s.name) == client.id)
    && (forall i | 0 <= i < |client.freed| :: FreedOk(s, client.freed[i], client.id))
    && (forall i, j | 0 <= i < j < |client.freed| :: client.freed[i] != client.freed[j])
    && (client.pc.Freeing? ==> client.pc.op !in client.freed)
  }

  ghost predicate PutBy(s: Locks, c: nat, o: nat) {
    c < |s.clients| && (s.clients[c].pc == Setting(o) || s.clients[c].pc == Freeing(o))
  }

  /** A put on the lock is the present call of some client, or it has returned and can never succeed. */
  ghost predicate LockPutOk(s: Locks, o: nat)
    requires IsLockPut(s, o)
  {
    || (exists c :: PutBy(s, c, o))
    || s.net.ops[o].request.args.version < Now(s)
  }

  /** Once the server has answered a put on the lock, no attempt at that version can succeed. The
      answer is never that the key is missing. */
  ghost predicate AnswerOk(s: Locks, a: nat)
    requires Linked(s.net)
  {
    a < |s.net.attempts| && s.net.attempts[a].reply.Some? && IsLockPut(s, s.net.attempts[a].op) ==>
      && s.net.ops[s.net.attempts[a].op].request.args.version < Now(s)
      && s.net.attempts[a].reply != Some(Done(ErrNoKey))
  }

  ghost predicate LockInv(s: Locks) {
    && KvNetwork.Inv(s.net)
    && (forall c, d | 0 <= c < d < |s.clients| :: s.clients[c].id != s.clients[d].id)
    && (forall c: nat {:trigger ClientOk(s, c)} | c < |s.clients| :: ClientOk(s, c))
    && (forall o: nat {:trigger LockPutOk(s, o)} | IsLockPut(s, o) :: LockPutOk(s, o))
    && (forall a: nat {:trigger AnswerOk(s, a)} :: AnswerOk(s, a))
  }

  // ---------------------------------------------------------------- steps that leave the lock alone

  /** The lock's version is the same, and whatever is newly read from the lock is the present state. */
  ghost predicate Undisturbed(s: Locks, s': Locks) {
    && s'.name == s.name && KvNetwork.Inv(s.net) && KvNetwork.Inv(s'.net) && Grows(s.net, s'.net)
    && Now(s') == Now(s)
    && forall a: nat | a < |s'.net.attempts| && s'.net.attempts[a].reply.Some? ::
         || (a < |s.net.attempts| && s'.net.attempts[a] == s.net.attempts[a])
         || (s'.net.attempts[a].op < |s'.net.ops|
             && (s'.net.ops[s'.net.attempts[a].op].request == Get(s.name) ==>
                   s'.net.attempts[a].reply.value.Got? && s'.net.attempts[a].reply.value.version == Now(s)))
  }

  lemma ValueIsAt(s: Locks)
    requires KvNetwork.Inv(s.net)
    ensures ValueOf(s.net.store, s.name) == ValueAt(s.net, s.name, Now(s))
  {
    assert KeyOk(s.net, s.name);
  }

  lemma ValueAtGrows(s: Locks, s': Locks, v: nat)
    requires KvNetwork.Inv(s.net) && Grows(s.net, s'.net) && s'.name == s.name && v <= Now(s)
    ensures ValueAt(s'.net, s.name, v) == ValueAt(s.net, s.name, v)
  {
    assert KeyOk(s.net, s.name);
    if v > 0 {
      assert WriterOk(s.net, (s.name, v));
      WriterGrows(s.net, s'.net, (s.name, v));
    } else {
      NothingAtZero(s.net, s'.net, s.name);
    }
  }

  lemma EffectGrows(s: Locks, s': Locks, o: nat)
    requires KvNetwork.Inv(s.net) && Grows(s.net, s'.net) && s'.name == s.name
    requires IsLockPut(s, o) && TookEffect(s, o)
    ensures IsLockPut(s', o) && TookEffect(s', o)
  {
    WriterGrows(s.net, s'.net, (s.name, s.net.ops[o].request.args.version + 1));
  }

  lemma SightStays(s: Locks, s': Locks, o: nat, value: string)
    requires Undisturbed(s, s') && SightIsFresh(s, o, value)
    ensures SightIsFresh(s', o, value)
  {
    forall a: nat | Saw(s', o, a, value) ensures s'.net.attempts[a].reply.value.version == Now(s') {
      assert a < |s.net.attempts| && s'.net.attempts[a] == s.net.attempts[a] ==> Saw(s, o, a, value);
    }
  }

  lemma PcStays(s: Locks, s': Locks, client: Client)
    requires Undisturbed(s, s') && PcOk(s, client)
    ensures PcOk(s', client)
  {
    match client.pc
    case Idle =>
    case Looking(o) =>
    case Setting(o) => ValueAtGrows(s, s', s.net.ops[o].request.args.version);
    case Checking(o) => SightStays(s, s', o, client.id);
    case Finding(o) => SightStays(s, s', o, client.id);
    case Freeing(o) =>
      ValueAtGrows(s, s', s.net.ops[o].request.args.version);
      if TookEffect(s, o) {
        EffectGrows(s, s', o);
      }
  }

  lemma FreedStays(s: Locks, s': Locks, c: nat)
    requires KvNetwork.Inv(s.net) && Grows(s.net, s'.net) && s'.name == s.name && c < |s.clients| && ClientOk(s, c)
    ensures forall i | 0 <= i < |s.clients[c].freed| :: FreedOk(s', s.clients[c].freed[i], s.clients[c].id)
  {
    forall i | 0 <= i < |s.clients[c].freed| ensures FreedOk(s', s.clients[c].freed[i], s.clients[c].id) {
      EffectGrows(s, s', s.clients[c].freed[i]);
      ValueAtGrows(s, s', s.net.ops[s.clients[c].freed[i]].request.args.version);
    }
  }

  lemma ClientStays(s: Locks, s': Locks, c: nat)
    requires Undisturbed(s, s') && c < |s.clients| && ClientOk(s, c)
    requires c < |s'.clients| && s'.clients[c] == s.clients[c]
    ensures ClientOk(s', c)
  {
    PcStays(s, s', s.clients[c]);
    FreedStays(s, s', c);
    ValueIsAt(s);
    ValueIsAt(s');
    ValueAtGrows(s, s', Now(s));
  }

  // ---------------------------------------------------------------- calls of the clients

  /** After starting a call (or, with no call, just moving on), all but client c is as before. */
  ghost predicate Called(s: Locks, s': Locks, c: nat) {
    && Undisturbed(s, s') && c < |s.clients| && |s'.clients| == |s.clients|
    && (forall d | 0 <= d < |s.clients| && d != c :: s'.clients[d] == s.clients[d])
    && s'.clients[c].id == s.clients[c].id
    && (s'.net == s.net || (exists request :: s'.net == Apply(s.net, Invoke(request))))
  }

  /** The put the client was waiting for, if any, can no longer succeed, and a new one is the client's. */
  lemma CallKeepsLockInv(s: Locks, s': Locks, c: nat)
    requires LockInv(s) && Called(s, s', c) && ClientOk(s', c)
    requires s.clients[c].pc.Setting? || s.clients[c].pc.Freeing? ==> Returned(s, s.clients[c].pc.op)
    requires |s'.net.ops| > |s.net.ops| && IsLockPut(s', |s.net.ops|) ==> PutBy(s', c, |s.net.ops|)
    ensures LockInv(s')
  {
    forall d: nat | d < |s'.clients| ensures ClientOk(s', d) {
      if d != c {
        assert ClientOk(s, d);
        ClientStays(s, s', d);
      }
    }
    forall o: nat | IsLockPut(s', o) ensures LockPutOk(s', o) {
      if o < |s.net.ops| {
        assert LockPutOk(s, o);
        if exists d :: PutBy(s, d, o) {
          var d :| PutBy(s, d, o);
          if d != c {
            assert PutBy(s', d, o);
          } else {
            ReturnedPutIsPast(s, o);
          }
        }
      } else {
        assert PutBy(s', c, o);
      }
    }
    forall a: nat ensures AnswerOk(s', a) {
      assert AnswerOk(s, a);
    }
  }

  lemma ReturnedPutIsPast(s: Locks, o: nat)
    requires LockInv(s) && IsLockPut(s, o) && Returned(s, o)
    ensures s.net.ops[o].request.args.version < Now(s)
  {
    assert OpOk(s.net, o);
    var a := Last(s.net.ops[o]);
    assert a in s.net.ops[o].attempts;
    OwnAttempt(s.net, o, a);
    assert AnswerOk(s, a);
  }

  /** A Get returns what one of its executions saw. */
  lemma GetsAnswerGot(s: Locks, o: nat) returns (a: nat)
    requires KvNetwork.Inv(s.net) && Returned(s, o) && s.net.ops[o].request == Get(s.name)
    ensures Answered(s, o)
    ensures var got := s.net.ops[o].result.value;
      && Saw(s, o, a, got.value) && s.net.attempts[a].reply.value == got
      && got.version <= Now(s) && got.value == ValueAt(s.net, s.name, got.version)
      && (got.err == ErrNoKey ==> got.value == "")
  {
    assert OpOk(s.net, o);
    a := Last(s.net.ops[o]);
    assert a in s.net.ops[o].attempts;
    OwnAttempt(s.net, o, a);
    assert ReplyOk(s.net, a);
  }

  lemma InvokeUndisturbed(s: Locks, s': Locks, request: Request)
    requires KvNetwork.Inv(s.net) && s'.name == s.name && s'.net == Apply(s.net, Invoke(request))
    ensures Undisturbed(s, s')
    ensures forall a: nat, value {:trigger Saw(s', |s.net.ops|, a, value)} :: !Saw(s', |s.net.ops|, a, value)
  {
    StepKeeps(s.net, Invoke(request));
  }

  /** A client that starts to look, check or find has seen nothing yet. */
  lemma ReadingKeeps(s: Locks, s': Locks, c: nat, client: Client)
    requires LockInv(s) && c < |s.clients| && s' == Calls(s, c, Get(s.name), client)
    requires client == s.clients[c].(pc := client.pc)
    requires client.pc in {Looking(|s.net.ops|), Checking(|s.net.ops|), Finding(|s.net.ops|)}
    requires s.clients[c].pc.Setting? || s.clients[c].pc.Freeing? ==> Returned(s, s.clients[c].pc.op)
    ensures LockInv(s')
  {
    InvokeUndisturbed(s, s', Get(s.name));
    assert ClientOk(s, c);
    FreedStays(s, s', c);
    ValueIsAt(s);
    ValueIsAt(s');
    ValueAtGrows(s, s', Now(s));
    assert ClientOk(s', c);
    CallKeepsLockInv(s, s', c);
  }

  lemma SettingKeeps(s: Locks, s': Locks, c: nat)
    requires LockInv(s) && c < |s.clients| && s.clients[c].pc.Looking? && CanMove(s, s.clients[c].pc, Looked)
    requires s' == Moving(s, c, Looked) && s'.clients[c].pc.Setting?
    ensures LockInv(s')
  {
    var client := s.clients[c];
    assert ClientOk(s, c);
    var a := GetsAnswerGot(s, client.pc.op);
    var got := s.net.ops[client.pc.op].result.value;
    InvokeUndisturbed(s, s', Put(PutArgs(s.name, client.id, got.version)));
    FreedStays(s, s', c);
    ValueIsAt(s);
    ValueIsAt(s');
    ValueAtGrows(s, s', Now(s));
    ValueAtGrows(s, s', got.version);
    assert ClientOk(s', c);
    CallKeepsLockInv(s, s', c);
  }

  lemma FreeingKeeps(s: Locks, s': Locks, c: nat)
    requires LockInv(s) && c < |s.clients| && s.clients[c].pc.Finding? && CanMove(s, s.clients[c].pc, Found)
    requires s' == Moving(s, c, Found) && s'.clients[c].pc.Freeing?
    ensures LockInv(s')
  {
    var client := s.clients[c];
    assert ClientOk(s, c);
    var a := GetsAnswerGot(s, client.pc.op);
    var got := s.net.ops[client.pc.op].result.value;
    assert Saw(s, client.pc.op, a, client.id);
    InvokeUndisturbed(s, s', Put(PutArgs(s.name, "", got.version)));
    FreedStays(s, s', c);
    ValueAtGrows(s, s', got.version);
    assert ClientOk(s', c);
    CallKeepsLockInv(s, s', c);
  }

  lemma SameNetUndisturbed(s: Locks, s': Locks)
    requires KvNetwork.Inv(s.net) && s'.net == s.net && s'.name == s.name
    ensures Undisturbed(s, s')
  {
  }

  /** Acquire returns only to a client whose id the lock holds now. */
  lemma AcquiredKeeps(s: Locks, s': Locks, c: nat)
    requires LockInv(s) && c < |s.clients| && CanMove(s, s.clients[c].pc, Checked)
    requires s' == Moving(s, c, Checked) && s'.clients[c].pc.Idle?
    ensures LockInv(s')
  {
    var client := s.clients[c];
    assert ClientOk(s, c);
    var a := GetsAnswerGot(s, client.pc.op);
    assert Saw(s, client.pc.op, a, client.id);
    ValueIsAt(s);
    SameNetUndisturbed(s, s');
    FreedStays(s, s', c);
    assert ClientOk(s', c);
    CallKeepsLockInv(s, s', c);
  }

  lemma FreedKeeps(s: Locks, s': Locks, c: nat)
    requires LockInv(s) && c < |s.clients| && CanMove(s, s.clients[c].pc, Freed) && s' == Moving(s, c, Freed)
    ensures LockInv(s')
  {
    var client := s.clients[c];
    assert ClientOk(s, c);
    ReturnedPutIsPast(s, client.pc.op);
    SameNetUndisturbed(s, s');
    FreedStays(s, s', c);
    EffectGrows(s, s', client.pc.op);
    ValueAtGrows(s, s', s.net.ops[client.pc.op].request.args.version);
    assert FreedOk(s', client.pc.op, client.id);
    assert ClientOk(s', c);
    CallKeepsLockInv(s, s', c);
  }

  lemma TurnKeeps(s: Locks, c: nat, move: Move)
    requires LockInv(s) && c < |s.clients| && CanMove(s, s.clients[c].pc, move)
    ensures LockInv(Moving(s, c, move))
  {
    var s' := Moving(s, c, move);
    var client := s'.clients[c];
    if client.pc.Setting? {
      SettingKeeps(s, s', c);
    } else if client.pc.Freeing? {
      FreeingKeeps(s, s', c);
    } else if move.Freed? {
      FreedKeeps(s, s', c);
    } else if client.pc.Idle? {
      AcquiredKeeps(s, s', c);
    } else {
      ReadingKeeps(s, s', c, client);
    }
  }

  lemma OtherKeeps(s: Locks, request: Request)
    requires LockInv(s) && CanStep(s, Other(request))
    ensures LockInv(Do(s, Other(request)))
  {
    var s' := Do(s, Other(request));
    InvokeUndisturbed(s, s', request);
    forall a: nat ensures AnswerOk(s', a) {
      assert AnswerOk(s, a);
    }
    QuietKeeps(s, s');
  }

  // ---------------------------------------------------------------- the network

  /** A step of the network that leaves the lock alone. */
  lemma QuietKeeps(s: Locks, s': Locks)
    requires LockInv(s) && Undisturbed(s, s') && s'.clients == s.clients
    requires forall o | |s.net.ops| <= o < |s'.net.ops| :: !IsLockPut(s', o)
    requires forall a: nat {:trigger AnswerOk(s', a)} :: AnswerOk(s', a)
    ensures LockInv(s')
  {
    forall c: nat | c < |s'.clients| ensures ClientOk(s', c) {
      assert ClientOk(s, c);
      ClientStays(s, s', c);
    }
    forall o: nat | IsLockPut(s', o) ensures LockPutOk(s', o) {
      assert IsLockPut(s, o) && LockPutOk(s, o);
      if exists d :: PutBy(s, d, o) {
        var d :| PutBy(s, d, o);
        assert PutBy(s', d, o);
      }
    }
  }

  lemma CallsQuiet(s: Locks, kv: Step)
    requires LockInv(s) && Enabled(s.net, kv) && (kv.Retry? || kv.Return?)
    ensures LockInv(s.(net := Apply(s.net, kv)))
  {
    var s' := s.(net := Apply(s.net, kv));
    StepKeeps(s.net, kv);
    forall a: nat ensures AnswerOk(s', a) {
      assert AnswerOk(s, a);
    }
    QuietKeeps(s, s');
  }

  /** A put on the lock names a version that the lock has reached. */
  lemma PutNamesPast(s: Locks, o: nat)
    requires LockInv(s) && IsLockPut(s, o)
    ensures s.net.ops[o].request.args.version <= Now(s)
  {
    assert LockPutOk(s, o);
    if c :| PutBy(s, c, o) {
      assert ClientOk(s, c);
    }
  }

  /** Once executed, a put on the lock has its version behind it. */
  lemma ExecutedIsPast(s: Locks, a: nat, b: nat)
    requires LockInv(s) && Enabled(s.net, Execute(a))
    ensures Linked(Apply(s.net, Execute(a))) && AnswerOk(s.(net := Apply(s.net, Execute(a))), b)
  {
    StepKeeps(s.net, Execute(a));
    assert AnswerOk(s, b);
    var o := s.net.attempts[a].op;
    if b == a && IsLockPut(s, o) {
      PutNamesPast(s, o);
      PutIsCompareAndSwap(s.net.store, s.net.ops[o].request.args);
    }
  }

  /** An execution that leaves the lock's version as it is. */
  lemma ExecuteQuiet(s: Locks, a: nat)
    requires LockInv(s) && Enabled(s.net, Execute(a))
    requires Now(s.(net := Apply(s.net, Execute(a)))) == Now(s)
    ensures LockInv(s.(net := Apply(s.net, Execute(a))))
  {
    var s' := s.(net := Apply(s.net, Execute(a)));
    StepKeeps(s.net, Execute(a));
    forall b: nat ensures AnswerOk(s', b) {
      ExecutedIsPast(s, a, b);
    }
    QuietKeeps(s, s');
  }

  /** The attempt executes a put on the lock that succeeds. */
  ghost predicate Swaps(s: Locks, a: nat) {
    && LockInv(s) && Enabled(s.net, Execute(a)) && IsLockPut(s, s.net.attempts[a].op)
    && s.net.ops[s.net.attempts[a].op].request.args.version == Now(s)
  }

  /** A client whose id is not the lock's present value loses nothing when the lock changes. */
  lemma BystanderKept(s: Locks, a: nat, c: nat)
    requires Swaps(s, a) && c < |s.clients| && s.clients[c].id != ValueOf(s.net.store, s.name)
    ensures Linked(Apply(s.net, Execute(a))) && ClientOk(s.(net := Apply(s.net, Execute(a))), c)
  {
    var s', client := s.(net := Apply(s.net, Execute(a))), s.clients[c];
    StepKeeps(s.net, Execute(a));
    assert ClientOk(s, c);
    FreedStays(s, s', c);
    ValueIsAt(s);
    match client.pc
    case Idle =>
    case Looking(o) =>
    case Setting(o) => ValueAtGrows(s, s', s.net.ops[o].request.args.version);
    case Checking(o) => NothingSeen(s, a, o, client.id);
    case Finding(o) => NothingSeen(s, a, o, client.id);
    case Freeing(o) =>
      ValueAtGrows(s, s', s.net.ops[o].request.args.version);
      EffectGrows(s, s', o);
  }

  lemma NothingSeen(s: Locks, a: nat, o: nat, value: string)
    requires Swaps(s, a) && SightIsFresh(s, o, value) && value != ValueOf(s.net.store, s.name)
    ensures Linked(Apply(s.net, Execute(a))) && SightIsFresh(s.(net := Apply(s.net, Execute(a))), o, value)
  {
    var s' := s.(net := Apply(s.net, Execute(a)));
    StepKeeps(s.net, Execute(a));
    forall b: nat ensures !Saw(s', o, b, value) {
      assert Saw(s', o, b, value) ==> Saw(s, o, b, value);
      if Saw(s, o, b, value) {
        SightIsPresent(s, o, b, value);
      }
    }
  }

  lemma SightIsPresent(s: Locks, o: nat, a: nat, value: string)
    requires LockInv(s) && SightIsFresh(s, o, value) && Saw(s, o, a, value)
    ensures value == ValueOf(s.net.store, s.name)
  {
    ValueIsAt(s);
    assert ReplyOk(s.net, a);
  }

  /** The client that frees the lock sees its own put take effect. */
  lemma FreerKept(s: Locks, a: nat, c: nat)
    requires Swaps(s, a) && c < |s.clients| && s.clients[c].pc == Freeing(s.net.attempts[a].op)
    ensures Linked(Apply(s.net, Execute(a))) && ClientOk(s.(net := Apply(s.net, Execute(a))), c)
  {
    var s', o := s.(net := Apply(s.net, Execute(a))), s.net.attempts[a].op;
    StepKeeps(s.net, Execute(a));
    assert ClientOk(s, c);
    FreedStays(s, s', c);
    ValueAtGrows(s, s', Now(s));
    PutIsCompareAndSwap(s.net.store, s.net.ops[o].request.args);
    assert WriterOk(s'.net, (s.name, Now(s) + 1));
    assert TookEffect(s', o);
  }

  lemma SwapKeepsClients(s: Locks, a: nat, c: nat)
    requires Swaps(s, a) && c < |s.clients|
    ensures Linked(Apply(s.net, Execute(a))) && ClientOk(s.(net := Apply(s.net, Execute(a))), c)
  {
    var o := s.net.attempts[a].op;
    assert LockPutOk(s, o);
    var d :| PutBy(s, d, o);
    assert ClientOk(s, d) && ClientOk(s, c);
    ValueIsAt(s);
    if c == d && s.clients[c].pc.Freeing? {
      FreerKept(s, a, c);
    } else {
      BystanderKept(s, a, c);
    }
  }

  lemma SwapKeeps(s: Locks, a: nat)
    requires Swaps(s, a)
    ensures LockInv(s.(net := Apply(s.net, Execute(a))))
  {
    var s' := s.(net := Apply(s.net, Execute(a)));
    StepKeeps(s.net, Execute(a));
    forall b: nat ensures AnswerOk(s', b) {
      ExecutedIsPast(s, a, b);
    }
    forall c: nat | c < |s'.clients| ensures ClientOk(s', c) {
      SwapKeepsClients(s, a, c);
    }
    forall o: nat | IsLockPut(s', o) ensures LockPutOk(s', o) {
      assert IsLockPut(s, o) && LockPutOk(s, o);
      if exists d :: PutBy(s, d, o) {
        var d :| PutBy(s, d, o);
        assert PutBy(s', d, o);
      }
    }
  }

  lemma LockStepKeeps(s: Locks, step: LockStep)
    requires LockInv(s) && CanStep(s, step)
    ensures LockInv(Do(s, step))
  {
    if step.Other? {
      OtherKeeps(s, step.request);
    } else if step.Turn? {
      TurnKeeps(s, step.client, step.move);
    } else if !step.step.Execute? {
      CallsQuiet(s, step.step);
    } else {
      var a := step.step.attempt;
      ServeRaisesVersions(s.net.store, RequestOf(s.net, a), s.name);
      if Now(Do(s, step)) == Now(s) {
        ExecuteQuiet(s, a);
      } else {
        PutIsCompareAndSwap(s.net.store, RequestOf(s.net, a).args);
        SwapKeeps(s, a);
      }
    }
  }

  lemma {:induction false} LockRunKeeps(run: seq<Locks>, k: nat)
    requires IsLockRun(run) && k < |run|
    ensures LockInv(run[k])
  {
    if k > 0 {
      LockRunKeeps(run, k - 1);
      assert Moved(run, k - 1);
      var step :| CanStep(run[k - 1], step) && run[k] == Do(run[k - 1], step);
      LockStepKeeps(run[k - 1], step);
    }
  }

  // ---------------------------------------------------------------- theorems

  /** Between Acquire returning and the Put of its Release, the lock's value at the server is the
      holder's id. */
  lemma HolderIsTheValue(run: seq<Locks>, k: nat, c: nat)
    requires IsLockRun(run) && k < |run| && c < |run[k].clients| && run[k].clients[c].holding
    ensures ValueOf(run[k].net.store, run[k].name) == run[k].clients[c].id
  {
    LockRunKeeps(run, k);
    assert ClientOk(run[k], c);
  }

  /** No two clients ever hold the lock at once, whatever is lost, re-sent or delivered late. */
  lemma MutualExclusion(run: seq<Locks>, k: nat, c: nat, d: nat)
    requires IsLockRun(run) && k < |run| && c < |run[k].clients| && d < |run[k].clients|
    requires run[k].clients[c].holding && run[k].clients[d].holding
    ensures c == d
  {
    LockRunKeeps(run, k);
    assert ClientOk(run[k], c) && ClientOk(run[k], d);
  }

  /** Every Release that has returned freed the lock exactly once: its Put named a version at which the
      lock's value was the client's own id, exactly one attempt of it took effect, and the clerk did not
      report it as failed. */
  lemma ReleasedExactlyOnce(run: seq<Locks>, k: nat, c: nat, i: nat) returns (a: nat)
    requires IsLockRun(run) && k < |run| && c < |run[k].clients| && i < |run[k].clients[c].freed|
    ensures var net, o := run[k].net, run[k].clients[c].freed[i];
      && o < |net.ops| && net.ops[o].request.Put? && net.ops[o].request.args.key == run[k].name
      && net.ops[o].request.args.value == ""
      && Linked(net) && ValueAt(net, run[k].name, net.ops[o].request.args.version) == run[k].clients[c].id
      && a in net.ops[o].attempts && Effective(net, a)
      && (forall b | b in net.ops[o].attempts && Effective(net, b) :: b == a)
      && (net.ops[o].result == Some(Done(OK)) || net.ops[o].result == Some(Done(ErrMaybe)))
  {
    LockRunKeeps(run, k);
    assert ClientOk(run[k], c);
    var s, o := run[k], run[k].clients[c].freed[i];
    assert FreedOk(s, o, s.clients[c].id);
    a := s.net.writer[(s.name, s.net.ops[o].request.args.version + 1)];
    forall b | b in s.net.ops[o].attempts && Effective(s.net, b) ensures b == a {
      OwnAttempt(s.net, o, b);
      assert ReplyOk(s.net, b);
    }
    NotReportedFailed(s, o, a);
  }

  /** No two finished Releases, of one client or of two, share a Put. */
  lemma ReleasesAreDistinct(run: seq<Locks>, k: nat, c: nat, i: nat, d: nat, j: nat)
    requires IsLockRun(run) && k < |run| && c < |run[k].clients| && d < |run[k].clients|
    requires i < |run[k].clients[c].freed| && j < |run[k].clients[d].freed|
    requires run[k].clients[c].freed[i] == run[k].clients[d].freed[j]
    ensures c == d && i == j
  {
    LockRunKeeps(run, k);
    var s := run[k];
    assert ClientOk(s, c) && ClientOk(s, d);
    assert FreedOk(s, s.clients[c].freed[i], s.clients[c].id) && FreedOk(s, s.clients[d].freed[j], s.clients[d].id);
  }

  lemma NotReportedFailed(s: Locks, o: nat, a: nat)
    requires LockInv(s) && IsLockPut(s, o) && Returned(s, o) && a in s.net.ops[o].attempts && Effective(s.net, a)
    ensures s.net.ops[o].result == Some(Done(OK)) || s.net.ops[o].result == Some(Done(ErrMaybe))
  {
    assert OpOk(s.net, o);
    var last := Last(s.net.ops[o]);
    assert last in s.net.ops[o].attempts;
    OwnAttempt(s.net, o, last);
    assert AnswerOk(s, last) && ReplyOk(s.net, last);
    if |s.net.ops[o].attempts| == 1 {
      assert a == last;
    }
  }
}
