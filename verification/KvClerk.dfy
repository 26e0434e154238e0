/** The retrying clerk, against a server that other clerks use in between its attempts. */
module KvClerk {
  import opened KvServer

  /** What becomes of one RPC: lost on the way there, executed but the reply lost, or answered. */
  datatype Fate = RequestLost | ReplyLost | Answered

  /** One round of the retry loop: what others do to the server before and after the RPC is executed,
      and the fate of the RPC. */
  datatype Round = Round(before: seq<PutArgs>, fate: Fate, after: seq<PutArgs>)

  /** What a clerk reports when the reply to attempt number `iteration` says ErrVersion: only the
      first attempt can tell that the put was not performed. */
  function Reported(err: Err, iteration: nat): Err {
    if iteration > 0 && err == ErrVersion then ErrMaybe else err
  }

  /** Versions only grow, and while the version stays so does the value. */
  ghost predicate NoOlder(before: Store, after: Store, key: string) {
    && VersionOf(before, key) <= VersionOf(after, key)
    && (VersionOf(before, key) == VersionOf(after, key) ==> ValueOf(before, key) == ValueOf(after, key))
  }

  method OthersPut(server: KVServer, others: seq<PutArgs>)
    requires StoreOk(server.data)
    modifies server
    ensures StoreOk(server.data)
    ensures forall k :: NoOlder(old(server.data), server.data, k)
  {
    for i := 0 to |others|
      invariant StoreOk(server.data)
      invariant forall k :: NoOlder(old(server.data), server.data, k)
    {
      ghost var before := server.data;
      var _ := server.Put(others[i]);
      forall k ensures NoOlder(before, server.data, k) {
        ServeRaisesVersions(before, Put(others[i]), k);
      }
      forall k ensures NoOlder(old(server.data), server.data, k) {
        assert NoOlder(old(server.data), before, k) && NoOlder(before, server.data, k);
      }
    }
  }

  /** Clerk.Get for as many rounds as the network is described for; not `returned` if it is still
      retrying. It returns what `seen` held for the key, which the server was at some moment of the call. */
  method GetWithRetries(server: KVServer, key: string, rounds: seq<Round>)
    returns (reply: Reply, returned: bool, ghost seen: Store)
    requires StoreOk(server.data)
    modifies server
    ensures StoreOk(server.data)
    ensures returned ==> reply == Serve(seen, Get(key)).1
    ensures returned ==> NoOlder(old(server.data), seen, key) && NoOlder(seen, server.data, key)
  {
    var iteration := 0;
    reply, returned, seen := Got("", 0, ErrNoKey), false, server.data;
    while iteration < |rounds|
      invariant iteration <= |rounds| && StoreOk(server.data) && !returned
      invariant NoOlder(old(server.data), server.data, key)
    {
      ghost var start := server.data;
      OthersPut(server, rounds[iteration].before);
      assert NoOlder(start, server.data, key);
      seen := server.data;
      if rounds[iteration].fate != RequestLost {
        reply := server.Get(key);
      }
      OthersPut(server, rounds[iteration].after);
      assert NoOlder(seen, server.data, key);
      if rounds[iteration].fate == Answered {
        return reply, true, seen;
      }
      iteration := iteration + 1;
    }
  }

  /** Clerk.Put for as many rounds as the network is described for; not `returned` if it is still retrying.
      `performed` counts how often its own put took effect. */
  method PutWithRetries(server: KVServer, args: PutArgs, rounds: seq<Round>)
    returns (result: Err, returned: bool, performed: nat)
    requires StoreOk(server.data)
    modifies server
    ensures StoreOk(server.data)
    ensures performed <= 1
    ensures performed == 1 ==> VersionOf(server.data, args.key) > args.version
    ensures returned && result == OK ==> performed == 1
    ensures returned && (result == ErrVersion || result == ErrNoKey) ==> performed == 0
  {
    var iteration := 0;
    performed := 0;
    result, returned := ErrMaybe, false;
    while iteration < |rounds|
      invariant iteration <= |rounds| && StoreOk(server.data) && performed <= 1
      invariant performed == 1 ==> VersionOf(server.data, args.key) > args.version
      invariant performed == 1 ==> iteration > 0
      invariant !returned
    {
      ghost var start := server.data;
      OthersPut(server, rounds[iteration].before);
      assert NoOlder(start, server.data, args.key);
      ghost var before := server.data;
      var err := ErrMaybe;
      if rounds[iteration].fate != RequestLost {
        PutIsCompareAndSwap(before, args);
        err := server.Put(args);
        if err == OK {
          performed := performed + 1;
        }
      }
      ghost var served := server.data;
      OthersPut(server, rounds[iteration].after);
      assert NoOlder(served, server.data, args.key);
      if rounds[iteration].fate == Answered {
        return Reported(err, iteration), true, performed;
      }
      iteration := iteration + 1;
    }
  }
}
