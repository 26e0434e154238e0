/** The versioned key/value server: conditional puts on a map. */
module KvServer {

  datatype Err = OK | ErrNoKey | ErrVersion | ErrMaybe

  datatype Versioned = Versioned(value: string, version: nat)

  type Store = map<string, Versioned>

  datatype PutArgs = PutArgs(key: string, value: string, version: nat)

  datatype Request = Get(key: string) | Put(args: PutArgs)
  {
    function Key(): string {
      if Get? then key else args.key
    }
  }

  datatype Reply = Got(value: string, version: nat, err: Err) | Done(err: Err)

  /** An absent key counts as version 0, the version its first Put must name. */
  function VersionOf(store: Store, key: string): nat {
    if key in store then store[key].version else 0
  }

  function ValueOf(store: Store, key: string): string {
    if key in store then store[key].value else ""
  }

  ghost predicate StoreOk(store: Store) {
    forall k | k in store :: store[k].version > 0
  }

  function Serve(store: Store, request: Request): (Store, Reply) {
    match request
    case Get(key) =>
      if key in store then (store, Got(store[key].value, store[key].version, OK))
      else (store, Got("", 0, ErrNoKey))
    case Put(args) =>
      if args.key !in store then
        if args.version != 0 then (store, Done(ErrNoKey))
        else (store[args.key := Versioned(args.value, 1)], Done(OK))
      else if store[args.key].version != args.version then (store, Done(ErrVersion))
      else (store[args.key := Versioned(args.value, args.version + 1)], Done(OK))
  }

  /** Put is compare-and-swap on the version: it succeeds exactly when it names the present version,
      and then installs the value under the next one; otherwise it changes nothing. */
  lemma PutIsCompareAndSwap(store: Store, args: PutArgs)
    requires StoreOk(store)
    ensures var (store', reply) := Serve(store, Put(args));
            && StoreOk(store')
            && (reply == Done(OK) <==> args.version == VersionOf(store, args.key))
            && (reply == Done(ErrNoKey) <==> args.version != 0 && args.key !in store)
            && (reply == Done(OK) || reply == Done(ErrNoKey) || reply == Done(ErrVersion))
            && store' == (if reply == Done(OK) then store[args.key := Versioned(args.value, args.version + 1)] else store)
  {
  }

  /** Get answers with the value and version of a present key, and that an absent one is missing. */
  lemma GetAnswers(store: Store, key: string)
    ensures var (store', reply) := Serve(store, Get(key));
      && store' == store && reply.Got?
      && (key in store ==> reply.err == OK && Versioned(reply.value, reply.version) == store[key])
      && (key !in store ==> reply == Got("", 0, ErrNoKey))
  {
  }

  /** A successful Put ends the life of every other request that names its version: versions
      only ever grow, so no later store serves it. */
  lemma ServeRaisesVersions(store: Store, request: Request, key: string)
    requires StoreOk(store)
    ensures StoreOk(Serve(store, request).0)
    ensures VersionOf(store, key) <= VersionOf(Serve(store, request).0, key)
    ensures VersionOf(store, key) < VersionOf(Serve(store, request).0, key) <==>
              request.Put? && request.args.key == key && Serve(store, request).1 == Done(OK)
    ensures VersionOf(store, key) == VersionOf(Serve(store, request).0, key) ==>
              ValueOf(store, key) == ValueOf(Serve(store, request).0, key)
  {
  }

  class KVServer {
    var data: Store

    constructor ()
      ensures data == map[]
    {
      data := map[];
    }

    method Get(key: string) returns (reply: Reply)
      ensures reply == Serve(data, Request.Get(key)).1
    {
      if key !in data {
        return Got("", 0, ErrNoKey);
      }
      reply := Got(data[key].value, data[key].version, OK);
    }

    method Put(args: PutArgs) returns (err: Err)
      modifies this
      ensures (data, Done(err)) == Serve(old(data), Request.Put(args))
    {
      if args.key !in data {
        if args.version != 0 {
          return ErrNoKey;
        }
        data := data[args.key := Versioned(args.value, 1)];
        return OK;
      }
      if data[args.key].version != args.version {
        return ErrVersion;
      }
      data := data[args.key := Versioned(args.value, data[args.key].version + 1)];
      return OK;
    }
  }
}
