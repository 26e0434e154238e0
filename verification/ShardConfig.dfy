/** Configurations: groups join and leave, and every successful change is followed by a rebalance. */
module ShardConfig {
  import opened Sorting
  import opened ShardBalance

  type Groups = map<int, seq<string>>

  datatype Config = Config(num: int, shards: seq<int>, groups: Groups)

  /** What a change answers: true, false, or log.Fatalf, which ends the program. */
  datatype Outcome = Changed | Refused | Fatal

  // ---------------------------------------------------------------- group ids in order

  lemma SomeOf<T>(s: set<T>) returns (x: T)
    requires s != {}
    ensures x in s
  {
    x :| x in s;
  }

  ghost predicate IsGreatest(s: set<int>, m: int) {
    m in s && forall x | x in s :: x <= m
  }

  lemma {:induction false} GreatestOf(s: set<int>) returns (m: int)
    requires s != {}
    ensures IsGreatest(s, m)
    decreases |s|
  {
    m := SomeOf(s);
    var rest := s - {m};
    assert s == rest + {m};
    if rest != {} {
      var n := GreatestOf(rest);
      m := if n > m then n else m;
    }
  }

  lemma HasGreatest(s: set<int>)
    requires s != {}
    ensures exists m :: IsGreatest(s, m)
  {
    var m := GreatestOf(s);
  }

  ghost function Greatest(s: set<int>): (m: int)
    requires s != {}
    ensures IsGreatest(s, m)
  {
    HasGreatest(s);
    var m :| IsGreatest(s, m);
    m
  }

  ghost predicate Lists(gids: seq<int>, keys: set<int>) {
    Ascending(gids) && Unique(gids) && |gids| == |keys| && forall g :: g in gids <==> g in keys
  }

  /** The group ids in ascending order, the order in which analyze looks at the groups. */
  ghost function GidsOf(keys: set<int>): (gids: seq<int>)
    ensures Lists(gids, keys)
    decreases |keys|
  {
    if keys == {} then []
    else
      var m := Greatest(keys);
      var gids := GidsOf(keys - {m});
      assert forall i | 0 <= i < |gids| :: gids[i] in gids;
      gids + [m]
  }

  /** Whatever order the map is walked in, sorting its keys gives the same list. */
  lemma {:induction false} SortedKeysAreGids(gids: seq<int>, keys: set<int>)
    requires Lists(gids, keys)
    ensures gids == GidsOf(keys)
  {
    if gids != [] {
      var n := |gids| - 1;
      var m := Greatest(keys);
      assert gids[n] in keys && m in gids;
      assert gids == gids[..n] + [gids[n]];
      assert gids[n] !in gids[..n];
      SortedKeysAreGids(gids[..n], keys - {m});
    }
  }

  // ---------------------------------------------------------------- changes as functions

  function Created(n: nat): Config {
    Config(0, seq(n, _ => 0), map[])
  }

  predicate Shares(a: seq<string>, b: seq<string>) {
    exists s | s in a :: s in b
  }

  predicate Clash(groups: Groups, servers: seq<string>) {
    exists x | x in groups :: Shares(groups[x], servers)
  }

  /** Groups are added one at a time, in the order the argument map is walked. */
  function AddAll(groups: Groups, joining: seq<(int, seq<string>)>): (Outcome, Groups)
    decreases |joining|
  {
    if joining == [] then (Changed, groups)
    else
      var (gid, servers) := joining[0];
      if gid in groups then (Refused, groups)
      else if Clash(groups, servers) then (Fatal, groups)
      else AddAll(groups[gid := servers], joining[1..])
  }

  function RemoveAll(groups: Groups, gids: seq<int>): (Outcome, Groups)
    decreases |gids|
  {
    if gids == [] then (Changed, groups)
    else if gids[0] !in groups then (Refused, groups)
    else RemoveAll(groups - {gids[0]}, gids[1..])
  }

  function Joined(c: Config, joining: seq<(int, seq<string>)>): (Outcome, Config) {
    var (outcome, groups) := AddAll(c.groups, joining);
    if joining == [] then (Fatal, c)
    else (outcome, c.(groups := groups, num := if outcome == Changed then c.num + 1 else c.num))
  }

  function Left(c: Config, gids: seq<int>): (Outcome, Config) {
    var (outcome, groups) := RemoveAll(c.groups, gids);
    if gids == [] then (Fatal, c)
    else (outcome, c.(groups := groups, num := if outcome == Changed then c.num + 1 else c.num))
  }

  ghost function Balanced(c: Config): Config
    requires |c.shards| < NO_LOAD
  {
    c.(shards := Rebalanced(c.shards, GidsOf(c.groups.Keys)))
  }

  ghost function JoinBalanced(c: Config, joining: seq<(int, seq<string>)>): (Outcome, Config)
    requires |c.shards| < NO_LOAD
  {
    var (outcome, c') := Joined(c, joining);
    (outcome, if outcome == Changed then Balanced(c') else c')
  }

  ghost function LeaveBalanced(c: Config, gids: seq<int>): (Outcome, Config)
    requires |c.shards| < NO_LOAD
  {
    var (outcome, c') := Left(c, gids);
    (outcome, if outcome == Changed then Balanced(c') else c')
  }

  // ---------------------------------------------------------------- theorems

  ghost predicate ConfigOk(c: Config) {
    |c.shards| < NO_LOAD && Checked(c.shards, GidsOf(c.groups.Keys))
  }

  /** A call with a single group. */
  datatype Call = JoinOne(gid: int, servers: seq<string>) | LeaveOne(gid: int)

  ghost function After(c: Config, call: Call): (Outcome, Config)
    requires |c.shards| < NO_LOAD
  {
    match call
    case JoinOne(gid, servers) => JoinBalanced(c, [(gid, servers)])
    case LeaveOne(gid) => LeaveBalanced(c, [gid])
  }

  /** A run of calls; a fatal one ends it. */
  ghost function AfterAll(c: Config, calls: seq<Call>): (c': Config)
    requires |c.shards| < NO_LOAD
    ensures |c'.shards| == |c.shards|
    decreases |calls|
  {
    if calls == [] then c
    else
      var (outcome, c') := After(c, calls[0]);
      if outcome == Fatal then c' else AfterAll(c', calls[1..])
  }

  lemma BalancedIsOk(c: Config)
    requires |c.shards| < NO_LOAD
    ensures ConfigOk(Balanced(c))
  {
    RebalancedIsChecked(c.shards, GidsOf(c.groups.Keys));
  }

  lemma JoinOneOutcome(c: Config, gid: int, servers: seq<string>)
    ensures var (outcome, c') := Joined(c, [(gid, servers)]);
      && (outcome == Changed <==> gid !in c.groups && !Clash(c.groups, servers))
      && c' == (if outcome == Changed then c.(groups := c.groups[gid := servers], num := c.num + 1) else c)
  {
    assert [(gid, servers)][1..] == [];
    assert AddAll(c.groups[gid := servers], []) == (Changed, c.groups[gid := servers]);
  }

  lemma LeaveOneOutcome(c: Config, gid: int)
    ensures var (outcome, c') := Left(c, [gid]);
      && (outcome == Changed <==> gid in c.groups)
      && c' == (if outcome == Changed then c.(groups := c.groups - {gid}, num := c.num + 1) else c)
  {
    assert [gid][1..] == [];
    assert RemoveAll(c.groups - {gid}, []) == (Changed, c.groups - {gid});
  }

  /** A single-group call either changes the configuration into a checked one under the next number, or
      leaves it alone. */
  lemma CallKeepsConfig(c: Config, call: Call)
    requires ConfigOk(c)
    ensures var (outcome, c') := After(c, call);
      && ConfigOk(c')
      && (outcome != Changed ==> c' == c)
      && (outcome == Changed ==> c'.num == c.num + 1)
  {
    match call
    case JoinOne(gid, servers) =>
      JoinOneOutcome(c, gid, servers);
      BalancedIsOk(Joined(c, [(gid, servers)]).1);
    case LeaveOne(gid) =>
      LeaveOneOutcome(c, gid);
      BalancedIsOk(Left(c, [gid]).1);
  }

  /** From a new configuration on, every run of single-group calls stays checked: every shard belongs to
      a live group, and loads differ by at most one. */
  lemma {:induction false} RunsStayChecked(c: Config, calls: seq<Call>)
    requires ConfigOk(c)
    ensures ConfigOk(AfterAll(c, calls))
    decreases |calls|
  {
    if calls != [] {
      CallKeepsConfig(c, calls[0]);
      var (outcome, c') := After(c, calls[0]);
      if outcome != Fatal {
        RunsStayChecked(c', calls[1..]);
      }
    }
  }

  lemma CreatedIsOk(n: nat)
    requires n < NO_LOAD
    ensures ConfigOk(Created(n))
  {
  }

  /** Joining one new group to a checked configuration of k groups moves exactly floor(N/(k+1)) shards,
      all of them to the new group. */
  lemma JoinMovesMinimally(c: Config, gid: int, servers: seq<string>)
    requires ConfigOk(c) && c.groups != map[] && JoinBalanced(c, [(gid, servers)]).0 == Changed
    ensures var c' := JoinBalanced(c, [(gid, servers)]).1;
      && |c'.shards| == |c.shards|
      && |MovedShards(c.shards, c'.shards)| == |c.shards| / (|c.groups| + 1)
      && forall s | s in MovedShards(c.shards, c'.shards) :: c'.shards[s] == gid
  {
    JoinOneOutcome(c, gid, servers);
    OneMoreGid(c.groups, gid, servers);
    JoiningMovesMinimally(c.shards, GidsOf(c.groups[gid := servers].Keys), GidsOf(c.groups.Keys), gid);
  }

  lemma OneMoreGid(groups: Groups, gid: int, servers: seq<string>)
    requires groups != map[] && gid !in groups
    ensures var others, gids := GidsOf(groups.Keys), GidsOf(groups[gid := servers].Keys);
      && others != [] && |others| == |groups| && gid !in others && |gids| == |others| + 1
      && forall g :: g in gids <==> g in others || g == gid
  {
    HasGids(groups);
    assert groups[gid := servers].Keys == groups.Keys + {gid};
  }

  lemma {:induction false} RemovedKeys(groups: Groups, gids: seq<int>)
    requires RemoveAll(groups, gids).0 == Changed
    ensures forall g :: g in RemoveAll(groups, gids).1 <==> g in groups && g !in gids
  {
    if gids != [] {
      RemovedKeys(groups - {gids[0]}, gids[1..]);
      assert gids == [gids[0]] + gids[1..];
    }
  }

  /** When groups leave a checked configuration and some stay, exactly the shards of the departed groups
      move. */
  lemma LeaveMovesOnlyDeparted(c: Config, gids: seq<int>)
    requires ConfigOk(c) && LeaveBalanced(c, gids).0 == Changed && LeaveBalanced(c, gids).1.groups != map[]
    ensures var c' := LeaveBalanced(c, gids).1;
      && |c'.shards| == |c.shards|
      && (forall s | 0 <= s < |c.shards| :: c'.shards[s] != c.shards[s] <==> c.shards[s] in gids)
      && ConfigOk(c')
  {
    var mid := Left(c, gids).1;
    RemovedKeys(c.groups, gids);
    var k := SomeOf(mid.groups.Keys);
    assert k in GidsOf(mid.groups.Keys);
    LeavingMovesOnlyDeparted(c.shards, GidsOf(c.groups.Keys), GidsOf(mid.groups.Keys));
    forall s | 0 <= s < |c.shards| ensures c.shards[s] in c.groups {
      assert k in GidsOf(c.groups.Keys);
      assert c.shards[s] in GidsOf(c.groups.Keys);
    }
  }

  lemma {:induction false} RemovedAreFewer(groups: Groups, gids: seq<int>)
    ensures RemoveAll(groups, gids).1.Keys <= groups.Keys
  {
    if gids != [] && gids[0] in groups {
      RemovedAreFewer(groups - {gids[0]}, gids[1..]);
    }
  }

  /** A refused Leave is not undone: it leaves the configuration as it was exactly when the very first
      id is unknown. Otherwise groups are gone, under the old number and without a rebalance. */
  lemma RefusedLeave(c: Config, gids: seq<int>)
    requires |c.shards| < NO_LOAD && LeaveBalanced(c, gids).0 == Refused
    ensures LeaveBalanced(c, gids).1 == c <==> gids[0] !in c.groups
    ensures LeaveBalanced(c, gids).1.shards == c.shards && LeaveBalanced(c, gids).1.num == c.num
  {
    if gids[0] in c.groups {
      RemovedAreFewer(c.groups - {gids[0]}, gids[1..]);
      assert gids[0] !in RemoveAll(c.groups, gids).1;
    }
  }

  /** Joining succeeds only with groups that are all new, and adds exactly those with their servers. */
  lemma {:induction false} JoinAddsAll(groups: Groups, joining: seq<(int, seq<string>)>)
    requires AddAll(groups, joining).0 == Changed
    ensures var groups' := AddAll(groups, joining).1;
      && (forall g | g in groups :: g in groups' && groups'[g] == groups[g])
      && (forall i | 0 <= i < |joining| ::
            joining[i].0 !in groups && joining[i].0 in groups' && groups'[joining[i].0] == joining[i].1)
      && (forall g | g in groups' && g !in groups :: exists i :: 0 <= i < |joining| && joining[i].0 == g)
    decreases |joining|
  {
    if joining != [] {
      var (gid, servers) := joining[0];
      var rest, mid := joining[1..], groups[gid := servers];
      JoinAddsAll(mid, rest);
      var groups' := AddAll(groups, joining).1;
      forall g | g in groups' && g !in groups ensures exists i :: 0 <= i < |joining| && joining[i].0 == g {
        if g != gid {
          var i :| 0 <= i < |rest| && rest[i].0 == g;
          assert joining[i + 1].0 == g;
        } else {
          assert joining[0].0 == g;
        }
      }
      forall i | 0 <= i < |joining|
        ensures joining[i].0 !in groups && joining[i].0 in groups' && groups'[joining[i].0] == joining[i].1
      {
        if i > 0 {
          assert rest[i - 1] == joining[i];
        }
      }
    }
  }

  // ---------------------------------------------------------------- the class

  class Cfg {
    var num: int
    const shards: array<int>
    var groups: Groups

    ghost predicate Valid() {
      shards.Length < NO_LOAD
    }

    ghost function Value(): Config
      reads this, shards
    {
      Config(num, shards[..], groups)
    }

    constructor (n: nat)
      requires n < NO_LOAD
      ensures Valid() && fresh(shards) && Value() == Created(n)
    {
      num := 0;
      shards := new int[n](_ => 0);
      groups := map[];
      new;
      assert shards[..] == seq(n, _ => 0);
    }

    method Counts() returns (counts: map<int, nat>)
      ensures forall g :: (if g in counts then counts[g] else 0) == Count(shards[..], g)
    {
      counts := map[];
      for s := 0 to shards.Length
        invariant forall g :: (if g in counts then counts[g] else 0) == Count(shards[..s], g)
      {
        assert shards[..s + 1][..s] == shards[..s];
        var g := shards[s];
        counts := counts[g := (if g in counts then counts[g] else 0) + 1];
      }
      assert shards[..shards.Length] == shards[..];
    }

    method Analyze(ghost listed: seq<int>) returns (mg: int, mn: int, lg: int, ln: int)
      requires Lists(listed, groups.Keys)
      ensures Extremes(mg, mn, lg, ln) == ShardBalance.Analyze(shards[..], listed)
    {
      var counts := Counts();
      mn, mg, ln, lg := -1, -1, NO_LOAD, -1;
      var gids := SortedGids(listed);
      ghost var now := shards[..];
      for i := 0 to |gids|
        invariant Extremes(mg, mn, lg, ln) == ShardBalance.Analyze(now, gids[..i])
      {
        var g := gids[i];
        var n := if g in counts then counts[g] else 0;
        AnalyzeOneMore(now, gids, i);
        assert n == Count(now, g);
        if n < ln {
          ln, lg := n, g;
        }
        if n > mn {
          mn, mg := n, g;
        }
      }
      assert gids[..|gids|] == gids;
    }

    /** The keys of the map, walked in any order, then sorted. */
    method SortedGids(ghost listed: seq<int>) returns (gids: seq<int>)
      requires Lists(listed, groups.Keys)
      ensures gids == listed
    {
      var keys := [];
      var rest := groups.Keys;
      while rest != {}
        invariant rest <= groups.Keys && Unique(keys) && |keys| + |rest| == |groups.Keys|
        invariant forall g :: g in keys <==> g in groups.Keys && g !in rest
        decreases |rest|
      {
        ghost var some := SomeOf(rest);
        var k :| k in rest;
        assert forall i | 0 <= i < |keys| :: keys[i] in keys;
        keys := keys + [k];
        rest := rest - {k};
      }
      gids := SortInts(keys);
      SortKeepsUnique(keys);
      SortedKeysAreGids(gids, groups.Keys);
      SortedKeysAreGids(listed, groups.Keys);
    }

    method Least(ghost listed: seq<int>) returns (lg: int)
      requires Lists(listed, groups.Keys)
      ensures lg == ShardBalance.Analyze(shards[..], listed).lg
    {
      var _, _, l, _ := Analyze(listed);
      lg := l;
    }

    method Rebalance()
      requires Valid()
      modifies shards
      ensures Value() == Balanced(old(Value()))
    {
      if |groups| < 1 {
        Unassign();
        return;
      }
      HasGids(groups);
      ghost var listed := GidsOf(groups.Keys);
      AssignAll(listed);
      MoveLoop(listed);
    }

    /** If no groups, un-assign all shards. */
    method Unassign()
      modifies shards
      ensures shards[..] == seq(shards.Length, _ => 0)
    {
      for s := 0 to shards.Length
        invariant forall t | 0 <= t < s :: shards[t] == 0
      {
        shards[s] := 0;
      }
    }

    /** Assign all unassigned shards. */
    method AssignAll(ghost listed: seq<int>)
      requires Lists(listed, groups.Keys)
      modifies shards
      ensures shards[..] == Assigned(old(shards[..]), listed, 0)
    {
      ghost var before := shards[..];
      for s := 0 to shards.Length
        invariant Assigned(shards[..], listed, s) == Assigned(before, listed, 0)
      {
        ghost var now := shards[..];
        ListedIsIn(listed, groups, shards[s]);
        if shards[s] !in groups {
          var lg := Least(listed);
          shards[s] := lg;
          assert shards[..] == now[s := lg];
        }
        assert Assigned(now, listed, s) == Assigned(shards[..], listed, s + 1);
      }
    }

    /** Move shards from the most to the least loaded group. */
    method MoveLoop(ghost listed: seq<int>)
      requires Valid() && listed != [] && Lists(listed, groups.Keys)
      modifies shards
      ensures shards[..] == Moved(old(shards[..]), listed)
    {
      ghost var before := shards[..];
      while true
        invariant Moved(shards[..], listed) == Moved(before, listed)
        decreases SumSquares(shards[..], listed)
      {
        ghost var now := shards[..];
        var mg, mn, lg, ln := Analyze(listed);
        if mn < ln + 2 {
          break;
        }
        MovedStep(now, listed);
        MoveFirst(mg, lg);
      }
    }

    /** Move one shard from mg to lg. */
    method MoveFirst(mg: int, lg: int)
      requires mg in shards[..]
      modifies shards
      ensures shards[..] == old(shards[..])[FirstOf(old(shards[..]), mg) := lg]
    {
      ghost var now := shards[..];
      for s := 0 to shards.Length
        invariant shards[..] == now && s <= FirstOf(now, mg)
      {
        if shards[s] == mg {
          FirstIs(now, mg, s);
          shards[s] := lg;
          break;
        }
      }
    }

    method ServersClash(servers: seq<string>) returns (clash: bool)
      ensures clash == Clash(groups, servers)
    {
      var rest := groups.Keys;
      while rest != {}
        invariant rest <= groups.Keys
        invariant forall x | x in groups && x !in rest :: !Shares(groups[x], servers)
        decreases |rest|
      {
        ghost var some := SomeOf(rest);
        var x :| x in rest;
        clash := SameServer(groups[x], servers);
        if clash {
          return;
        }
        rest := rest - {x};
      }
      clash := false;
    }

    static method SameServer(a: seq<string>, b: seq<string>) returns (same: bool)
      ensures same == Shares(a, b)
    {
      for i := 0 to |a|
        invariant forall s | s in a[..i] :: s !in b
      {
        for j := 0 to |b|
          invariant a[i] !in b[..j]
        {
          if a[i] == b[j] {
            assert a[i] in a && a[i] in b;
            return true;
          }
        }
        assert b[..|b|] == b;
      }
      assert a[..|a|] == a;
      same := false;
    }

    method Join(joining: seq<(int, seq<string>)>) returns (outcome: Outcome)
      requires Valid()
      modifies this
      ensures (outcome, Value()) == Joined(old(Value()), joining)
    {
      ghost var before := groups;
      for i := 0 to |joining|
        invariant AddAll(groups, joining[i..]) == AddAll(before, joining)
        invariant Value() == old(Value()).(groups := groups)
      {
        var (gid, servers) := joining[i];
        if gid in groups {
          return Refused;
        }
        var clash := ServersClash(servers);
        if clash {
          return Fatal;
        }
        groups := groups[gid := servers];
        assert joining[i..][1..] == joining[i + 1..];
      }
      if |joining| == 0 {
        return Fatal;
      }
      num := num + 1;
      outcome := Changed;
    }

    method Leave(gids: seq<int>) returns (outcome: Outcome)
      requires Valid()
      modifies this
      ensures (outcome, Value()) == Left(old(Value()), gids)
    {
      ghost var before := groups;
      for i := 0 to |gids|
        invariant RemoveAll(groups, gids[i..]) == RemoveAll(before, gids)
        invariant Value() == old(Value()).(groups := groups)
      {
        if gids[i] !in groups {
          return Refused;
        }
        groups := groups - {gids[i]};
        assert gids[i..][1..] == gids[i + 1..];
      }
      if |gids| == 0 {
        return Fatal;
      }
      num := num + 1;
      outcome := Changed;
    }

    method JoinBalance(joining: seq<(int, seq<string>)>) returns (outcome: Outcome)
      requires Valid()
      modifies this, shards
      ensures Valid() && (outcome, Value()) == JoinBalanced(old(Value()), joining)
    {
      outcome := Join(joining);
      if outcome == Changed {
        Rebalance();
      }
    }

    method LeaveBalance(gids: seq<int>) returns (outcome: Outcome)
      requires Valid()
      modifies this, shards
      ensures Valid() && (outcome, Value()) == LeaveBalanced(old(Value()), gids)
    {
      outcome := Leave(gids);
      if outcome == Changed {
        Rebalance();
      }
    }

    /** In a checked configuration with groups, every shard has servers. */
    method GidServers(sh: nat) returns (gid: int, servers: seq<string>, ok: bool)
      requires sh < shards.Length
      ensures gid == shards[sh] && (ok <==> gid in groups) && (ok ==> servers == groups[gid])
      ensures ConfigOk(Value()) && groups != map[] ==> ok
    {
      gid := shards[sh];
      ok := gid in groups;
      servers := if ok then groups[gid] else [];
      if groups != map[] {
        HasGids(groups);
        assert Checked(shards[..], GidsOf(groups.Keys)) ==> shards[..][sh] in GidsOf(groups.Keys);
      }
    }
  }

  lemma HasGids(groups: Groups)
    requires groups != map[]
    ensures GidsOf(groups.Keys) != []
  {
    var k := SomeOf(groups.Keys);
  }

  lemma ListedIsIn(listed: seq<int>, groups: Groups, g: int)
    requires Lists(listed, groups.Keys)
    ensures g in listed <==> g in groups
  {
  }

  lemma AnalyzeOneMore(shards: seq<int>, gids: seq<int>, i: nat)
    requires i < |gids|
    ensures ShardBalance.Analyze(shards, gids[..i + 1]) ==
              Look(ShardBalance.Analyze(shards, gids[..i]), gids[i], Count(shards, gids[i]))
  {
    assert gids[..i + 1][..i] == gids[..i];
  }

  lemma MovedStep(shards: seq<int>, gids: seq<int>)
    requires gids != [] && |shards| < NO_LOAD && Unique(gids) && Uneven(shards, gids)
    ensures Moved(MovedOne(shards, gids), gids) == Moved(shards, gids)
    ensures SumSquares(MovedOne(shards, gids), gids) < SumSquares(shards, gids)
    ensures var e := ShardBalance.Analyze(shards, gids);
      e.mg in shards && MovedOne(shards, gids) == shards[FirstOf(shards, e.mg) := e.lg]
  {
    MoveLowers(shards, gids);
    MostHasOne(shards, gids);
  }

  lemma {:induction false} FirstIs(shards: seq<int>, g: int, s: nat)
    requires g in shards && s < |shards| && shards[s] == g && s <= FirstOf(shards, g)
    ensures s == FirstOf(shards, g)
  {
    var first := FirstOf(shards, g);
    assert forall i | 0 <= i < first :: shards[i] == shards[..first][i];
  }

  lemma SortKeepsUnique(keys: seq<int>)
    requires Unique(keys)
    ensures Unique(SortInts(keys))
  {
    var sorted := SortInts(keys);
    SortPermutes(keys);
    forall i, j | 0 <= i < j < |sorted| ensures sorted[i] != sorted[j] {
      UniqueCount(keys, sorted[i]);
      if sorted[i] == sorted[j] {
        TwiceCounted(sorted, i, j);
      }
    }
  }

  lemma {:induction false} UniqueCount(keys: seq<int>, k: int)
    requires Unique(keys)
    ensures multiset(keys)[k] <= 1
  {
    if keys != [] {
      var n := |keys| - 1;
      UniqueCount(keys[..n], k);
      assert keys == keys[..n] + [keys[n]];
      if keys[n] == k {
        assert k !in keys[..n];
      }
    }
  }

  lemma TwiceCounted(s: seq<int>, i: nat, j: nat)
    requires i < j < |s| && s[i] == s[j]
    ensures multiset(s)[s[i]] >= 2
  {
    assert s == s[..i] + [s[i]] + s[i + 1..j] + [s[j]] + s[j + 1..];
  }
}
