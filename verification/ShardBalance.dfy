/** Rebalancing as functions of the shard assignment and the group ids in ascending order, and what
    they guarantee: termination, balance, and minimal movement. */
module ShardBalance {
  import opened Sorting

  /** The load of a group: how many shards it has. */
  function Count(shards: seq<int>, g: int): (n: nat)
    ensures n <= |shards|
  {
    if shards == [] then 0
    else Count(shards[..|shards| - 1], g) + (if shards[|shards| - 1] == g then 1 else 0)
  }

  /** The group with the most shards and the one with the fewest; the lowest id on a tie. */
  datatype Extremes = Extremes(mg: int, mn: int, lg: int, ln: int)

  /** One group looked at in the loop of analyze. */
  function Look(e: Extremes, g: int, n: int): Extremes {
    e.(lg := if n < e.ln then g else e.lg, ln := if n < e.ln then n else e.ln,
       mg := if n > e.mn then g else e.mg, mn := if n > e.mn then n else e.mn)
  }

  /** A load no group can have: analyze starts from it, so there must be fewer shards than that. */
  const NO_LOAD := 257

  function Analyze(shards: seq<int>, gids: seq<int>): Extremes {
    if gids == [] then Extremes(-1, -1, -1, NO_LOAD)
    else
      var g := gids[|gids| - 1];
      Look(Analyze(shards, gids[..|gids| - 1]), g, Count(shards, g))
  }

  lemma {:induction false} AnalyzeOk(shards: seq<int>, gids: seq<int>)
    requires |shards| < NO_LOAD && gids != []
    ensures var e := Analyze(shards, gids);
      && e.mg in gids && e.mn == Count(shards, e.mg)
      && e.lg in gids && e.ln == Count(shards, e.lg)
      && forall g | g in gids :: e.ln <= Count(shards, g) <= e.mn
  {
    var n := |gids| - 1;
    if n > 0 {
      AnalyzeOk(shards, gids[..n]);
    }
    assert gids == gids[..n] + [gids[n]];
  }

  /** With the ids in ascending order, the least loaded group is the lowest of its load. */
  lemma {:induction false} LeastGoesLow(shards: seq<int>, gids: seq<int>, g: int)
    requires |shards| < NO_LOAD && Ascending(gids) && g in gids && Count(shards, g) == Analyze(shards, gids).ln
    ensures Analyze(shards, gids).lg <= g
  {
    var n := |gids| - 1;
    LastIsGreatest(gids, g);
    if n > 0 {
      AnalyzeOk(shards, gids[..n]);
      LastIsGreatest(gids, Analyze(shards, gids[..n]).lg);
      if g != gids[n] {
        LeastGoesLow(shards, gids[..n], g);
      }
    }
  }

  /** And so is the most loaded. */
  lemma {:induction false} MostGoesLow(shards: seq<int>, gids: seq<int>, g: int)
    requires |shards| < NO_LOAD && Ascending(gids) && g in gids && Count(shards, g) == Analyze(shards, gids).mn
    ensures Analyze(shards, gids).mg <= g
  {
    var n := |gids| - 1;
    LastIsGreatest(gids, g);
    if n > 0 {
      AnalyzeOk(shards, gids[..n]);
      LastIsGreatest(gids, Analyze(shards, gids[..n]).mg);
      if g != gids[n] {
        MostGoesLow(shards, gids[..n], g);
      }
    }
  }

  lemma LastIsGreatest(gids: seq<int>, g: int)
    requires Ascending(gids) && gids != [] && (g in gids || g in gids[..|gids| - 1])
    ensures g <= gids[|gids| - 1] && (g in gids[..|gids| - 1] || g == gids[|gids| - 1])
  {
  }

  // ---------------------------------------------------------------- the two phases

  /** From shard s on, every shard of no live group goes to the least loaded group. */
  function Assigned(shards: seq<int>, gids: seq<int>, s: nat): (r: seq<int>)
    requires s <= |shards|
    ensures |r| == |shards|
    decreases |shards| - s
  {
    if s == |shards| then shards
    else if shards[s] in gids then Assigned(shards, gids, s + 1)
    else Assigned(shards[s := Analyze(shards, gids).lg], gids, s + 1)
  }

  function FirstOf(shards: seq<int>, g: int): (s: nat)
    requires g in shards
    ensures s < |shards| && shards[s] == g && g !in shards[..s]
  {
    if shards[0] == g then 0
    else
      assert shards[1..] == shards[1..];
      var s := FirstOf(shards[1..], g);
      assert shards[..s + 1] == [shards[0]] + shards[1..][..s];
      s + 1
  }

  lemma {:induction false} CountIsIn(shards: seq<int>, g: int)
    ensures Count(shards, g) > 0 <==> g in shards
  {
    if shards != [] {
      CountIsIn(shards[..|shards| - 1], g);
      assert shards == shards[..|shards| - 1] + [shards[|shards| - 1]];
    }
  }

  lemma {:induction false} CountSet(shards: seq<int>, s: nat, to: int, g: int)
    requires s < |shards|
    ensures Count(shards[s := to], g) ==
              Count(shards, g) - (if shards[s] == g then 1 else 0) + (if to == g then 1 else 0)
  {
    var n := |shards| - 1;
    if s < n {
      CountSet(shards[..n], s, to, g);
      assert shards[s := to][..n] == shards[..n][s := to];
    } else {
      assert shards[s := to][..n] == shards[..n];
    }
  }

  /** Some group has at least two shards more than another. */
  predicate Uneven(shards: seq<int>, gids: seq<int>) {
    var e := Analyze(shards, gids);
    e.mn >= e.ln + 2
  }

  lemma MostHasOne(shards: seq<int>, gids: seq<int>)
    requires gids != [] && |shards| < NO_LOAD && Uneven(shards, gids)
    ensures Analyze(shards, gids).mg in shards
  {
    AnalyzeOk(shards, gids);
    CountIsIn(shards, Analyze(shards, gids).mg);
  }

  /** One shard moves from the most loaded group to the least loaded. */
  function MovedOne(shards: seq<int>, gids: seq<int>): (r: seq<int>)
    requires gids != [] && |shards| < NO_LOAD && Uneven(shards, gids)
    ensures |r| == |shards|
  {
    MostHasOne(shards, gids);
    var e := Analyze(shards, gids);
    shards[FirstOf(shards, e.mg) := e.lg]
  }

  function SumSquares(shards: seq<int>, gids: seq<int>): nat {
    if gids == [] then 0
    else
      var n := Count(shards, gids[|gids| - 1]);
      SumSquares(shards, gids[..|gids| - 1]) + n * n
  }

  predicate Unique(gids: seq<int>) {
    forall i, j | 0 <= i < j < |gids| :: gids[i] != gids[j]
  }

  /** The change of one group's square when a shard moves from mg to lg. */
  function Change(shards: seq<int>, e: Extremes, g: int): int {
    if g == e.mg then 1 - 2 * Count(shards, g) else if g == e.lg then 2 * Count(shards, g) + 1 else 0
  }

  lemma MoveChanges(shards: seq<int>, gids: seq<int>, g: int)
    requires gids != [] && |shards| < NO_LOAD && Uneven(shards, gids)
    ensures var e, after := Analyze(shards, gids), MovedOne(shards, gids);
      && Count(after, g) == Count(shards, g) - (if g == e.mg then 1 else 0) + (if g == e.lg then 1 else 0)
      && Count(after, g) * Count(after, g) == Count(shards, g) * Count(shards, g) + Change(shards, e, g)
  {
    MostHasOne(shards, gids);
    AnalyzeOk(shards, gids);
    var e := Analyze(shards, gids);
    CountSet(shards, FirstOf(shards, e.mg), e.lg, g);
    Square(Count(shards, g));
  }

  lemma Square(n: int)
    ensures (n - 1) * (n - 1) == n * n + 1 - 2 * n && (n + 1) * (n + 1) == n * n + 2 * n + 1
  {
  }

  lemma {:induction false} SumOfChanges(shards: seq<int>, gids: seq<int>, some: seq<int>)
    requires gids != [] && |shards| < NO_LOAD && Uneven(shards, gids) && Unique(some)
    ensures var e := Analyze(shards, gids);
      SumSquares(MovedOne(shards, gids), some) ==
        SumSquares(shards, some)
        + (if e.mg in some then Change(shards, e, e.mg) else 0)
        + (if e.lg in some then Change(shards, e, e.lg) else 0)
  {
    AnalyzeOk(shards, gids);
    if some != [] {
      var n := |some| - 1;
      SumOfChanges(shards, gids, some[..n]);
      MoveChanges(shards, gids, some[n]);
      assert some == some[..n] + [some[n]];
    }
  }

  /** The move loop strictly lowers the sum of squared loads. */
  lemma MoveLowers(shards: seq<int>, gids: seq<int>)
    requires gids != [] && |shards| < NO_LOAD && Uneven(shards, gids) && Unique(gids)
    ensures SumSquares(MovedOne(shards, gids), gids) < SumSquares(shards, gids)
  {
    AnalyzeOk(shards, gids);
    SumOfChanges(shards, gids, gids);
  }

  /** Where the move loop ends. */
  function Moved(shards: seq<int>, gids: seq<int>): (r: seq<int>)
    requires gids != [] && |shards| < NO_LOAD && Unique(gids)
    ensures |r| == |shards|
    decreases SumSquares(shards, gids)
  {
    if Uneven(shards, gids) then
      MoveLowers(shards, gids);
      Moved(MovedOne(shards, gids), gids)
    else shards
  }

  /** The outcome of Rebalance. */
  function Rebalanced(shards: seq<int>, gids: seq<int>): (r: seq<int>)
    requires |shards| < NO_LOAD && Unique(gids)
    ensures |r| == |shards|
  {
    if gids == [] then seq(|shards|, _ => 0) else Moved(Assigned(shards, gids, 0), gids)
  }

  // ---------------------------------------------------------------- balance

  /** Every shard belongs to a live group. */
  ghost predicate Live(shards: seq<int>, gids: seq<int>) {
    forall s | 0 <= s < |shards| :: shards[s] in gids
  }

  /** Loads differ by at most one. */
  ghost predicate Even(shards: seq<int>, gids: seq<int>) {
    forall g, h | g in gids && h in gids :: Count(shards, g) <= Count(shards, h) + 1
  }

  /** What CheckConfig checks of an assignment. */
  ghost predicate Checked(shards: seq<int>, gids: seq<int>) {
    (gids != [] ==> Live(shards, gids)) && Even(shards, gids)
  }

  lemma EvenIsNotUneven(shards: seq<int>, gids: seq<int>)
    requires gids != [] && |shards| < NO_LOAD
    ensures Even(shards, gids) <==> !Uneven(shards, gids)
  {
    AnalyzeOk(shards, gids);
  }

  lemma {:induction false} AssignedIsLive(shards: seq<int>, gids: seq<int>, s: nat)
    requires gids != [] && |shards| < NO_LOAD && s <= |shards|
    requires forall t | 0 <= t < s :: shards[t] in gids
    ensures Live(Assigned(shards, gids, s), gids)
    ensures forall t | 0 <= t < |shards| && shards[t] in gids :: Assigned(shards, gids, s)[t] == shards[t]
    decreases |shards| - s
  {
    if s < |shards| {
      AnalyzeOk(shards, gids);
      if shards[s] in gids {
        AssignedIsLive(shards, gids, s + 1);
      } else {
        AssignedIsLive(shards[s := Analyze(shards, gids).lg], gids, s + 1);
      }
    }
  }

  lemma {:induction false} MovedIsChecked(shards: seq<int>, gids: seq<int>)
    requires gids != [] && |shards| < NO_LOAD && Unique(gids) && Live(shards, gids)
    ensures Checked(Moved(shards, gids), gids)
    decreases SumSquares(shards, gids)
  {
    if Uneven(shards, gids) {
      MoveLowers(shards, gids);
      AnalyzeOk(shards, gids);
      MovedIsChecked(MovedOne(shards, gids), gids);
    } else {
      EvenIsNotUneven(shards, gids);
    }
  }

  /** Rebalance ends, and leaves every shard with a live group and loads that differ by at most one. */
  lemma RebalancedIsChecked(shards: seq<int>, gids: seq<int>)
    requires |shards| < NO_LOAD && Unique(gids)
    ensures Checked(Rebalanced(shards, gids), gids)
  {
    if gids != [] {
      AssignedIsLive(shards, gids, 0);
      MovedIsChecked(Assigned(shards, gids, 0), gids);
    }
  }

  /** A checked assignment is left alone. */
  lemma {:induction false} NothingToAssign(shards: seq<int>, gids: seq<int>, s: nat)
    requires Live(shards, gids) && s <= |shards|
    ensures Assigned(shards, gids, s) == shards
    decreases |shards| - s
  {
    if s < |shards| {
      NothingToAssign(shards, gids, s + 1);
    }
  }

  lemma RebalanceIsStable(shards: seq<int>, gids: seq<int>)
    requires gids != [] && |shards| < NO_LOAD && Unique(gids) && Checked(shards, gids)
    ensures Rebalanced(shards, gids) == shards
  {
    NothingToAssign(shards, gids, 0);
    EvenIsNotUneven(shards, gids);
  }

  /** Without groups every shard is unassigned. */
  lemma NoGroupsNoOwners(shards: seq<int>)
    requires |shards| < NO_LOAD
    ensures forall s | 0 <= s < |shards| :: Rebalanced(shards, [])[s] == 0
  {
  }

  // ---------------------------------------------------------------- leaving

  lemma {:induction false} AssignedStaysEven(shards: seq<int>, gids: seq<int>, s: nat)
    requires gids != [] && |shards| < NO_LOAD && s <= |shards| && Even(shards, gids)
    ensures Even(Assigned(shards, gids, s), gids)
    decreases |shards| - s
  {
    if s < |shards| {
      if shards[s] in gids {
        AssignedStaysEven(shards, gids, s + 1);
      } else {
        var lg := Analyze(shards, gids).lg;
        AnalyzeOk(shards, gids);
        forall g
          ensures Count(shards[s := lg], g) ==
                    Count(shards, g) - (if shards[s] == g then 1 else 0) + (if lg == g then 1 else 0)
        {
          CountSet(shards, s, lg, g);
        }
        AssignedStaysEven(shards[s := lg], gids, s + 1);
      }
    }
  }

  /** When groups leave a balanced configuration and others stay, exactly the departed groups' shards
      move, and the move loop has nothing to do. */
  lemma LeavingMovesOnlyDeparted(shards: seq<int>, gids: seq<int>, staying: seq<int>)
    requires |shards| < NO_LOAD && Unique(staying) && staying != []
    requires Checked(shards, gids) && forall g | g in staying :: g in gids
    ensures var after := Rebalanced(shards, staying);
      && after == Assigned(shards, staying, 0)
      && (forall s | 0 <= s < |shards| :: after[s] != shards[s] <==> shards[s] !in staying)
      && Checked(after, staying)
  {
    AssignedStaysEven(shards, staying, 0);
    EvenIsNotUneven(Assigned(shards, staying, 0), staying);
    AssignedIsLive(shards, staying, 0);
    RebalancedIsChecked(shards, staying);
  }

  // ---------------------------------------------------------------- joining

  /** A new group is filling up: the others are even, and it has no more than any of them. */
  ghost predicate Filling(shards: seq<int>, others: seq<int>, joined: int) {
    && Even(shards, others)
    && forall g | g in others :: Count(shards, joined) <= Count(shards, g)
  }

  /** While the new group fills up, the most loaded is another one and the least loaded is the new one. */
  lemma FillingMove(shards: seq<int>, gids: seq<int>, others: seq<int>, joined: int)
    requires |shards| < NO_LOAD && Filling(shards, others, joined) && others != []
    requires joined !in others && forall g :: g in gids <==> g in others || g == joined
    requires Uneven(shards, gids)
    ensures Analyze(shards, gids).mg in others && Analyze(shards, gids).lg == joined
    ensures Filling(MovedOne(shards, gids), others, joined)
  {
    AnalyzeOk(shards, gids);
    var e := Analyze(shards, gids);
    assert others[0] in others;
    forall g
      ensures Count(MovedOne(shards, gids), g) ==
                Count(shards, g) - (if g == e.mg then 1 else 0) + (if g == e.lg then 1 else 0)
    {
      MoveChanges(shards, gids, g);
    }
  }

  /** The shards that changed hands. */
  function MovedShards(before: seq<int>, after: seq<int>): set<nat>
    requires |before| == |after|
  {
    set s: nat | s < |before| && before[s] != after[s]
  }

  lemma {:induction false} FillsUp(shards: seq<int>, gids: seq<int>, others: seq<int>, joined: int)
    requires |shards| < NO_LOAD && Unique(gids) && Filling(shards, others, joined) && others != []
    requires joined !in others && forall g :: g in gids <==> g in others || g == joined
    ensures var after := Moved(shards, gids);
      && Filling(after, others, joined)
      && forall s | 0 <= s < |shards| :: after[s] == shards[s] || (shards[s] != joined && after[s] == joined)
    decreases SumSquares(shards, gids)
  {
    if Uneven(shards, gids) {
      FillingMove(shards, gids, others, joined);
      MoveLowers(shards, gids);
      MostHasOne(shards, gids);
      FillsUp(MovedOne(shards, gids), gids, others, joined);
    }
  }

  /** The load of several groups together. */
  function Load(shards: seq<int>, gids: seq<int>): nat {
    if gids == [] then 0 else Load(shards, gids[..|gids| - 1]) + Count(shards, gids[|gids| - 1])
  }

  lemma {:induction false} LoadOfOne(shards: seq<int>, gids: seq<int>, last: int)
    requires Unique(gids)
    ensures Load(shards + [last], gids) == Load(shards, gids) + (if last in gids then 1 else 0)
  {
    if gids != [] {
      var n := |gids| - 1;
      LoadOfOne(shards, gids[..n], last);
      assert gids == gids[..n] + [gids[n]];
      assert (shards + [last])[..|shards|] == shards;
    }
  }

  lemma {:induction false} NoLoad(gids: seq<int>)
    ensures Load([], gids) == 0
  {
    if gids != [] {
      NoLoad(gids[..|gids| - 1]);
    }
  }

  /** When every shard has a live group, the loads add up to the number of shards. */
  lemma {:induction false} LoadsAddUp(shards: seq<int>, gids: seq<int>)
    requires Unique(gids) && Live(shards, gids)
    ensures Load(shards, gids) == |shards|
  {
    if shards == [] {
      NoLoad(gids);
    } else {
      var n := |shards| - 1;
      LoadsAddUp(shards[..n], gids);
      LoadOfOne(shards[..n], gids, shards[n]);
      assert shards == shards[..n] + [shards[n]];
    }
  }

  lemma OneMore(x: nat, n: nat)
    ensures x * (n + 1) == x * n + x
  {
  }

  lemma {:induction false} LoadBounds(shards: seq<int>, gids: seq<int>, x: nat, g: int)
    requires forall h | h in gids :: x <= Count(shards, h) <= x + 1
    ensures x * |gids| <= Load(shards, gids) <= (x + 1) * |gids|
    ensures g in gids && Count(shards, g) == x ==> Load(shards, gids) < (x + 1) * |gids|
  {
    if gids != [] {
      var n := |gids| - 1;
      assert gids == gids[..n] + [gids[n]];
      LoadBounds(shards, gids[..n], x, g);
      OneMore(x, n);
      OneMore(x + 1, n);
    }
  }

  lemma Times(a: nat, b: nat, k: nat)
    requires a <= b
    ensures a * k <= b * k
  {
  }

  lemma QuotientIs(n: nat, k: nat, x: nat)
    requires k > 0 && x * k <= n < (x + 1) * k
    ensures x == n / k
  {
    var q := n / k;
    assert q * k <= n < (q + 1) * k;
    if q < x {
      Times(q + 1, x, k);
    } else if x < q {
      Times(x + 1, q, k);
    }
  }

  lemma {:induction false} MovedCount(before: seq<int>, after: seq<int>, joined: int)
    requires |before| == |after| && joined !in before
    requires forall s | 0 <= s < |before| :: after[s] == before[s] || after[s] == joined
    ensures |MovedShards(before, after)| == Count(after, joined)
  {
    if before == [] {
      assert MovedShards(before, after) == {};
    } else {
      var n := |before| - 1;
      MovedCount(before[..n], after[..n], joined);
      assert MovedShards(before, after) ==
             MovedShards(before[..n], after[..n]) + (if after[n] == joined then {n as nat} else {});
    }
  }

  /** A group that is no fuller than any other, and at most one short of each, has the floor of the average. */
  lemma LowestIsAverage(shards: seq<int>, gids: seq<int>, low: int)
    requires Unique(gids) && Live(shards, gids) && Even(shards, gids) && low in gids
    requires forall g | g in gids :: Count(shards, low) <= Count(shards, g)
    ensures |gids| > 0 && Count(shards, low) == |shards| / |gids|
  {
    LoadsAddUp(shards, gids);
    LoadBounds(shards, gids, Count(shards, low), low);
    QuotientIs(|shards|, |gids|, Count(shards, low));
  }

  /** When one new group joins a balanced configuration of k others, exactly floor(N/(k+1)) shards move,
      and all of them to the new group. */
  lemma JoiningMovesMinimally(shards: seq<int>, gids: seq<int>, others: seq<int>, joined: int)
    requires |shards| < NO_LOAD && Unique(gids) && Unique(others) && others != [] && Checked(shards, others)
    requires joined !in others && |gids| == |others| + 1 && forall g :: g in gids <==> g in others || g == joined
    ensures var after := Rebalanced(shards, gids);
      && |MovedShards(shards, after)| == |shards| / (|others| + 1)
      && forall s | s in MovedShards(shards, after) :: after[s] == joined
  {
    assert Live(shards, gids);
    NothingToAssign(shards, gids, 0);
    CountIsIn(shards, joined);
    NotYetIn(shards, others, joined);
    var after := Moved(shards, gids);
    FillsUp(shards, gids, others, joined);
    MovedIsChecked(shards, gids);
    MovedCount(shards, after, joined);
    LowestIsAverage(after, gids, joined);
  }

  lemma NotYetIn(shards: seq<int>, others: seq<int>, joined: int)
    requires Live(shards, others) && joined !in others
    ensures joined !in shards
  {
  }
}
