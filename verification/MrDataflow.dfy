/** What the map and reduce workers compute, against the sequential program: partition into buckets,
    gather, sort, group. The application's functions and the hash are parameters. */
module MrDataflow {
  import opened Sorting

  datatype Option<T> = None | Some(value: T)

  datatype KeyValue = KeyValue(key: string, value: string)

  type Mapf = (string, string) -> seq<KeyValue>

  type Reducef = (string, seq<string>) -> string

  type Hash = string -> nat

  // ---------------------------------------------------------------- key order

  /** What sort.Sort leaves for ByKey: no element is less than an earlier one. */
  ghost predicate IsSorted(s: seq<KeyValue>) {
    SortedBy(s, (kv: KeyValue) => kv.key)
  }

  /** A possible outcome of sort.Sort, which is not stable. */
  ghost predicate SortOf(sorted: seq<KeyValue>, s: seq<KeyValue>) {
    IsSorted(sorted) && multiset(sorted) == multiset(s)
  }

  /** sort.Sort has an outcome for every input. */
  lemma EverySliceSorts(s: seq<KeyValue>)
    ensures exists sorted :: SortOf(sorted, s)
  {
    var sorted := SortBy(s, (kv: KeyValue) => kv.key);
    assert SortOf(sorted, s);
  }

  // ---------------------------------------------------------------- grouping

  /** One call of reducef. */
  datatype Group = Group(key: string, values: seq<string>)

  function RunLength(s: seq<KeyValue>, key: string): (j: nat)
    ensures j <= |s|
    ensures forall i | 0 <= i < j :: s[i].key == key
    ensures j < |s| ==> s[j].key != key
  {
    if s == [] || s[0].key != key then 0 else 1 + RunLength(s[1..], key)
  }

  function ValuesIn(s: seq<KeyValue>): (v: seq<string>)
    ensures |v| == |s| && forall i | 0 <= i < |s| :: v[i] == s[i].value
  {
    seq(|s|, i requires 0 <= i < |s| => s[i].value)
  }

  /** The calls of reducef, one for each run of equal keys. */
  function Groups(s: seq<KeyValue>): seq<Group> {
    if s == [] then []
    else
      var j := RunLength(s, s[0].key);
      [Group(s[0].key, ValuesIn(s[..j]))] + Groups(s[j..])
  }

  function Line(g: Group, reducef: Reducef): string {
    g.key + " " + reducef(g.key, g.values) + "\n"
  }

  function Lines(groups: seq<Group>, reducef: Reducef): (lines: seq<string>)
    ensures |lines| == |groups| && forall i | 0 <= i < |groups| :: lines[i] == Line(groups[i], reducef)
  {
    seq(|groups|, i requires 0 <= i < |groups| => Line(groups[i], reducef))
  }

  /** The values a key has in s, with multiplicity. */
  ghost function ValuesOf(s: seq<KeyValue>, key: string): multiset<string> {
    if s == [] then multiset{}
    else ValuesOf(s[1..], key) + (if s[0].key == key then multiset{s[0].value} else multiset{})
  }

  ghost function KeysOf(s: seq<KeyValue>): set<string> {
    set i | 0 <= i < |s| :: s[i].key
  }

  lemma {:induction false} ValuesCounted(s: seq<KeyValue>, key: string, value: string)
    ensures ValuesOf(s, key)[value] == multiset(s)[KeyValue(key, value)]
  {
    if s != [] {
      ValuesCounted(s[1..], key, value);
      assert s == [s[0]] + s[1..];
    }
  }

  /** Neither the keys nor the values of a key depend on the order of the pairs. */
  lemma OrderIsIrrelevant(s: seq<KeyValue>, t: seq<KeyValue>, key: string)
    requires multiset(s) == multiset(t)
    ensures ValuesOf(s, key) == ValuesOf(t, key) && KeysOf(s) == KeysOf(t)
  {
    forall value ensures ValuesOf(s, key)[value] == ValuesOf(t, key)[value] {
      ValuesCounted(s, key, value);
      ValuesCounted(t, key, value);
    }
    SameKeys(s, t);
    SameKeys(t, s);
  }

  lemma SameKeys(s: seq<KeyValue>, t: seq<KeyValue>)
    requires multiset(s) == multiset(t)
    ensures KeysOf(s) <= KeysOf(t)
  {
    forall k | k in KeysOf(s) ensures k in KeysOf(t) {
      var i :| 0 <= i < |s| && s[i].key == k;
      assert s[i] in multiset(s);
      assert s[i] in t;
    }
  }

  lemma ValuesOfAppend(s: seq<KeyValue>, t: seq<KeyValue>, key: string)
    ensures ValuesOf(s + t, key) == ValuesOf(s, key) + ValuesOf(t, key)
  {
    forall value ensures ValuesOf(s + t, key)[value] == ValuesOf(s, key)[value] + ValuesOf(t, key)[value] {
      ValuesCounted(s, key, value);
      ValuesCounted(t, key, value);
      ValuesCounted(s + t, key, value);
    }
  }

  lemma {:induction false} ValuesOfRun(s: seq<KeyValue>, key: string)
    requires forall i | 0 <= i < |s| :: s[i].key == key
    ensures ValuesOf(s, key) == multiset(ValuesIn(s))
    ensures forall other | other != key :: ValuesOf(s, other) == multiset{}
  {
    if s != [] {
      ValuesOfRun(s[1..], key);
      assert ValuesIn(s) == [s[0].value] + ValuesIn(s[1..]);
    }
  }

  lemma {:induction false} NoValues(s: seq<KeyValue>, key: string)
    requires key !in KeysOf(s)
    ensures ValuesOf(s, key) == multiset{}
  {
    if s != [] {
      assert s[0].key in KeysOf(s);
      forall k | k in KeysOf(s[1..]) ensures k in KeysOf(s) {
        var i :| 0 <= i < |s[1..]| && s[1..][i].key == k;
        assert s[i + 1].key == k;
      }
      NoValues(s[1..], key);
    }
  }

  /** In a sorted sequence the key of the first run does not come again after it. */
  lemma FirstRunIsAll(s: seq<KeyValue>)
    requires s != [] && IsSorted(s)
    ensures var j := RunLength(s, s[0].key); IsSorted(s[j..]) && s[0].key !in KeysOf(s[j..])
  {
    var j := RunLength(s, s[0].key);
    forall i | j <= i < |s| ensures s[i].key != s[0].key {
      LessIsTotal(s[0].key, s[j].key);
      LessIsTotal(s[j].key, s[i].key);
      assert j < i ==> !Less(s[i].key, s[j].key);
    }
  }

  ghost predicate GroupOk(g: Group, s: seq<KeyValue>) {
    g.key in KeysOf(s) && multiset(g.values) == ValuesOf(s, g.key)
  }

  ghost predicate Distinct(groups: seq<Group>) {
    forall g, h | 0 <= g < h < |groups| :: groups[g].key != groups[h].key
  }

  ghost predicate Has(groups: seq<Group>, key: string) {
    exists g :: 0 <= g < |groups| && groups[g].key == key
  }

  /** The calls are right for s: one for each key of s, with all that key's values. */
  ghost predicate GroupsOk(groups: seq<Group>, s: seq<KeyValue>) {
    && (forall g | 0 <= g < |groups| :: GroupOk(groups[g], s))
    && Distinct(groups)
    && (forall k | k in KeysOf(s) :: Has(groups, k))
  }

  /** Grouping a sorted sequence calls reducef exactly once for each distinct key, with all its values. */
  lemma {:induction false} GroupingIsExact(s: seq<KeyValue>)
    requires IsSorted(s)
    ensures GroupsOk(Groups(s), s)
    decreases |s|
  {
    if s != [] {
      var j := RunLength(s, s[0].key);
      FirstRunIsAll(s);
      GroupingIsExact(s[j..]);
      ConsGroupOk(s, j);
    }
  }

  lemma ConsGroupOk(s: seq<KeyValue>, j: nat)
    requires s != [] && j == RunLength(s, s[0].key) && s[0].key !in KeysOf(s[j..])
    requires GroupsOk(Groups(s[j..]), s[j..])
    ensures GroupsOk(Groups(s), s)
  {
    var rest, first := Groups(s[j..]), Group(s[0].key, ValuesIn(s[..j]));
    KeysAfter(s, j);
    ConsValues(s, j, s[0].key);
    forall g | 0 <= g < |rest| ensures GroupOk(rest[g], s) && rest[g].key != first.key {
      assert GroupOk(rest[g], s[j..]);
      ConsValues(s, j, rest[g].key);
    }
    ConsRight(first, rest, s, s[j..]);
  }

  lemma ConsRight(first: Group, rest: seq<Group>, s: seq<KeyValue>, tail: seq<KeyValue>)
    requires GroupOk(first, s) && KeysOf(s) == {first.key} + KeysOf(tail)
    requires forall g | 0 <= g < |rest| :: GroupOk(rest[g], s) && rest[g].key != first.key
    requires Distinct(rest) && forall k | k in KeysOf(tail) :: Has(rest, k)
    ensures GroupsOk([first] + rest, s)
  {
    forall k | k in KeysOf(s) ensures Has([first] + rest, k) {
      HasCons(first, rest, k);
    }
  }

  lemma HasCons(first: Group, rest: seq<Group>, key: string)
    requires first.key == key || Has(rest, key)
    ensures Has([first] + rest, key)
  {
    if first.key == key {
      assert ([first] + rest)[0].key == key;
    } else {
      var g :| 0 <= g < |rest| && rest[g].key == key;
      assert ([first] + rest)[g + 1].key == key;
    }
  }

  lemma ConsValues(s: seq<KeyValue>, j: nat, key: string)
    requires s != [] && j == RunLength(s, s[0].key) && s[0].key !in KeysOf(s[j..])
    ensures ValuesOf(s, key) == if key == s[0].key then multiset(ValuesIn(s[..j])) else ValuesOf(s[j..], key)
  {
    assert s == s[..j] + s[j..];
    ValuesOfRun(s[..j], s[0].key);
    NoValues(s[j..], s[0].key);
    ValuesOfAppend(s[..j], s[j..], key);
  }

  lemma KeysAfter(s: seq<KeyValue>, j: nat)
    requires s != [] && 0 < j <= |s| && forall i | 0 <= i < j :: s[i].key == s[0].key
    ensures KeysOf(s) == {s[0].key} + KeysOf(s[j..])
  {
    forall k | k in KeysOf(s) ensures k in {s[0].key} + KeysOf(s[j..]) {
      var i :| 0 <= i < |s| && s[i].key == k;
      if i >= j {
        assert s[j..][i - j].key == k;
      }
    }
    forall k | k in KeysOf(s[j..]) ensures k in KeysOf(s) {
      var i :| 0 <= i < |s[j..]| && s[j..][i].key == k;
      assert s[i + j].key == k;
    }
  }

  // ---------------------------------------------------------------- buckets

  function Bucket(kv: KeyValue, hash: Hash, n: nat): nat
    requires n > 0
  {
    hash(kv.key) % n
  }

  /** The pairs that belong to bucket b, in order. */
  function Chosen(kva: seq<KeyValue>, hash: Hash, n: nat, b: nat): seq<KeyValue>
    requires n > 0
  {
    if kva == [] then []
    else
      var last := kva[|kva| - 1];
      Chosen(kva[..|kva| - 1], hash, n, b) + (if Bucket(last, hash, n) == b then [last] else [])
  }

  lemma {:induction false} ChosenAppend(s: seq<KeyValue>, t: seq<KeyValue>, hash: Hash, n: nat, b: nat)
    requires n > 0
    ensures Chosen(s + t, hash, n, b) == Chosen(s, hash, n, b) + Chosen(t, hash, n, b)
  {
    if t == [] {
      assert s + t == s;
    } else {
      ChosenAppend(s, t[..|t| - 1], hash, n, b);
      assert (s + t)[..|s + t| - 1] == s + t[..|t| - 1];
    }
  }

  lemma ValuesOfLast(s: seq<KeyValue>, last: KeyValue, key: string)
    ensures ValuesOf(s + [last], key) ==
              ValuesOf(s, key) + (if last.key == key then multiset{last.value} else multiset{})
  {
    ValuesOfAppend(s, [last], key);
    assert [last][1..] == [];
  }

  /** A key's values are all in the bucket its hash chooses. */
  lemma {:induction false} BucketHasAll(kva: seq<KeyValue>, hash: Hash, n: nat, b: nat, key: string)
    requires n > 0
    ensures ValuesOf(Chosen(kva, hash, n, b), key) == if hash(key) % n == b then ValuesOf(kva, key) else multiset{}
    ensures key in KeysOf(Chosen(kva, hash, n, b)) <==> key in KeysOf(kva) && hash(key) % n == b
  {
    if kva != [] {
      var init, last := kva[..|kva| - 1], kva[|kva| - 1];
      BucketHasAll(init, hash, n, b, key);
      assert kva == init + [last];
      ValuesOfLast(init, last, key);
      KeysOfLast(init, last);
      if Bucket(last, hash, n) == b {
        assert Chosen(kva, hash, n, b) == Chosen(init, hash, n, b) + [last];
        ValuesOfLast(Chosen(init, hash, n, b), last, key);
        KeysOfLast(Chosen(init, hash, n, b), last);
      } else {
        assert Chosen(kva, hash, n, b) == Chosen(init, hash, n, b);
      }
      assert key == last.key ==> hash(key) == hash(last.key);
    }
  }

  lemma KeysOfLast(s: seq<KeyValue>, last: KeyValue)
    ensures KeysOf(s + [last]) == KeysOf(s) + {last.key}
  {
    forall k | k in KeysOf(s) + {last.key} ensures k in KeysOf(s + [last]) {
      if k in KeysOf(s) {
        var i :| 0 <= i < |s| && s[i].key == k;
        assert (s + [last])[i].key == k;
      } else {
        assert (s + [last])[|s|].key == k;
      }
    }
  }

  // ---------------------------------------------------------------- all buckets together

  /** Bucket b's calls of reducef, for each bucket below n. */
  ghost predicate BucketsOk(groups: seq<seq<Group>>, kva: seq<KeyValue>, hash: Hash) {
    && |groups| > 0
    && forall b: nat {:trigger Chosen(kva, hash, |groups|, b)} | b < |groups| ::
         GroupsOk(groups[b], Chosen(kva, hash, |groups|, b))
  }

  function Concat<T>(parts: seq<seq<T>>): seq<T> {
    if parts == [] then [] else Concat(parts[..|parts| - 1]) + parts[|parts| - 1]
  }

  lemma {:induction false} InConcat<T>(parts: seq<seq<T>>, i: nat) returns (b: nat, g: nat)
    requires i < |Concat(parts)|
    ensures b < |parts| && g < |parts[b]| && Concat(parts)[i] == parts[b][g]
    ensures i == |Concat(parts[..b])| + g
  {
    var init := parts[..|parts| - 1];
    if i < |Concat(init)| {
      b, g := InConcat(init, i);
      assert init[..b] == parts[..b];
    } else {
      b, g := |parts| - 1, i - |Concat(init)|;
    }
  }

  lemma {:induction false} ConcatHas<T>(parts: seq<seq<T>>, b: nat, g: nat) returns (i: nat)
    requires b < |parts| && g < |parts[b]|
    ensures i < |Concat(parts)| && Concat(parts)[i] == parts[b][g]
  {
    if b == |parts| - 1 {
      i := |Concat(parts[..|parts| - 1])| + g;
    } else {
      i := ConcatHas(parts[..|parts| - 1], b, g);
    }
  }

  /** The distributed dataflow makes the calls the single sorted pass makes: over all buckets, one for
      each distinct key, with the same multiset of values. */
  lemma DistributedGroupsOk(groups: seq<seq<Group>>, kva: seq<KeyValue>, hash: Hash)
    requires BucketsOk(groups, kva, hash)
    ensures GroupsOk(Concat(groups), kva)
  {
    var all, n := Concat(groups), |groups|;
    forall i | 0 <= i < |all| ensures GroupOk(all[i], kva) {
      var b, g := InConcat(groups, i);
      InItsBucket(groups, kva, hash, b, g);
    }
    forall i, j | 0 <= i < j < |all| ensures all[i].key != all[j].key {
      var b, g := InConcat(groups, i);
      var c, h := InConcat(groups, j);
      InItsBucket(groups, kva, hash, b, g);
      InItsBucket(groups, kva, hash, c, h);
    }
    forall k | k in KeysOf(kva) ensures Has(all, k) {
      var b := hash(k) % n;
      BucketHasAll(kva, hash, n, b, k);
      assert Has(groups[b], k);
      var g :| 0 <= g < |groups[b]| && groups[b][g].key == k;
      var i := ConcatHas(groups, b, g);
    }
  }

  lemma InItsBucket(groups: seq<seq<Group>>, kva: seq<KeyValue>, hash: Hash, b: nat, g: nat)
    requires BucketsOk(groups, kva, hash) && b < |groups| && g < |groups[b]|
    ensures GroupOk(groups[b][g], kva) && hash(groups[b][g].key) % |groups| == b && Distinct(groups[b])
  {
    assert GroupsOk(groups[b], Chosen(kva, hash, |groups|, b));
    assert GroupOk(groups[b][g], Chosen(kva, hash, |groups|, b));
    BucketHasAll(kva, hash, |groups|, b, groups[b][g].key);
  }

  // ---------------------------------------------------------------- equal output

  /** The sequential program and the workers need not present values in the same order. */
  ghost predicate OrderFree(reducef: Reducef) {
    forall key, v, w {:trigger reducef(key, v), reducef(key, w)} ::
      multiset(v) == multiset(w) ==> reducef(key, v) == reducef(key, w)
  }

  function Without<T>(s: seq<T>, i: nat): seq<T>
    requires i < |s|
  {
    s[..i] + s[i + 1..]
  }

  lemma WithoutIsLess<T>(s: seq<T>, i: nat)
    requires i < |s|
    ensures multiset(s) == multiset(Without(s, i)) + multiset{s[i]}
  {
    assert s == s[..i] + ([s[i]] + s[i + 1..]);
  }

  lemma GroupsWithout(groups: seq<Group>, i: nat, reducef: Reducef)
    requires i < |groups|
    ensures Lines(Without(groups, i), reducef) == Without(Lines(groups, reducef), i)
  {
  }

  ghost predicate SameCall(g: Group, h: Group) {
    g.key == h.key && multiset(g.values) == multiset(h.values)
  }

  /** Every call in a is made in b, too. */
  ghost predicate Covers(b: seq<Group>, a: seq<Group>) {
    forall g | g in a :: exists h :: h in b && SameCall(g, h)
  }

  /** Two lists of calls that are right for the same pairs print the same lines. */
  lemma SameLines(a: seq<Group>, b: seq<Group>, s: seq<KeyValue>, reducef: Reducef)
    requires GroupsOk(a, s) && GroupsOk(b, s) && OrderFree(reducef)
    ensures multiset(Lines(a, reducef)) == multiset(Lines(b, reducef))
  {
    RightOnesCover(a, b, s);
    RightOnesCover(b, a, s);
    MatchedLines(a, b, reducef);
  }

  lemma RightOnesCover(a: seq<Group>, b: seq<Group>, s: seq<KeyValue>)
    requires GroupsOk(a, s) && GroupsOk(b, s)
    ensures Covers(b, a)
  {
    forall g | g in a ensures exists h :: h in b && SameCall(g, h) {
      assert GroupOk(g, s) && Has(b, g.key);
      var j :| 0 <= j < |b| && b[j].key == g.key;
      assert GroupOk(b[j], s);
      assert b[j] in b && SameCall(g, b[j]);
    }
  }

  lemma FirstIsIn(groups: seq<Group>)
    ensures groups != [] ==> groups[0] in groups
  {
  }

  lemma {:induction false} MatchedLines(a: seq<Group>, b: seq<Group>, reducef: Reducef)
    requires Distinct(a) && Distinct(b) && Covers(a, b) && Covers(b, a) && OrderFree(reducef)
    ensures multiset(Lines(a, reducef)) == multiset(Lines(b, reducef))
    decreases |a|
  {
    FirstIsIn(b);
    if a != [] {
      FirstIsIn(a);
      var h :| h in b && SameCall(a[0], h);
      var j :| 0 <= j < |b| && b[j] == h;
      WithoutCovers(a, b, 0, j);
      WithoutCovers(b, a, j, 0);
      MatchedLines(Without(a, 0), Without(b, j), reducef);
      GroupsWithout(a, 0, reducef);
      GroupsWithout(b, j, reducef);
      WithoutIsLess(Lines(a, reducef), 0);
      WithoutIsLess(Lines(b, reducef), j);
      assert Line(a[0], reducef) == Line(b[j], reducef);
    }
  }

  lemma InWithout(groups: seq<Group>, i: nat, g: Group)
    requires i < |groups| && Distinct(groups)
    ensures Distinct(Without(groups, i))
    ensures g in Without(groups, i) <==> g in groups && g.key != groups[i].key
  {
    var rest := Without(groups, i);
    if g in groups && g.key != groups[i].key {
      var k :| 0 <= k < |groups| && groups[k] == g;
      assert rest[if k < i then k else k - 1] == g;
    }
    if g in rest {
      var k :| 0 <= k < |rest| && rest[k] == g;
      assert groups[if k < i then k else k + 1] == g;
    }
  }

  lemma WithoutCovers(a: seq<Group>, b: seq<Group>, i: nat, j: nat)
    requires Distinct(a) && Distinct(b) && Covers(b, a) && i < |a| && j < |b| && a[i].key == b[j].key
    ensures Covers(Without(b, j), Without(a, i)) && Distinct(Without(a, i))
  {
    InWithout(a, i, a[i]);
    forall g | g in Without(a, i) ensures exists h :: h in Without(b, j) && SameCall(g, h) {
      InWithout(a, i, g);
      var h :| h in b && SameCall(g, h);
      InWithout(b, j, h);
    }
  }

  // ---------------------------------------------------------------- the programs

  /** What some sorting of the pairs makes the group loop print. */
  ghost predicate Prints(lines: seq<string>, kva: seq<KeyValue>, reducef: Reducef) {
    exists sorted :: SortOf(sorted, kva) && lines == Lines(Groups(sorted), reducef)
  }

  /** Bucket by bucket, the workers print the lines the sequential program prints. */
  lemma DistributedEqualsSequential(outs: seq<seq<string>>, lines: seq<string>, kva: seq<KeyValue>,
                                    hash: Hash, reducef: Reducef)
    requires |outs| > 0 && OrderFree(reducef)
    requires forall b: nat {:trigger outs[b]} | b < |outs| :: Prints(outs[b], Chosen(kva, hash, |outs|, b), reducef)
    requires Prints(lines, kva, reducef)
    ensures multiset(Concat(outs)) == multiset(lines)
  {
    var groups := CallsOf(outs, kva, hash, reducef);
    DistributedGroupsOk(groups, kva, hash);
    ConcatLines(groups, outs, reducef);
    var single := CallsBehind(lines, kva, reducef);
    SameLines(Concat(groups), single, kva, reducef);
  }

  /** The calls of reducef behind each output file. */
  lemma CallsOf(outs: seq<seq<string>>, kva: seq<KeyValue>, hash: Hash, reducef: Reducef)
    returns (groups: seq<seq<Group>>)
    requires |outs| > 0
    requires forall b: nat {:trigger outs[b]} | b < |outs| :: Prints(outs[b], Chosen(kva, hash, |outs|, b), reducef)
    ensures |groups| == |outs| && BucketsOk(groups, kva, hash)
    ensures forall b: nat {:trigger outs[b]} | b < |outs| :: outs[b] == Lines(groups[b], reducef)
  {
    groups := [];
    var n := |outs|;
    for i := 0 to n
      invariant |groups| == i
      invariant forall b: nat {:trigger outs[b]} {:trigger groups[b]} | b < i ::
                  outs[b] == Lines(groups[b], reducef) && GroupsOk(groups[b], Chosen(kva, hash, n, b))
    {
      var calls := CallsBehind(outs[i], Chosen(kva, hash, n, i), reducef);
      groups := groups + [calls];
    }
  }

  lemma CallsBehind(lines: seq<string>, kva: seq<KeyValue>, reducef: Reducef) returns (groups: seq<Group>)
    requires Prints(lines, kva, reducef)
    ensures lines == Lines(groups, reducef) && GroupsOk(groups, kva)
  {
    var sorted :| SortOf(sorted, kva) && lines == Lines(Groups(sorted), reducef);
    SortedGroupsOk(sorted, kva);
    groups := Groups(sorted);
  }

  lemma SortedGroupsOk(sorted: seq<KeyValue>, kva: seq<KeyValue>)
    requires SortOf(sorted, kva)
    ensures GroupsOk(Groups(sorted), kva)
  {
    GroupingIsExact(sorted);
    OrderIsIrrelevant(sorted, kva, "");
    forall g | 0 <= g < |Groups(sorted)| ensures GroupOk(Groups(sorted)[g], kva) {
      assert GroupOk(Groups(sorted)[g], sorted);
      OrderIsIrrelevant(sorted, kva, Groups(sorted)[g].key);
    }
  }

  lemma {:induction false} ConcatLines(groups: seq<seq<Group>>, outs: seq<seq<string>>, reducef: Reducef)
    requires |outs| == |groups| && forall b: nat {:trigger outs[b]} | b < |outs| :: outs[b] == Lines(groups[b], reducef)
    ensures Concat(outs) == Lines(Concat(groups), reducef)
  {
    if groups != [] {
      var n := |groups| - 1;
      ConcatLines(groups[..n], outs[..n], reducef);
    }
  }

  /** The i/j/k loop of both programs. */
  method PrintGroups(intermediate: seq<KeyValue>, reducef: Reducef) returns (lines: seq<string>)
    ensures lines == Lines(Groups(intermediate), reducef)
  {
    lines := [];
    var i := 0;
    assert intermediate[0..] == intermediate;
    while i < |intermediate|
      invariant 0 <= i <= |intermediate|
      invariant lines + LinesFrom(intermediate, i, reducef) == LinesFrom(intermediate, 0, reducef)
    {
      var j := i + 1;
      while j < |intermediate| && intermediate[j].key == intermediate[i].key
        invariant i < j <= |intermediate|
        invariant forall m | i <= m < j :: intermediate[m].key == intermediate[i].key
      {
        j := j + 1;
      }
      var values: seq<string> := [];
      for k := i to j
        invariant |values| == k - i && forall m | i <= m < k :: values[m - i] == intermediate[m].value
      {
        values := values + [intermediate[k].value];
      }
      var output := reducef(intermediate[i].key, values);
      var line := intermediate[i].key + " " + output + "\n";
      FirstGroupAt(intermediate, i, j, values, reducef);
      ThenRest(lines, line, LinesFrom(intermediate, j, reducef));
      lines := lines + [line];
      i := j;
    }
  }

  ghost function LinesFrom(s: seq<KeyValue>, i: nat, reducef: Reducef): seq<string>
    requires i <= |s|
  {
    Lines(Groups(s[i..]), reducef)
  }

  lemma ThenRest<T>(a: seq<T>, x: T, b: seq<T>)
    ensures a + ([x] + b) == (a + [x]) + b
  {
  }

  lemma FirstGroupAt(s: seq<KeyValue>, i: nat, j: nat, values: seq<string>, reducef: Reducef)
    requires i < j <= |s| && (forall m | i <= m < j :: s[m].key == s[i].key) && (j < |s| ==> s[j].key != s[i].key)
    requires |values| == j - i && forall m | i <= m < j :: values[m - i] == s[m].value
    ensures LinesFrom(s, i, reducef) == [s[i].key + " " + reducef(s[i].key, values) + "\n"] + LinesFrom(s, j, reducef)
  {
    RunAt(s, i, j);
    assert values == ValuesIn(s[i..][..j - i]) && s[i..][j - i..] == s[j..];
    LinesCons(Group(s[i].key, values), Groups(s[j..]), reducef);
  }

  lemma RunAt(s: seq<KeyValue>, i: nat, j: nat)
    requires i < j <= |s| && (forall m | i <= m < j :: s[m].key == s[i].key) && (j < |s| ==> s[j].key != s[i].key)
    ensures RunLength(s[i..], s[i].key) == j - i
  {
    RunIs(s[i..], s[i].key, j - i);
  }

  lemma {:induction false} RunIs(s: seq<KeyValue>, key: string, j: nat)
    requires j <= |s| && (forall i | 0 <= i < j :: s[i].key == key) && (j < |s| ==> s[j].key != key)
    ensures RunLength(s, key) == j
  {
    if j > 0 {
      RunIs(s[1..], key, j - 1);
    }
  }

  lemma LinesCons(g: Group, rest: seq<Group>, reducef: Reducef)
    ensures Lines([g] + rest, reducef) == [Line(g, reducef)] + Lines(rest, reducef)
  {
  }

  /** doMap's loop: each pair is appended to the temporary file its hash chooses. */
  method PartitionPairs(kva: seq<KeyValue>, hash: Hash, nReduce: nat) returns (temps: array<seq<KeyValue>>)
    requires nReduce > 0
    ensures fresh(temps) && temps.Length == nReduce
    ensures forall b | 0 <= b < nReduce :: temps[b] == Chosen(kva, hash, nReduce, b)
  {
    temps := new seq<KeyValue>[nReduce](_ => []);
    for i := 0 to |kva|
      invariant forall b | 0 <= b < nReduce :: temps[b] == Chosen(kva[..i], hash, nReduce, b)
    {
      assert kva[..i + 1][..i] == kva[..i];
      var bucket := hash(kva[i].key) % nReduce;
      temps[bucket] := temps[bucket] + [kva[i]];
    }
    assert kva[..|kva|] == kva;
  }

  /** The intermediate files; a name is a pair (map task, bucket). */
  type Files = map<(nat, nat), seq<KeyValue>>

  function Read(files: Files, name: (nat, nat)): seq<KeyValue> {
    if name in files then files[name] else []
  }

  function GatheredFrom(files: Files, nMap: nat, task: nat): seq<KeyValue> {
    if nMap == 0 then [] else GatheredFrom(files, nMap - 1, task) + Read(files, (nMap - 1, task))
  }

  type Sorter = seq<KeyValue> -> seq<KeyValue>

  ghost predicate Sorts(sorter: Sorter) {
    forall s :: SortOf(sorter(s), s)
  }

  /** The sorts below are not asked for in vain. */
  lemma SomeSorterSorts() returns (sorter: Sorter)
    ensures Sorts(sorter)
  {
    sorter := s => SortBy(s, (kv: KeyValue) => kv.key);
    forall s ensures SortOf(sorter(s), s) {
      assert SortedBy(sorter(s), (kv: KeyValue) => kv.key);
    }
  }

  /** doReduce up to its rename: gather the bucket, skipping files that cannot be opened, sort, group. */
  method DoReduce(files: Files, nMap: nat, task: nat, sorter: Sorter, reducef: Reducef) returns (lines: seq<string>)
    requires Sorts(sorter)
    ensures Prints(lines, GatheredFrom(files, nMap, task), reducef)
  {
    var intermediate: seq<KeyValue> := [];
    for i := 0 to nMap
      invariant intermediate == GatheredFrom(files, i, task)
    {
      if (i, task) in files {
        intermediate := intermediate + files[(i, task)];
      }
    }
    var sorted := sorter(intermediate);
    lines := PrintGroups(sorted, reducef);
    assert SortOf(sorted, intermediate);
  }

  /** All pairs the map function gives for the first n inputs. */
  function Mapped(inputs: seq<string>, contents: map<string, string>, mapf: Mapf, n: nat): seq<KeyValue>
    requires n <= |inputs| && forall i | 0 <= i < n :: inputs[i] in contents
  {
    if n == 0 then [] else Mapped(inputs, contents, mapf, n - 1) + mapf(inputs[n - 1], contents[inputs[n - 1]])
  }

  /** mrsequential's main; None when an input cannot be opened. */
  method Sequential(inputs: seq<string>, contents: map<string, string>, mapf: Mapf, reducef: Reducef, sorter: Sorter)
    returns (output: Option<seq<string>>)
    requires Sorts(sorter)
    ensures output.Some? <==> forall i | 0 <= i < |inputs| :: inputs[i] in contents
    ensures output.Some? ==> Prints(output.value, Mapped(inputs, contents, mapf, |inputs|), reducef)
  {
    var intermediate: seq<KeyValue> := [];
    for n := 0 to |inputs|
      invariant forall i | 0 <= i < n :: inputs[i] in contents
      invariant intermediate == Mapped(inputs, contents, mapf, n)
    {
      if inputs[n] !in contents {
        return None;
      }
      var kva := mapf(inputs[n], contents[inputs[n]]);
      intermediate := intermediate + kva;
    }
    var sorted := sorter(intermediate);
    var lines := PrintGroups(sorted, reducef);
    assert SortOf(sorted, intermediate);
    output := Some(lines);
  }
}
