/** Quorum arithmetic: the commit rule `sorted[n/2]` against elections won with more than n/2 votes. */
module RaftQuorum {
  import opened Sorting

  /** The candidate commit index of a leader whose peers have matched up to `matches`. */
  function MajorityIndex(matches: seq<nat>): nat
    requires |matches| > 0
  {
    var sorted := SortInts(matches);
    assert sorted[|matches| / 2] in sorted;
    sorted[|matches| / 2]
  }

  ghost function Reached(matches: seq<int>, v: int): set<nat> {
    set q: nat | q < |matches| && matches[q] >= v
  }

  /** Number of elements of `s` that are at least `v`. */
  ghost function CountAtLeast(s: seq<int>, v: int): nat {
    if s == [] then 0 else (if s[0] >= v then 1 else 0) + CountAtLeast(s[1..], v)
  }

  lemma {:induction false} CountInsert(x: int, s: seq<int>, v: int)
    requires Ascending(s)
    ensures CountAtLeast(Insert(x, s), v) == (if x >= v then 1 else 0) + CountAtLeast(s, v)
  {
    if s != [] && x > s[0] {
      CountInsert(x, s[1..], v);
      assert Insert(x, s)[1..] == Insert(x, s[1..]);
    } else {
      assert Insert(x, s)[1..] == s;
    }
  }

  lemma {:induction false} CountSorted(s: seq<int>, v: int)
    ensures CountAtLeast(SortInts(s), v) == CountAtLeast(s, v)
  {
    if s != [] {
      CountSorted(s[1..], v);
      CountInsert(s[0], SortInts(s[1..]), v);
    }
  }

  lemma {:induction false} CountAppend(s: seq<int>, x: int, v: int)
    ensures CountAtLeast(s + [x], v) == CountAtLeast(s, v) + (if x >= v then 1 else 0)
  {
    if s != [] {
      assert (s + [x])[1..] == s[1..] + [x];
      CountAppend(s[1..], x, v);
    }
  }

  lemma {:induction false} CountIsReached(s: seq<int>, v: int)
    ensures |Reached(s, v)| == CountAtLeast(s, v)
  {
    if s == [] {
      assert Reached(s, v) == {};
    } else {
      var k := |s| - 1;
      var t := s[..k];
      assert s == t + [s[k]];
      CountAppend(t, s[k], v);
      CountIsReached(t, v);
      assert Reached(s, v) == Reached(t, v) + (if s[k] >= v then {k} else {});
    }
  }

  predicate Natural(q: nat) { true }

  function Interval(lo: nat, hi: nat): set<nat> {
    set q: nat {:trigger Natural(q)} | Natural(q) && lo <= q < hi
  }

  lemma {:induction false} IntervalSize(lo: nat, hi: nat)
    requires lo <= hi
    ensures |Interval(lo, hi)| == hi - lo
    decreases hi - lo
  {
    if lo < hi {
      IntervalSize(lo, hi - 1);
      assert Interval(lo, hi) == Interval(lo, hi - 1) + {hi - 1};
    } else {
      assert Interval(lo, hi) == {};
    }
  }

  lemma SubsetSize(a: set<nat>, b: set<nat>)
    requires a <= b
    ensures |a| <= |b|
  {
    assert b == a + (b - a);
  }

  /** `sorted[n/2]` is the largest index reached by at least n - n/2 peers, for odd and even n. */
  lemma MajorityIndexIsLargest(matches: seq<nat>)
    requires |matches| > 0
    ensures MajorityIndex(matches) in matches
    ensures |Reached(matches, MajorityIndex(matches))| >= |matches| - |matches| / 2
    ensures forall v: nat | v > MajorityIndex(matches) ::
              |Reached(matches, v)| < |matches| - |matches| / 2
  {
    var n, k := |matches|, |matches| / 2;
    var s := SortInts(matches);
    SortPermutes(matches);
    CountSorted(matches, s[k]);
    CountIsReached(matches, s[k]);
    CountIsReached(s, s[k]);
    IntervalSize(k, n);
    SubsetSize(Interval(k, n), Reached(s, s[k]));
    forall v: nat | v > s[k]
      ensures |Reached(matches, v)| < n - k
    {
      CountSorted(matches, v);
      CountIsReached(matches, v);
      CountIsReached(s, v);
      IntervalSize(k + 1, n);
      SubsetSize(Reached(s, v), Interval(k + 1, n));
    }
  }

  ghost predicate Within(a: set<nat>, n: nat) {
    forall q | q in a :: q < n
  }

  /** Any commit quorum meets any election quorum. */
  lemma QuorumsMeet(n: nat, ackers: set<nat>, voters: set<nat>) returns (q: nat)
    requires Within(ackers, n) && Within(voters, n)
    requires |ackers| >= n - n / 2
    requires |voters| > n / 2
    ensures q in ackers && q in voters
  {
    IntervalSize(0, n);
    assert forall q | q in ackers + voters :: Natural(q);
    SubsetSize(ackers + voters, Interval(0, n));
    assert |ackers + voters| == |ackers| + |voters| - |ackers * voters|;
    q :| q in ackers * voters;
  }

  /** Two elections of one term share a voter. */
  lemma MajoritiesMeet(n: nat, a: set<nat>, b: set<nat>) returns (q: nat)
    requires Within(a, n) && Within(b, n)
    requires |a| > n / 2 && |b| > n / 2
    ensures q in a && q in b
  {
    q := QuorumsMeet(n, a, b);
  }

  function Others(n: nat, me: nat): set<nat> {
    Interval(0, n) - {me}
  }
}
