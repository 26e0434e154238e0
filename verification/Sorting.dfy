/** Go's sorts of a slice of integers and of a slice with string keys. */
module Sorting {

  ghost predicate Ascending(s: seq<int>) {
    forall i, j | 0 <= i <= j < |s| :: s[i] <= s[j]
  }

  function Insert(x: int, s: seq<int>): (r: seq<int>)
    requires Ascending(s)
    ensures |r| == |s| + 1
    ensures Ascending(r)
    ensures forall y :: y in r <==> y == x || y in s
  {
    if s == [] || x <= s[0] then [x] + s
    else
      var t := Insert(x, s[1..]);
      assert forall y | y in t :: s[0] <= y by {
        assert forall j | 0 <= j < |s[1..]| :: s[0] <= s[1..][j];
      }
      assert forall j | 0 <= j < |t| :: t[j] in t;
      [s[0]] + t
  }

  /** What sort.Ints and slices.Sort leave in the slice. */
  function SortInts(s: seq<int>): (r: seq<int>)
    ensures |r| == |s|
    ensures Ascending(r)
    ensures forall y :: y in r <==> y in s
  {
    if s == [] then [] else Insert(s[0], SortInts(s[1..]))
  }

  lemma {:induction false} InsertPermutes(x: int, s: seq<int>)
    requires Ascending(s)
    ensures multiset(Insert(x, s)) == multiset{x} + multiset(s)
  {
    if s != [] && x > s[0] {
      InsertPermutes(x, s[1..]);
      assert s == [s[0]] + s[1..];
    }
  }

  lemma {:induction false} SortPermutes(s: seq<int>)
    ensures multiset(SortInts(s)) == multiset(s)
  {
    if s != [] {
      SortPermutes(s[1..]);
      InsertPermutes(s[0], SortInts(s[1..]));
      assert s == [s[0]] + s[1..];
    }
  }

  // ---------------------------------------------------------------- strings

  /** Go's order on strings. */
  predicate Less(a: string, b: string) {
    if b == [] then false
    else if a == [] then true
    else a[0] < b[0] || (a[0] == b[0] && Less(a[1..], b[1..]))
  }

  lemma {:induction false} LessIsTotal(a: string, b: string)
    ensures Less(a, b) || Less(b, a) || a == b
    ensures !(Less(a, b) && Less(b, a)) && (a == b ==> !Less(a, b))
  {
    if a != [] && b != [] && a[0] == b[0] {
      LessIsTotal(a[1..], b[1..]);
      assert a == [a[0]] + a[1..] && b == [b[0]] + b[1..];
    }
  }

  lemma {:induction false} LessIsTransitive(a: string, b: string, c: string)
    requires !Less(b, a) && !Less(c, b)
    ensures !Less(c, a)
  {
    if a != [] && b != [] && c != [] && a[0] == b[0] == c[0] {
      LessIsTransitive(a[1..], b[1..], c[1..]);
    }
  }

  /** No element's key is less than an earlier one's. */
  ghost predicate SortedBy<T>(s: seq<T>, key: T -> string) {
    forall i, j | 0 <= i < j < |s| :: !Less(key(s[j]), key(s[i]))
  }

  function InsertBy<T>(x: T, s: seq<T>, key: T -> string): (r: seq<T>)
    requires SortedBy(s, key)
    ensures SortedBy(r, key) && multiset(r) == multiset{x} + multiset(s)
  {
    if s == [] || !Less(key(s[0]), key(x)) then
      FirstIsLeast(x, s, key);
      [x] + s
    else
      var t := InsertBy(x, s[1..], key);
      StillLeast(x, s, t, key);
      assert s == [s[0]] + s[1..];
      [s[0]] + t
  }

  lemma FirstIsLeast<T>(x: T, s: seq<T>, key: T -> string)
    requires SortedBy(s, key) && (s == [] || !Less(key(s[0]), key(x)))
    ensures SortedBy([x] + s, key)
  {
    forall i | 0 <= i < |s| ensures !Less(key(s[i]), key(x)) {
      LessIsTotal(key(s[0]), key(s[0]));
      LessIsTransitive(key(x), key(s[0]), key(s[i]));
    }
  }

  lemma StillLeast<T>(x: T, s: seq<T>, t: seq<T>, key: T -> string)
    requires s != [] && SortedBy(s, key) && Less(key(s[0]), key(x))
    requires SortedBy(t, key) && multiset(t) == multiset{x} + multiset(s[1..])
    ensures SortedBy([s[0]] + t, key)
  {
    LessIsTotal(key(s[0]), key(x));
    forall i | 0 <= i < |t| ensures !Less(key(t[i]), key(s[0])) {
      assert t[i] in multiset(t);
      if t[i] != x {
        assert t[i] in s[1..];
      }
    }
  }

  /** A sort: every sequence has a sorted permutation. */
  function SortBy<T>(s: seq<T>, key: T -> string): (r: seq<T>)
    ensures SortedBy(r, key) && multiset(r) == multiset(s)
  {
    if s == [] then []
    else
      assert s == [s[0]] + s[1..];
      InsertBy(s[0], SortBy(s[1..], key), key)
  }
}
