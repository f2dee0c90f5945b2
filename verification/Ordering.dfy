/** Byte-wise string order and sorting, as Go's `<` and package sort have them. */
module Ordering {

  predicate Less(a: string, b: string) {
    if b == "" then false
    else if a == "" then true
    else if a[0] == b[0] then Less(a[1..], b[1..])
    else a[0] < b[0]
  }

  lemma {:induction false} LessTotal(a: string, b: string)
    ensures Less(a, b) || Less(b, a) || a == b
    ensures !(Less(a, b) && Less(b, a)) && !Less(a, a)
  {
    if a != "" && b != "" {
      LessTotal(a[1..], b[1..]);
      LessTotal(a[1..], a[1..]);
      assert a == [a[0]] + a[1..] && b == [b[0]] + b[1..];
    } else if a != "" {
      LessTotal(a[1..], a[1..]);
    }
  }

  lemma {:induction false} LessTransitive(a: string, b: string, c: string)
    requires Less(a, b) && Less(b, c)
    ensures Less(a, c)
  {
    if a != "" && a[0] == b[0] && b[0] == c[0] {
      LessTransitive(a[1..], b[1..], c[1..]);
    }
  }

  /** The texts agree up to `k`, where the first ends or has the smaller byte. */
  predicate LowerAt(a: string, b: string, k: nat) {
    k <= |a| && k < |b| && (forall j :: 0 <= j < k ==> a[j] == b[j]) && (k == |a| || a[k] < b[k])
  }

  /** Byte by byte, and a text comes before what it begins. */
  lemma {:induction false} LessExactly(a: string, b: string)
    ensures Less(a, b) <==> exists k :: LowerAt(a, b, k)
  {
    if a != "" && b != "" && a[0] == b[0] {
      LessExactly(a[1..], b[1..]);
      if k: nat :| LowerAt(a, b, k) {
        assert k > 0 && LowerAt(a[1..], b[1..], k - 1);
      }
      if k: nat :| LowerAt(a[1..], b[1..], k) {
        LowerShift(a, b, k);
      }
    } else if Less(a, b) {
      assert LowerAt(a, b, 0);
    }
  }

  lemma LowerShift(a: string, b: string, k: nat)
    requires a != "" && b != "" && a[0] == b[0] && LowerAt(a[1..], b[1..], k)
    ensures LowerAt(a, b, k + 1)
  {
    assert forall j :: 0 < j <= k ==> a[j] == a[1..][j - 1] && b[j] == b[1..][j - 1];
    assert k < |a[1..]| ==> a[k + 1] == a[1..][k];
    assert b[k + 1] == b[1..][k];
    forall j | 0 <= j < k + 1 ensures a[j] == b[j] {
      if j > 0 {
        assert a[1..][j - 1] == b[1..][j - 1];
      }
    }
  }

  // ---------- integers ----------

  function InsertInt(x: int, xs: seq<int>): seq<int> {
    if xs == [] || x < xs[0] then [x] + xs else [xs[0]] + InsertInt(x, xs[1..])
  }

  function SortInts(xs: seq<int>): seq<int> {
    if xs == [] then [] else InsertInt(xs[|xs| - 1], SortInts(xs[..|xs| - 1]))
  }

  predicate Ascending(xs: seq<int>) {
    forall i, j :: 0 <= i < j < |xs| ==> xs[i] <= xs[j]
  }

  predicate Increasing(xs: seq<int>) {
    forall i, j :: 0 <= i < j < |xs| ==> xs[i] < xs[j]
  }

  predicate Distinct<T(==)>(xs: seq<T>) {
    forall i, j :: 0 <= i < j < |xs| ==> xs[i] != xs[j]
  }

  function Elements<T>(xs: seq<T>): set<T> {
    set x | x in xs
  }

  lemma {:induction false} InsertIntMembers(x: int, xs: seq<int>)
    ensures multiset(InsertInt(x, xs)) == multiset(xs) + multiset{x}
    ensures forall y :: y in InsertInt(x, xs) ==> y == x || y in xs
  {
    if xs != [] && x >= xs[0] {
      InsertIntMembers(x, xs[1..]);
      assert xs == [xs[0]] + xs[1..];
    }
  }

  lemma {:induction false} InsertIntAscending(x: int, xs: seq<int>)
    requires Ascending(xs)
    ensures Ascending(InsertInt(x, xs))
  {
    if xs != [] && x >= xs[0] {
      InsertIntAscending(x, xs[1..]);
      InsertIntMembers(x, xs[1..]);
      var t := InsertInt(x, xs[1..]);
      assert forall y :: y in t ==> xs[0] <= y;
      assert forall j :: 0 <= j < |t| ==> t[j] in t;
    }
  }

  lemma {:induction false} SortIntsFacts(xs: seq<int>)
    ensures Ascending(SortInts(xs)) && multiset(SortInts(xs)) == multiset(xs)
  {
    if xs != [] {
      SortIntsFacts(xs[..|xs| - 1]);
      InsertIntAscending(xs[|xs| - 1], SortInts(xs[..|xs| - 1]));
      InsertIntMembers(xs[|xs| - 1], SortInts(xs[..|xs| - 1]));
      assert xs == xs[..|xs| - 1] + [xs[|xs| - 1]];
    }
  }

  lemma {:induction false} DistinctByCount<T>(xs: seq<T>)
    ensures Distinct(xs) <==> forall x :: multiset(xs)[x] <= 1
  {
    if xs != [] {
      var n := |xs| - 1;
      DistinctByCount(xs[..n]);
      assert xs == xs[..n] + [xs[n]];
      if Distinct(xs) {
        assert xs[n] !in xs[..n];
        assert multiset(xs[..n])[xs[n]] == 0;
      } else if Distinct(xs[..n]) {
        assert xs[n] in xs[..n];
        assert multiset(xs)[xs[n]] >= 2;
      } else {
        var x :| multiset(xs[..n])[x] > 1;
        assert multiset(xs)[x] > 1;
      }
    }
  }

  lemma {:induction false} SortIntsDistinct(xs: seq<int>)
    requires Distinct(xs)
    ensures Distinct(SortInts(xs)) && Increasing(SortInts(xs)) && Elements(SortInts(xs)) == Elements(xs)
  {
    SortIntsFacts(xs);
    DistinctByCount(xs);
    DistinctByCount(SortInts(xs));
    assert forall x :: x in SortInts(xs) <==> x in multiset(SortInts(xs));
    assert forall x :: x in xs <==> x in multiset(xs);
  }

  lemma ElementsSnoc<T>(xs: seq<T>, x: T)
    ensures Elements(xs + [x]) == Elements(xs) + {x}
  {
  }

  /** Go's map iteration gives some key. */
  method AnyOf<T>(s: set<T>) returns (x: T)
    requires s != {}
    ensures x in s
  {
    x :| x in s;
  }

  /** The keys of a Go map, sorted. */
  method SortedElements(s: set<int>) returns (xs: seq<int>)
    ensures Increasing(xs) && Elements(xs) == s
  {
    var keys: seq<int> := [];
    var rest := s;
    while rest != {}
      invariant rest <= s && Distinct(keys)
      invariant Elements(keys) == s - rest
      decreases rest
    {
      var x := AnyOf(rest);
      assert x !in Elements(keys);
      ElementsSnoc(keys, x);
      keys := keys + [x];
      rest := rest - {x};
    }
    xs := SortInts(keys);
    SortIntsDistinct(keys);
  }
}
