/** Sorting, as Python's `sorted` does it: strings by code point, pairs by their first and
    then their second string. */
module Ordering {

  ghost predicate TotalOrder<T(!new)>(leq: (T, T) -> bool) {
    && (forall x, y :: leq(x, y) || leq(y, x))
    && (forall x, y :: leq(x, y) && leq(y, x) ==> x == y)
    && (forall x, y, z :: leq(x, y) && leq(y, z) ==> leq(x, z))
  }

  /** Strictly increasing, so in particular without repeats. */
  ghost predicate Ascending<T>(leq: (T, T) -> bool, r: seq<T>) {
    forall i, j :: 0 <= i < j < |r| ==> leq(r[i], r[j]) && r[i] != r[j]
  }

  predicate IsLeast<T(!new)>(leq: (T, T) -> bool, s: set<T>, x: T) {
    x in s && forall y <- s :: leq(x, y)
  }

  lemma LeastOneMore<T(!new)>(leq: (T, T) -> bool, s: set<T>, z: T, x: T)
    requires TotalOrder(leq) && IsLeast(leq, s, z)
    ensures IsLeast(leq, s + {x}, if leq(x, z) then x else z)
  {
    assert leq(x, x) && (leq(x, z) || leq(z, x));
  }

  lemma {:induction false} LeastExists<T(!new)>(leq: (T, T) -> bool, s: set<T>)
    requires TotalOrder(leq) && s != {}
    ensures exists x :: IsLeast(leq, s, x)
  {
    var x :| x in s;
    if s == {x} {
      assert leq(x, x);
      assert IsLeast(leq, s, x);
    } else {
      LeastExists(leq, s - {x});
      var z :| IsLeast(leq, s - {x}, z);
      LeastOneMore(leq, s - {x}, z, x);
      assert s - {x} + {x} == s;
    }
  }

  /** The elements of s in increasing order. */
  function Sorted<T(!new)>(leq: (T, T) -> bool, s: set<T>): (r: seq<T>)
    requires TotalOrder(leq)
    ensures forall x :: x in r <==> x in s
    ensures Ascending(leq, r)
  {
    if s == {} then []
    else
      LeastExists(leq, s);
      var x :| IsLeast(leq, s, x);
      [x] + Sorted(leq, s - {x})
  }

  lemma NonEmpty<T>(q: seq<T>)
    ensures q == [] || exists x :: x in q
  {
    if q != [] { assert q[0] in q; }
  }

  /** An increasing sequence is determined by its elements. */
  lemma {:induction false} AscendingUnique<T(!new)>(leq: (T, T) -> bool, r: seq<T>, q: seq<T>)
    requires TotalOrder(leq) && Ascending(leq, r) && Ascending(leq, q)
    requires forall x :: x in r <==> x in q
    ensures r == q
  {
    if r == [] {
      NonEmpty(q);
    } else {
      assert r[0] in q && q != [];
      assert q[0] in r;
      var i :| 0 <= i < |q| && q[i] == r[0];
      var j :| 0 <= j < |r| && r[j] == q[0];
      assert r[0] == q[0];
      forall x ensures x in r[1..] <==> x in q[1..] {
        if x in r[1..] { assert x in r && x != r[0]; }
        if x in q[1..] { assert x in q && x != q[0]; }
      }
      AscendingUnique(leq, r[1..], q[1..]);
      assert r == [r[0]] + r[1..] && q == [q[0]] + q[1..];
    }
  }

  lemma {:induction false} AscendingCount<T(!new)>(leq: (T, T) -> bool, s: set<T>)
    requires TotalOrder(leq)
    ensures |Sorted(leq, s)| == |s|
  {
    if s != {} {
      var r := Sorted(leq, s);
      assert s - {r[0]} == (set x | x in r[1..]);
      AscendingUnique(leq, Sorted(leq, s - {r[0]}), r[1..]);
      AscendingCount(leq, s - {r[0]});
    }
  }

  /* ---------- strings ---------- */

  predicate Leq(a: string, b: string) {
    a == "" || (b != "" && (a[0] < b[0] || (a[0] == b[0] && Leq(a[1..], b[1..]))))
  }

  predicate Less(a: string, b: string) { Leq(a, b) && a != b }

  lemma {:induction false} LeqAntisymmetric(a: string, b: string)
    requires Leq(a, b) && Leq(b, a)
    ensures a == b
  {
    if a != "" && b != "" {
      LeqAntisymmetric(a[1..], b[1..]);
      assert a == [a[0]] + a[1..] && b == [b[0]] + b[1..];
    }
  }

  lemma {:induction false} LeqTotal(a: string, b: string)
    ensures Leq(a, b) || Leq(b, a)
  {
    if a != "" && b != "" { LeqTotal(a[1..], b[1..]); }
  }

  lemma {:induction false} LeqTransitive(a: string, b: string, c: string)
    requires Leq(a, b) && Leq(b, c)
    ensures Leq(a, c)
  {
    if a != "" && a[0] == b[0] == c[0] { LeqTransitive(a[1..], b[1..], c[1..]); }
  }

  lemma LeqIsTotalOrder()
    ensures TotalOrder(Leq)
  {
    forall a, b ensures Leq(a, b) || Leq(b, a) { LeqTotal(a, b); }
    forall a, b | Leq(a, b) && Leq(b, a) ensures a == b { LeqAntisymmetric(a, b); }
    forall a, b, c | Leq(a, b) && Leq(b, c) ensures Leq(a, c) { LeqTransitive(a, b, c); }
  }

  function SortedStrings(s: set<string>): (r: seq<string>)
    ensures forall x :: x in r <==> x in s
    ensures Ascending(Leq, r) && |r| == |s|
  {
    LeqIsTotalOrder();
    AscendingCount(Leq, s);
    Sorted(Leq, s)
  }

  /** One string comes before another exactly where it is a proper prefix of it, or smaller in
      the first place they differ in. */
  lemma {:induction false} LessIff(a: string, b: string)
    ensures Less(a, b) <==> a < b || exists k :: 0 <= k < |a| && k < |b| && a[..k] == b[..k] && a[k] < b[k]
  {
    if a != "" && b != "" && a[0] == b[0] {
      LessIff(a[1..], b[1..]);
      assert a == [a[0]] + a[1..] && b == [b[0]] + b[1..];
      if k :| 0 <= k < |a| - 1 && k < |b| - 1 && a[1..][..k] == b[1..][..k] && a[1..][k] < b[1..][k] {
        DifferLater(a, b, k);
      }
      if k :| 0 <= k < |a| && k < |b| && a[..k] == b[..k] && a[k] < b[k] { DifferEarlier(a, b, k); }
    } else if a != "" && b != "" {
      if k :| 0 <= k < |a| && k < |b| && a[..k] == b[..k] && a[k] < b[k] { PrefixHead(a, b, k); }
      if Less(a, b) { assert a[..0] == b[..0] && a[0] < b[0]; }
    }
  }

  lemma DifferLater(a: string, b: string, k: nat)
    requires k + 1 < |a| && k + 1 < |b| && a[0] == b[0] && a[1..][..k] == b[1..][..k]
    ensures a[..k + 1] == b[..k + 1]
  {
    assert a[..k + 1] == [a[0]] + a[1..][..k] && b[..k + 1] == [b[0]] + b[1..][..k];
  }

  lemma DifferEarlier(a: string, b: string, k: nat)
    requires k < |a| && k < |b| && a[0] == b[0] && a[..k] == b[..k] && a[k] < b[k]
    ensures k > 0 && a[1..][..k - 1] == b[1..][..k - 1]
  {
    assert k > 0;
    assert a[1..][..k - 1] == a[..k][1..] == b[1..][..k - 1];
  }

  lemma PrefixHead(a: string, b: string, k: nat)
    requires a != "" && b != "" && k <= |a| && k <= |b| && a[..k] == b[..k]
    ensures k > 0 ==> a[0] == b[0]
  {
    if k > 0 { assert a[..k][0] == b[..k][0]; }
  }

  /* ---------- pairs of strings ---------- */

  predicate PairLeq(p: (string, string), q: (string, string)) {
    Less(p.0, q.0) || (p.0 == q.0 && Leq(p.1, q.1))
  }

  lemma PairLeqIsTotalOrder()
    ensures TotalOrder(PairLeq)
  {
    LeqIsTotalOrder();
  }

  function SortedPairs(s: set<(string, string)>): (r: seq<(string, string)>)
    ensures forall x :: x in r <==> x in s
    ensures Ascending(PairLeq, r)
  {
    PairLeqIsTotalOrder();
    Sorted(PairLeq, s)
  }
}
