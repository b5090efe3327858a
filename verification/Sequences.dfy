/** Facts about sequences that several modules use. */
module Sequences {

  lemma Regrouped<T>(a: seq<T>, b: seq<T>, c: seq<T>)
    ensures a + (b + c) == a + b + c
  {
  }

  /** A suffix without its head is the next suffix. */
  lemma NextSuffix<T>(s: seq<T>, i: nat)
    requires i < |s|
    ensures s[i..][0] == s[i] && s[i..][1..] == s[i + 1..]
  {
  }

  /* ---------- selection ---------- */

  /** The elements of s that satisfy p, in order. */
  function Filter<T>(s: seq<T>, p: T -> bool): seq<T> {
    if s == [] then []
    else Filter(s[..|s| - 1], p) + if p(s[|s| - 1]) then [s[|s| - 1]] else []
  }

  function Not<T>(p: T -> bool): T -> bool { x => !p(x) }

  lemma {:induction false} FilterHas<T>(s: seq<T>, p: T -> bool, x: T)
    ensures x in Filter(s, p) <==> x in s && p(x)
  {
    if s != [] {
      var n := |s| - 1;
      FilterHas(s[..n], p, x);
      assert s == s[..n] + [s[n]];
    }
  }

  lemma FilterAppend<T>(s: seq<T>, x: T, p: T -> bool)
    ensures Filter(s + [x], p) == Filter(s, p) + if p(x) then [x] else []
  {
    assert (s + [x])[..|s|] == s;
  }

  lemma {:induction false} FilterAll<T>(s: seq<T>)
    ensures Filter(s, _ => true) == s
  {
    if s != [] {
      FilterAll(s[..|s| - 1]);
      assert s == s[..|s| - 1] + [s[|s| - 1]];
    }
  }

  /** The places of s whose elements satisfy p. */
  function PlacesOf<T>(s: seq<T>, p: T -> bool): (places: set<int>)
    ensures forall i :: i in places <==> 0 <= i < |s| && p(s[i])
  {
    set i | 0 <= i < |s| && p(s[i])
  }

  /** As many elements are selected as there are such places. */
  lemma {:induction false} FilterCount<T>(s: seq<T>, p: T -> bool)
    ensures |Filter(s, p)| == |PlacesOf(s, p)|
  {
    if s != [] {
      var n := |s| - 1;
      FilterCount(s[..n], p);
      assert PlacesOf(s, p) == PlacesOf(s[..n], p) + if p(s[n]) then {n} else {};
    }
  }

  function Both<T>(p: T -> bool, q: T -> bool): T -> bool { x => p(x) && q(x) }

  lemma {:induction false} FilterTwice<T>(s: seq<T>, p: T -> bool, q: T -> bool)
    ensures Filter(Filter(s, p), q) == Filter(s, Both(p, q))
  {
    if s != [] {
      var n := |s| - 1;
      FilterTwice(s[..n], p, q);
      var kept := Filter(s[..n], p);
      assert kept + [] == kept && Filter(kept, q) + [] == Filter(kept, q);
      FilterAppend(kept, s[n], q);
    }
  }

  /** What satisfies p and what does not partition s. */
  lemma {:induction false} FilterPartitions<T>(s: seq<T>, p: T -> bool)
    ensures multiset(Filter(s, p)) + multiset(Filter(s, Not(p))) == multiset(s)
  {
    if s != [] {
      var n := |s| - 1;
      FilterPartitions(s[..n], p);
      assert s == s[..n] + [s[n]];
    }
  }

  /* ---------- de-duplication ---------- */

  /** The elements of s, each where it first occurs. */
  function FirstSeen<T(==)>(s: seq<T>): seq<T> {
    if s == [] then []
    else
      var before, last := FirstSeen(s[..|s| - 1]), s[|s| - 1];
      if last in before then before else before + [last]
  }

  /** The first index of x. */
  function IndexOf<T(==)>(s: seq<T>, x: T): (i: nat)
    requires x in s
    ensures i < |s| && s[i] == x && forall k :: 0 <= k < i ==> s[k] != x
  {
    if s[0] == x then 0 else 1 + IndexOf(s[1..], x)
  }

  lemma IndexOfIs<T>(s: seq<T>, x: T, k: nat)
    requires k < |s| && s[k] == x && x !in s[..k]
    ensures IndexOf(s, x) == k
  {
    var i := IndexOf(s, x);
    assert forall j :: 0 <= j < k ==> s[..k][j] == s[j];
    assert !(i < k) && !(k < i);
  }

  lemma IndexOfPrefix<T>(s: seq<T>, n: nat, x: T)
    requires n <= |s| && x in s[..n]
    ensures x in s && IndexOf(s, x) < n && IndexOf(s[..n], x) == IndexOf(s, x)
  {
    var j := IndexOf(s[..n], x);
    assert s[..n][j] == s[j] && s[..n][..j] == s[..j];
    IndexOfIs(s, x, j);
  }

  lemma {:induction false} FirstSeenHas<T>(s: seq<T>, x: T)
    ensures x in FirstSeen(s) <==> x in s
  {
    if s != [] {
      FirstSeenHas(s[..|s| - 1], x);
      assert s == s[..|s| - 1] + [s[|s| - 1]];
    }
  }

  /** De-duplication keeps exactly the elements there are, each once, in the order of their
      first occurrence. */
  lemma {:induction false} FirstSeenIsOrdered<T>(s: seq<T>, i: nat, j: nat)
    requires i < j < |FirstSeen(s)|
    ensures var r := FirstSeen(s); r[i] in s && r[j] in s && IndexOf(s, r[i]) < IndexOf(s, r[j])
  {
    var n := |s| - 1;
    var r, before := FirstSeen(s), FirstSeen(s[..n]);
    FirstSeenHas(s[..n], before[i]);
    IndexOfPrefix(s, n, r[i]);
    if j < |before| {
      FirstSeenHas(s[..n], before[j]);
      IndexOfPrefix(s, n, r[j]);
      FirstSeenIsOrdered(s[..n], i, j);
    } else {
      FirstSeenHas(s[..n], s[n]);
      IndexOfIs(s, s[n], n);
    }
  }

  predicate NoRepeats<T(==)>(s: seq<T>) { forall i, j :: 0 <= i < j < |s| ==> s[i] != s[j] }

  lemma {:induction false} FirstSeenNoRepeats<T>(s: seq<T>)
    ensures NoRepeats(FirstSeen(s))
  {
    if s != [] { FirstSeenNoRepeats(s[..|s| - 1]); }
  }

  /** The parts one after the other, with `sep` between two. */
  function Separated(parts: seq<string>, sep: string): string {
    if parts == [] then ""
    else if |parts| == 1 then parts[0]
    else Separated(parts[..|parts| - 1], sep) + (sep + parts[|parts| - 1])
  }

  lemma {:induction false} SeparatedFirst(parts: seq<string>, sep: string)
    requires |parts| > 1
    ensures Separated(parts, sep) == parts[0] + (sep + Separated(parts[1..], sep))
  {
    var n := |parts| - 1;
    if n > 1 {
      SeparatedFirst(parts[..n], sep);
      var middle := Separated(parts[..n][1..], sep);
      assert parts[..n][1..] == parts[1..][..n - 1];
      assert parts[0] + (sep + middle) + (sep + parts[n]) == parts[0] + (sep + (middle + (sep + parts[n])));
    }
  }

  /** The loop with a set of what was seen. */
  method Dedupe<T(==)>(s: seq<T>) returns (r: seq<T>)
    ensures r == FirstSeen(s)
  {
    var seen: set<T> := {};
    r := [];
    for i := 0 to |s|
      invariant r == FirstSeen(s[..i])
      invariant forall x :: x in seen <==> x in r
    {
      assert s[..i + 1][..i] == s[..i];
      if s[i] !in seen {
        seen := seen + {s[i]};
        r := r + [s[i]];
      }
    }
    assert s[..|s|] == s;
  }
}
