/** The survivor of an authorised merge (src/kgcs/er/cluster.py, select_survivor). */
module Survivor {
  import opened Wrappers
  import opened Ordering
  import opened EntityView

  /** Reliability, lowest where unknown, and the number of identifier values. */
  datatype Rank = Rank(reliability: Option<real>, identifiers: nat)

  predicate Higher(a: Rank, b: Rank) {
    MoreReliable(a.reliability, b.reliability) || (a.reliability == b.reliability && a.identifiers > b.identifiers)
  }

  predicate MoreReliable(a: Option<real>, b: Option<real>) {
    a.Some? && (b.None? || a.value > b.value)
  }

  function ValueCount(identifiers: map<string, seq<string>>, namespaces: seq<string>): nat {
    if namespaces == [] then 0
    else
      var n := namespaces[|namespaces| - 1];
      ValueCount(identifiers, namespaces[..|namespaces| - 1]) + if n in identifiers then |identifiers[n]| else 0
  }

  /** An unknown member ranks lowest; without entities all rank alike. */
  function RankOf(entities: Option<map<string, NormalizedEntity>>, key: string): Rank {
    if entities.None? || key !in entities.value then Rank(None, 0)
    else
      var e := entities.value[key];
      Rank(e.sourceReliability, ValueCount(e.identifiers, SortedStrings(e.identifiers.Keys)))
  }

  /** a goes before b: the higher rank, or the smaller key of the same rank. */
  predicate Beats(entities: Option<map<string, NormalizedEntity>>, a: string, b: string) {
    var r, s := RankOf(entities, a), RankOf(entities, b);
    Higher(r, s) || (r == s && Less(a, b))
  }

  /** A member that beats every other one. */
  predicate IsSurvivor(entities: Option<map<string, NormalizedEntity>>, members: seq<string>, s: string) {
    s in members && forall m <- members :: m == s || Beats(entities, s, m)
  }

  lemma HigherIsOrder(a: Rank, b: Rank, c: Rank)
    ensures !(Higher(a, b) && Higher(b, a))
    ensures a == b || Higher(a, b) || Higher(b, a)
    ensures Higher(a, b) && Higher(b, c) ==> Higher(a, c)
  {
  }

  lemma LessIsOrder(a: string, b: string, c: string)
    ensures !(Less(a, b) && Less(b, a))
    ensures a == b || Less(a, b) || Less(b, a)
    ensures Less(a, b) && Less(b, c) ==> Less(a, c)
  {
    LeqTotal(a, b);
    if Leq(a, b) && Leq(b, a) { LeqAntisymmetric(a, b); }
    if Less(a, b) && Less(b, c) {
      LeqTransitive(a, b, c);
      if a == c { LeqAntisymmetric(a, b); }
    }
  }

  lemma BeatsIsStrictOrder(entities: Option<map<string, NormalizedEntity>>, a: string, b: string, c: string)
    ensures !(Beats(entities, a, b) && Beats(entities, b, a))
    ensures a == b || Beats(entities, a, b) || Beats(entities, b, a)
    ensures Beats(entities, a, b) && Beats(entities, b, c) ==> Beats(entities, a, c)
  {
    HigherIsOrder(RankOf(entities, a), RankOf(entities, b), RankOf(entities, c));
    LessIsOrder(a, b, c);
  }

  /** `best` beats the keys so far, and so does a key of strictly higher rank. */
  ghost predicate BestSoFar(entities: Option<map<string, NormalizedEntity>>, keys: seq<string>, best: string) {
    best in keys && forall k <- keys :: k == best || Beats(entities, best, k)
  }

  lemma NextBest(entities: Option<map<string, NormalizedEntity>>, keys: seq<string>, best: string, next: string)
    requires BestSoFar(entities, keys, best) && Less(best, next)
    ensures BestSoFar(entities, keys + [next],
                      if Higher(RankOf(entities, next), RankOf(entities, best)) then next else best)
  {
    if Higher(RankOf(entities, next), RankOf(entities, best)) {
      forall k <- keys ensures Beats(entities, next, k) { BeatsIsStrictOrder(entities, next, best, k); }
    } else {
      BeatsIsStrictOrder(entities, best, next, best);
    }
  }

  /** The running best over the sorted members, replaced only by a strictly higher rank. */
  method BestOf(entities: Option<map<string, NormalizedEntity>>, unique: seq<string>) returns (best: string)
    requires unique != [] && Ascending(Leq, unique)
    ensures IsSurvivor(entities, unique, best)
  {
    best := unique[0];
    for i := 1 to |unique|
      invariant BestSoFar(entities, unique[..i], best)
    {
      assert unique[..i + 1] == unique[..i] + [unique[i]];
      assert Less(best, unique[i]) by {
        var k :| 0 <= k < i && unique[..i][k] == best;
        assert Leq(unique[k], unique[i]);
      }
      NextBest(entities, unique[..i], best, unique[i]);
      if Higher(RankOf(entities, unique[i]), RankOf(entities, best)) {
        best := unique[i];
      }
    }
    assert unique[..|unique|] == unique;
  }

  /** The survivor; nothing survives an empty membership. */
  method SelectSurvivor(entities: Option<map<string, NormalizedEntity>>, members: seq<string>)
    returns (r: Option<string>)
    ensures r.None? <==> members == []
    ensures r.Some? ==> IsSurvivor(entities, members, r.value)
  {
    var unique := SortedStrings(set m <- members);
    assert forall m :: m in unique <==> m in members;
    if unique == [] {
      NonEmpty(members);
      return None;
    }
    assert unique[0] in members;
    if entities.None? {
      forall m <- members ensures m == unique[0] || Beats(entities, unique[0], m) {
        var k :| 0 <= k < |unique| && unique[k] == m;
      }
      return Some(unique[0]);
    }
    var best := BestOf(entities, unique);
    return Some(best);
  }

  /** There is only one, whatever the order of the members and their repeats. */
  lemma SurvivorIsUnique(entities: Option<map<string, NormalizedEntity>>, members: seq<string>, others: seq<string>,
                         s: string, t: string)
    requires forall m :: m in members <==> m in others
    requires IsSurvivor(entities, members, s) && IsSurvivor(entities, others, t)
    ensures s == t
  {
    BeatsIsStrictOrder(entities, s, t, s);
  }

  /** Merging in stages picks the same survivor as merging at once: the survivor of two
      memberships together is the survivor of their survivors. */
  lemma SurvivorComposes(entities: Option<map<string, NormalizedEntity>>, a: seq<string>, b: seq<string>, s: string,
                         t: string, u: string)
    requires IsSurvivor(entities, a, s) && IsSurvivor(entities, b, t)
    ensures IsSurvivor(entities, [s, t], u) <==> IsSurvivor(entities, a + b, u)
  {
    if IsSurvivor(entities, [s, t], u) {
      assert s in [s, t] && t in [s, t];
      forall m <- a + b ensures m == u || Beats(entities, u, m) {
        BeatsIsStrictOrder(entities, u, s, m);
        BeatsIsStrictOrder(entities, u, t, m);
      }
    }
    if IsSurvivor(entities, a + b, u) {
      assert s in a + b && t in a + b;
      BeatsIsStrictOrder(entities, u, s, u);
      BeatsIsStrictOrder(entities, u, t, u);
    }
  }

  /* ---------- the order, told from the entities ---------- */

  /** Every identifier value the entity has, by its namespace and its place there. */
  function IdentifierValues(e: NormalizedEntity): set<(string, int)> {
    set n, i | n in e.identifiers && 0 <= i < |e.identifiers[n]| :: (n, i)
  }

  lemma {:induction false} PlacesCount(n: string, k: nat)
    ensures |set i | 0 <= i < k :: (n, i)| == k
  {
    if k > 0 {
      PlacesCount(n, k - 1);
      assert (set i | 0 <= i < k :: (n, i)) == (set i | 0 <= i < k - 1 :: (n, i)) + {(n, k - 1)};
    }
  }

  function ValuesIn(identifiers: map<string, seq<string>>, namespaces: seq<string>): (r: set<(string, int)>)
    requires forall n <- namespaces :: n in identifiers
    ensures forall p :: p in r <==> p.0 in namespaces && 0 <= p.1 < |identifiers[p.0]|
  {
    set n, i | n in namespaces && 0 <= i < |identifiers[n]| :: (n, i)
  }

  lemma ValuesGrow(identifiers: map<string, seq<string>>, namespaces: seq<string>, last: string)
    requires last in identifiers && last !in namespaces && forall n <- namespaces :: n in identifiers
    ensures |ValuesIn(identifiers, namespaces + [last])| == |ValuesIn(identifiers, namespaces)| + |identifiers[last]|
  {
    var here := set i | 0 <= i < |identifiers[last]| :: (last, i);
    PlacesCount(last, |identifiers[last]|);
    assert ValuesIn(identifiers, namespaces + [last]) == ValuesIn(identifiers, namespaces) + here;
    assert ValuesIn(identifiers, namespaces) !! here;
  }

  lemma {:induction false} ValuesCount(identifiers: map<string, seq<string>>, namespaces: seq<string>)
    requires (forall n <- namespaces :: n in identifiers)
    requires forall i, j :: 0 <= i < j < |namespaces| ==> namespaces[i] != namespaces[j]
    ensures ValueCount(identifiers, namespaces) == |ValuesIn(identifiers, namespaces)|
  {
    if namespaces != [] {
      var k := |namespaces| - 1;
      assert namespaces == namespaces[..k] + [namespaces[k]] && namespaces[k] !in namespaces[..k];
      ValuesCount(identifiers, namespaces[..k]);
      ValuesGrow(identifiers, namespaces[..k], namespaces[k]);
    }
  }

  lemma IdentifierCount(e: NormalizedEntity)
    ensures ValueCount(e.identifiers, SortedStrings(e.identifiers.Keys)) == |IdentifierValues(e)|
  {
    ValuesCount(e.identifiers, SortedStrings(e.identifiers.Keys));
    assert ValuesIn(e.identifiers, SortedStrings(e.identifiers.Keys)) == IdentifierValues(e);
  }

  /** The one with the known or higher reliability goes first; of two alike in that the one with
      more identifier values; of two alike in both the smaller key. */
  lemma BeatsIff(entities: map<string, NormalizedEntity>, a: string, b: string)
    requires a in entities && b in entities
    ensures var e, f := entities[a], entities[b];
            Beats(Some(entities), a, b) <==>
            || (e.sourceReliability.Some?
                && (f.sourceReliability.None? || e.sourceReliability.value > f.sourceReliability.value))
            || (e.sourceReliability == f.sourceReliability
                && (|IdentifierValues(e)| > |IdentifierValues(f)|
                    || (|IdentifierValues(e)| == |IdentifierValues(f)| && Less(a, b))))
  {
    IdentifierCount(entities[a]);
    IdentifierCount(entities[b]);
  }

  /** A member that is not known has no reliability and no values; without entities only the
      keys count. */
  lemma UnknownBeatsIff(entities: Option<map<string, NormalizedEntity>>, a: string, b: string)
    requires entities.None? || a !in entities.value || b !in entities.value
    ensures Beats(entities, a, b) <==>
            var known := (k: string) => entities.Some? && k in entities.value;
            var ranked := (k: string) =>
              known(k) && (entities.value[k].sourceReliability.Some? || IdentifierValues(entities.value[k]) != {});
            if ranked(a) then true else if ranked(b) then false
            else Less(a, b)
  {
    if entities.Some? && a in entities.value { IdentifierCount(entities.value[a]); }
    if entities.Some? && b in entities.value { IdentifierCount(entities.value[b]); }
  }
}
