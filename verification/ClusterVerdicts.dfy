/** What cluster validation decides (src/kgcs/er/cluster.py), told from the members' own fields
    and from the match results as they come. */
module ClusterVerdicts {
  import opened Wrappers
  import opened Ordering
  import opened Sequences
  import opened EntityView
  import opened Identity
  import opened Clusters

  /* ---------- two members ---------- */

  /** One of the two stops being valid before the other begins, as far as their times can be
      compared. */
  predicate Apart(e: NormalizedEntity, f: NormalizedEntity) {
    || (e.validTo.Some? && f.validFrom.Some? && e.validTo.value.aware == f.validFrom.value.aware
        && e.validTo.value.at < f.validFrom.value.at)
    || (f.validTo.Some? && e.validFrom.Some? && f.validTo.value.aware == e.validFrom.value.aware
        && f.validTo.value.at < e.validFrom.value.at)
  }

  predicate OneSource(v: Validator, e: NormalizedEntity, f: NormalizedEntity) {
    v.sourceOf(e) == v.sourceOf(f) && v.sourceOf(f) !in v.allowMultiple
  }

  predicate RulesSay(v: Validator, e: NormalizedEntity, f: NormalizedEntity) {
    exists k, s :: 0 <= k < |v.rules| && s in v.rules[k].evaluate(e, f) && s.agreement == CONTRADICT
  }

  /** The last result for the pair says that the two exclude each other. */
  predicate Excluded(results: seq<MatchResult>, a: string, b: string) {
    exists k :: 0 <= k < |results| && results[k] == MatchResult(a, b, true)
                && forall i :: k < i < |results| ==> results[i].left != a || results[i].right != b
  }

  lemma {:induction false} ExcludedIff(results: seq<MatchResult>, a: string, b: string)
    ensures Exclusive(ByKey(results), a, b) <==> Excluded(results, a, b)
    ensures (a, b) in ByKey(results) <==>
            exists k :: 0 <= k < |results| && results[k].left == a && results[k].right == b
  {
    if results != [] {
      var n := |results| - 1;
      assert forall i :: 0 <= i < n ==> results[..n][i] == results[i];
      ExcludedIff(results[..n], a, b);
      if results[n].left == a && results[n].right == b {
        assert Excluded(results, a, b) <==> results[n].exclusive;
      } else {
        ExcludedEarlier(results, a, b);
      }
    }
  }

  lemma ExcludedEarlier(results: seq<MatchResult>, a: string, b: string)
    requires results != [] && !(results[|results| - 1].left == a && results[|results| - 1].right == b)
    ensures Excluded(results, a, b) <==> Excluded(results[..|results| - 1], a, b)
  {
    var n := |results| - 1;
    if Excluded(results[..n], a, b) {
      var k :| 0 <= k < n && results[..n][k] == MatchResult(a, b, true)
               && forall i :: k < i < n ==> results[..n][i].left != a || results[..n][i].right != b;
      assert forall i :: k < i < n ==> results[..n][i] == results[i];
      assert results[k] == MatchResult(a, b, true);
    }
  }

  lemma {:induction false} SignalsFromHas(rules: seq<Rule>, e: NormalizedEntity, f: NormalizedEntity, s: Signal)
    ensures s in SignalsFrom(rules, e, f) <==> exists k :: 0 <= k < |rules| && s in rules[k].evaluate(e, f)
  {
    if rules != [] {
      var n := |rules| - 1;
      SignalsFromHas(rules[..n], e, f, s);
      assert forall k :: 0 <= k < n ==> rules[..n][k] == rules[k];
    }
  }

  lemma PairTestsAre(v: Validator, e: NormalizedEntity, f: NormalizedEntity)
    ensures Disjoint(e, f) <==> Apart(e, f)
    ensures SameSource(v, e, f) <==> OneSource(v, e, f)
    ensures Contradict(v, e, f) <==> RulesSay(v, e, f)
  {
    forall s
      ensures s in SignalsFrom(v.rules, e, f) <==> exists k :: 0 <= k < |v.rules| && s in v.rules[k].evaluate(e, f)
    {
      SignalsFromHas(v.rules, e, f, s);
    }
  }

  /* ---------- the verdict ---------- */

  /** What a valid cluster is: every known member is of the cluster's graph and type; no two
      members are excluded by their last result; no two known ones lie apart in time, come from
      one source that is not exempt, or contradict by a rule; and where there is a client's
      predicate, no two different members include a protected one. */
  ghost predicate Mergeable(v: Validator, c: Cluster, entities: Entities, results: seq<MatchResult>) {
    && (forall k <- c.members :: k in entities ==>
          entities[k].graphId == c.graphId && entities[k].entityType == c.entityType)
    && (forall a <- c.members, b <- c.members :: Less(a, b) ==> !Excluded(results, a, b))
    && (forall a <- c.members, b <- c.members :: Less(a, b) && a in entities && b in entities ==>
          var e, f := entities[a], entities[b];
          !Apart(e, f) && !OneSource(v, e, f) && !RulesSay(v, e, f))
    && (forall a <- c.members, b <- c.members :: a != b && a in entities && v.clientOwned.Some? ==>
          !v.clientOwned.value(entities[a]))
  }

  lemma OrderedOrNot(a: string, b: string)
    requires a != b
    ensures Less(a, b) || Less(b, a)
  {
    LeqTotal(a, b);
  }

  /** Validation accepts exactly these. */
  lemma SoundIsMergeable(v: Validator, c: Cluster, entities: Entities, results: seq<MatchResult>)
    ensures Sound(v, c, entities, ByKey(results)) <==> Mergeable(v, c, entities, results)
  {
    forall a, b ensures Exclusive(ByKey(results), a, b) <==> Excluded(results, a, b) { ExcludedIff(results, a, b); }
    forall e, f
      ensures (Disjoint(e, f) <==> Apart(e, f)) && (SameSource(v, e, f) <==> OneSource(v, e, f))
      ensures Contradict(v, e, f) <==> RulesSay(v, e, f)
    {
      PairTestsAre(v, e, f);
    }
    if Sound(v, c, entities, ByKey(results)) { SoundImplies(v, c, entities, results); }
  }

  lemma SoundImplies(v: Validator, c: Cluster, entities: Entities, results: seq<MatchResult>)
    requires Sound(v, c, entities, ByKey(results))
    ensures forall a <- c.members, b <- c.members :: a != b && a in entities && v.clientOwned.Some? ==>
              !v.clientOwned.value(entities[a])
  {
    forall a <- c.members, b <- c.members | a != b && a in entities && v.clientOwned.Some?
      ensures !v.clientOwned.value(entities[a])
    {
      OrderedOrNot(a, b);
      assert Less(a, b) ==> !PairBad(v, entities, ByKey(results), a, b);
      assert Less(b, a) ==> !PairBad(v, entities, ByKey(results), b, a);
    }
  }

  /** Every two different members have a result. */
  ghost predicate AllCompared(members: seq<string>, results: seq<MatchResult>) {
    forall a <- members, b <- members :: Less(a, b) ==>
      exists k :: 0 <= k < |results| && results[k].left == a && results[k].right == b
  }

  lemma CoveredIsCompared(members: seq<string>, results: seq<MatchResult>)
    ensures Covered(members, ByKey(results)) <==> AllCompared(members, results)
  {
    forall a, b ensures (a, b) in ByKey(results) <==>
                        exists k :: 0 <= k < |results| && results[k].left == a && results[k].right == b
    {
      ExcludedIff(results, a, b);
    }
  }

  /** A member may be added exactly where the members and it may stand together. */
  lemma AdditionIsMergeable(v: Validator, c: Cluster, m: string, entities: Entities, results: seq<MatchResult>)
    ensures Sound(v, c.WithMember(m), entities, ByKey(results)) <==>
            Mergeable(v, c.(members := c.members + [m]), entities, results)
  {
    SoundIsMergeable(v, c.(members := c.members + [m]), entities, results);
    OrderDoesNotMatter(v, c.WithMember(m), c.members + [m], entities, ByKey(results));
    assert c.WithMember(m).(members := c.members + [m]) == c.(members := c.members + [m]);
  }

  /* ---------- which offenders are reported ---------- */

  predicate Known(c: Cluster, entities: Entities, k: string) { k in c.members && k in entities }

  /** The first of the keys that is bad. */
  ghost predicate IsFirstKey(keys: seq<string>, bad: string -> bool, k: string) {
    k in keys && bad(k) && forall x <- keys :: bad(x) ==> Leq(k, x)
  }

  /** The first bad pair of keys, by the smaller key and then by the greater one. */
  ghost predicate IsFirstPair(keys: seq<string>, bad: (string, string) -> bool, a: string, b: string) {
    && a in keys && b in keys && Less(a, b) && bad(a, b)
    && forall x <- keys, y <- keys :: Less(x, y) && bad(x, y) ==> Less(a, x) || (a == x && Leq(b, y))
  }

  lemma HeadIsLeast(keys: seq<string>)
    requires Ascending(Leq, keys) && keys != []
    ensures Ascending(Leq, keys[1..]) && forall x <- keys[1..] :: Less(keys[0], x)
  {
    forall x <- keys[1..] ensures Less(keys[0], x) {
      var i :| 0 <= i < |keys| - 1 && keys[1..][i] == x;
      assert keys[i + 1] == x;
    }
  }

  lemma NotBoth(a: string, b: string)
    requires Less(a, b)
    ensures !Less(b, a) && !Leq(b, a)
  {
    if Leq(b, a) { LeqAntisymmetric(a, b); }
  }

  lemma LeqReflexive(a: string)
    ensures Leq(a, a)
  {
    LeqTotal(a, a);
  }

  lemma {:induction false} PartnerIsFirst(a: string, rest: seq<string>, bad: (string, string) -> bool)
    requires Ascending(Leq, rest)
    ensures FirstPartner(a, rest, bad).Some? ==> IsFirstKey(rest, b => bad(a, b), FirstPartner(a, rest, bad).value)
    ensures FirstPartner(a, rest, bad).None? ==> forall b <- rest :: !bad(a, b)
  {
    if rest != [] {
      HeadIsLeast(rest);
      LeqReflexive(rest[0]);
      PartnerIsFirst(a, rest[1..], bad);
      assert forall x <- rest :: x == rest[0] || x in rest[1..];
    }
  }

  lemma {:induction false} PairIsFirst(keys: seq<string>, bad: (string, string) -> bool)
    requires Ascending(Leq, keys)
    ensures FirstBadPair(keys, bad).Some? ==>
              IsFirstPair(keys, bad, FirstBadPair(keys, bad).value.0, FirstBadPair(keys, bad).value.1)
    ensures FirstBadPair(keys, bad).None? ==> forall x <- keys, y <- keys :: Less(x, y) ==> !bad(x, y)
  {
    if keys != [] {
      HeadIsLeast(keys);
      PartnerIsFirst(keys[0], keys[1..], bad);
      PairIsFirst(keys[1..], bad);
      assert forall x <- keys :: x == keys[0] || x in keys[1..];
      forall x <- keys[1..] ensures !Less(x, keys[0]) { NotBoth(keys[0], x); }
    }
  }

  lemma FirstPairIsUnique(keys: seq<string>, bad: (string, string) -> bool, a: string, b: string, x: string, y: string)
    requires IsFirstPair(keys, bad, a, b) && IsFirstPair(keys, bad, x, y)
    ensures a == x && b == y
  {
    if Less(a, x) { NotBoth(a, x); }
    if Leq(b, y) && Leq(y, b) { LeqAntisymmetric(b, y); }
  }

  lemma FirstPairIff(keys: seq<string>, bad: (string, string) -> bool, a: string, b: string)
    requires Ascending(Leq, keys)
    ensures FirstBadPair(keys, bad) == Some((a, b)) <==> IsFirstPair(keys, bad, a, b)
  {
    PairIsFirst(keys, bad);
    if IsFirstPair(keys, bad, a, b) {
      var found := FirstBadPair(keys, bad).value;
      FirstPairIsUnique(keys, bad, a, b, found.0, found.1);
    }
  }

  lemma {:induction false} OutsideIsFirst(c: Cluster, keys: seq<string>, entities: Entities)
    requires Ascending(Leq, keys)
    ensures FirstOutside(c, keys, entities).Some? ==>
              forall x <- keys :: MemberBad(c, entities, x) ==> Leq(FirstOutside(c, keys, entities).value, x)
  {
    if keys != [] {
      HeadIsLeast(keys);
      LeqReflexive(keys[0]);
      OutsideIsFirst(c, keys[1..], entities);
      assert forall x <- keys :: x == keys[0] || x in keys[1..];
    }
  }

  /** k is the first known member of another graph or type. */
  ghost predicate FirstStranger(c: Cluster, entities: Entities, k: string) {
    && Known(c, entities, k) && Strange(c, entities[k])
    && forall x <- c.members :: x in entities && Strange(c, entities[x]) ==> Leq(k, x)
  }

  predicate Strange(c: Cluster, e: NormalizedEntity) { e.graphId != c.graphId || e.entityType != c.entityType }

  lemma StrangerIff(c: Cluster, entities: Entities, k: string)
    ensures FirstOutside(c, KnownKeys(c, entities), entities) == Some(k) <==> FirstStranger(c, entities, k)
  {
    var keys := KnownKeys(c, entities);
    KnownAreMembers(c, entities);
    OutsideIsFirst(c, keys, entities);
    if FirstStranger(c, entities, k) {
      assert k in keys && MemberBad(c, entities, k);
      LeqAntisymmetric(k, FirstOutside(c, keys, entities).value);
    }
  }

  /** a and b are the first two members that a test of entities finds bad. */
  ghost predicate FirstTwo(c: Cluster, entities: Entities, bad: (NormalizedEntity, NormalizedEntity) -> bool, a: string,
                           b: string) {
    && Known(c, entities, a) && Known(c, entities, b) && Less(a, b) && bad(entities[a], entities[b])
    && forall x <- c.members, y <- c.members ::
         x in entities && y in entities && Less(x, y) && bad(entities[x], entities[y]) ==>
           Less(a, x) || (a == x && Leq(b, y))
  }

  lemma DisjointPairIff(c: Cluster, entities: Entities, a: string, b: string)
    ensures FirstBadPair(KnownKeys(c, entities), Disjoining(entities)) == Some((a, b)) <==>
            FirstTwo(c, entities, (e, f) => Apart(e, f), a, b)
  {
    KnownAreMembers(c, entities);
    FirstPairIff(KnownKeys(c, entities), Disjoining(entities), a, b);
    assert forall e, f :: Disjoint(e, f) <==> Apart(e, f);
  }

  lemma ContradictionPairIff(v: Validator, c: Cluster, entities: Entities, a: string, b: string)
    ensures FirstBadPair(KnownKeys(c, entities), Contradicting(v, entities)) == Some((a, b)) <==>
            FirstTwo(c, entities, (e, f) => RulesSay(v, e, f), a, b)
  {
    KnownAreMembers(c, entities);
    FirstPairIff(KnownKeys(c, entities), Contradicting(v, entities), a, b);
    forall e, f ensures Contradict(v, e, f) <==> RulesSay(v, e, f) { PairTestsAre(v, e, f); }
  }

  lemma LastIsGreatest(keys: seq<string>)
    requires Ascending(Leq, keys) && keys != []
    ensures var n := |keys| - 1;
            Ascending(Leq, keys[..n]) && forall x <- keys[..n] :: Less(x, keys[n])
  {
    var n := |keys| - 1;
    forall x <- keys[..n] ensures Less(x, keys[n]) {
      var i :| 0 <= i < n && keys[..n][i] == x;
      assert keys[i] == x;
    }
  }

  lemma {:induction false} SourceIsFirst(v: Validator, keys: seq<string>, entities: Entities, source: string)
    requires Ascending(Leq, keys) && forall k <- keys :: k in entities
    ensures FirstOfSource(v, keys, entities, source).Some? ==>
              forall x <- keys :: v.sourceOf(entities[x]) == source ==>
                Leq(FirstOfSource(v, keys, entities, source).value, x)
  {
    if keys != [] {
      var n := |keys| - 1;
      LastIsGreatest(keys);
      LeqReflexive(keys[n]);
      assert keys == keys[..n] + [keys[n]];
      SourceIsFirst(v, keys[..n], entities, source);
    }
  }

  /** b is the first key whose source an earlier one has, and a the first with that source. */
  ghost predicate IsFirstRepeat(v: Validator, keys: seq<string>, entities: Entities, a: string, b: string)
    requires forall k <- keys :: k in entities
  {
    && a in keys && b in keys && Less(a, b) && OneSource(v, entities[a], entities[b])
    && (forall x <- keys, y <- keys :: Less(x, y) && OneSource(v, entities[x], entities[y]) ==> Leq(b, y))
    && (forall x <- keys :: v.sourceOf(entities[x]) == v.sourceOf(entities[b]) ==> Leq(a, x))
  }

  lemma {:induction false} RepeatIsFirst(v: Validator, keys: seq<string>, entities: Entities)
    requires Ascending(Leq, keys) && forall k <- keys :: k in entities
    ensures FirstRepeat(v, keys, entities).Some? ==>
              IsFirstRepeat(v, keys, entities, FirstRepeat(v, keys, entities).value.0,
                            FirstRepeat(v, keys, entities).value.1)
    ensures FirstRepeat(v, keys, entities).None? ==>
              forall x <- keys, y <- keys :: Less(x, y) ==> !OneSource(v, entities[x], entities[y])
  {
    if keys != [] {
      var n := |keys| - 1;
      LastIsGreatest(keys);
      LeqReflexive(keys[n]);
      assert keys == keys[..n] + [keys[n]];
      RepeatIsFirst(v, keys[..n], entities);
      SourceIsFirst(v, keys[..n], entities, v.sourceOf(entities[keys[n]]));
      forall x <- keys[..n] ensures !Less(keys[n], x) { NotBoth(x, keys[n]); }
    }
  }

  ghost predicate FirstOfOneSource(v: Validator, c: Cluster, entities: Entities, a: string, b: string) {
    && Known(c, entities, a) && Known(c, entities, b) && Less(a, b) && OneSource(v, entities[a], entities[b])
    && (forall x <- c.members, y <- c.members ::
          x in entities && y in entities && Less(x, y) && OneSource(v, entities[x], entities[y]) ==> Leq(b, y))
    && (forall x <- c.members :: x in entities && v.sourceOf(entities[x]) == v.sourceOf(entities[b]) ==> Leq(a, x))
  }

  lemma RepeatedIff(v: Validator, c: Cluster, entities: Entities, a: string, b: string)
    ensures FirstRepeat(v, KnownKeys(c, entities), entities) == Some((a, b)) <==> FirstOfOneSource(v, c, entities, a, b)
  {
    var keys := KnownKeys(c, entities);
    KnownAreMembers(c, entities);
    RepeatIsFirst(v, keys, entities);
    if FirstOfOneSource(v, c, entities, a, b) {
      assert a in keys && b in keys;
      var found := FirstRepeat(v, keys, entities).value;
      LeqAntisymmetric(b, found.1);
      LeqAntisymmetric(a, found.0);
    }
  }

  /** More than one different member, and these are the protected ones, sorted. */
  ghost predicate ProtectedOnes(v: Validator, c: Cluster, entities: Entities, offending: seq<string>) {
    && offending != [] && Ascending(Leq, offending) && v.clientOwned.Some?
    && (exists a, b :: a in c.members && b in c.members && a != b)
    && forall k :: k in offending <==> k in c.members && k in entities && v.clientOwned.value(entities[k])
  }

  lemma ProtectedIff(v: Validator, c: Cluster, entities: Entities, offending: seq<string>)
    ensures offending != [] && Offenders(v, c, entities) == offending <==> ProtectedOnes(v, c, entities, offending)
  {
    var protected := set k <- c.members | Protected(v, entities, k);
    SeveralIff(c.members);
    LeqIsTotalOrder();
    if Offenders(v, c, entities) == offending != [] {
      assert offending[0] in offending;
      assert Protected(v, entities, offending[0]);
    }
    if ProtectedOnes(v, c, entities, offending) {
      AscendingUnique(Leq, SortedStrings(protected), offending);
    }
  }

  lemma SeveralIff(members: seq<string>)
    ensures |Distinct(members)| > 1 <==> exists a, b :: a in members && b in members && a != b
  {
    var all := Distinct(members);
    if a, b :| a in members && b in members && a != b {
      assert {a, b} <= all && |{a, b}| == 2;
      SubsetSize({a, b}, all);
    }
    if |all| > 1 {
      var a :| a in all;
      assert |all - {a}| > 0;
      var b :| b in all - {a};
    }
  }

  /** What is reported: every pair excluded by its last result; and for each constraint that
      fails the first offenders, or for authority all of them. */
  ghost predicate Reported(v: Validator, c: Cluster, entities: Entities, results: seq<MatchResult>, x: Violation) {
    match x.constraint
    case PAIRWISE =>
      |x.offending| == 2 && x.offending[0] in c.members && x.offending[1] in c.members
      && Less(x.offending[0], x.offending[1]) && Excluded(results, x.offending[0], x.offending[1])
    case TENANT => |x.offending| == 1 && FirstStranger(c, entities, x.offending[0])
    case TEMPORAL =>
      |x.offending| == 2 && FirstTwo(c, entities, (e, f) => Apart(e, f), x.offending[0], x.offending[1])
    case SOURCE => |x.offending| == 2 && FirstOfOneSource(v, c, entities, x.offending[0], x.offending[1])
    case ATTRIBUTE =>
      |x.offending| == 2 && FirstTwo(c, entities, (e, f) => RulesSay(v, e, f), x.offending[0], x.offending[1])
    case AUTHORITY => ProtectedOnes(v, c, entities, x.offending)
  }

  predicate IsExcludedPair(c: Cluster, results: Results, x: Violation) {
    && x.constraint == PAIRWISE && |x.offending| == 2 && x.offending[0] in c.members && x.offending[1] in c.members
    && Less(x.offending[0], x.offending[1]) && Exclusive(results, x.offending[0], x.offending[1])
  }

  lemma ExcludedIsReported(c: Cluster, results: Results, x: Violation)
    requires IsExcludedPair(c, results, x)
    ensures IsPairOf(SortedStrings(Distinct(c.members)), results, x)
  {
    var keys, a, b := SortedStrings(Distinct(c.members)), x.offending[0], x.offending[1];
    assert a in keys && b in keys;
    var i :| 0 <= i < |keys| && keys[i] == a;
    var j :| 0 <= j < |keys| && keys[j] == b;
    NotBoth(a, b);
    assert x == Violation(PAIRWISE, [keys[i], keys[j]]) by { assert x.offending == [a, b]; }
  }

  lemma ReportedIsExcluded(c: Cluster, results: Results, x: Violation)
    requires IsPairOf(SortedStrings(Distinct(c.members)), results, x)
    ensures IsExcludedPair(c, results, x)
  {
    var keys := SortedStrings(Distinct(c.members));
    var i, j :| 0 <= i < j < |keys| && Exclusive(results, keys[i], keys[j])
                && x == Violation(PAIRWISE, [keys[i], keys[j]]);
    assert keys[i] in keys && keys[j] in keys;
  }

  lemma PairReportedIff(c: Cluster, results: seq<MatchResult>, x: Violation)
    ensures x in PairViolations(SortedStrings(Distinct(c.members)), ByKey(results)) <==>
            && x.constraint == PAIRWISE && |x.offending| == 2
            && x.offending[0] in c.members && x.offending[1] in c.members
            && Less(x.offending[0], x.offending[1]) && Excluded(results, x.offending[0], x.offending[1])
  {
    var keys := SortedStrings(Distinct(c.members));
    PairViolationsIff(keys, ByKey(results), x);
    if |x.offending| == 2 { ExcludedIff(results, x.offending[0], x.offending[1]); }
    if IsPairOf(keys, ByKey(results), x) { ReportedIsExcluded(c, ByKey(results), x); }
    if IsExcludedPair(c, ByKey(results), x) { ExcludedIsReported(c, ByKey(results), x); }
  }

  lemma NamedPairIff(name: Constraint, pair: Option<(string, string)>, x: Violation)
    ensures x in Naming(name, pair) <==>
            x.constraint == name && |x.offending| == 2 && pair == Some((x.offending[0], x.offending[1]))
  {
    if |x.offending| == 2 { assert x.offending == [x.offending[0], x.offending[1]]; }
  }

  lemma NamedOneIff(name: Constraint, k: Option<string>, x: Violation)
    ensures x in NamingOne(name, k) <==> x.constraint == name && |x.offending| == 1 && k == Some(x.offending[0])
  {
    if |x.offending| == 1 { assert x.offending == [x.offending[0]]; }
  }

  lemma InViolations(v: Validator, c: Cluster, entities: Entities, results: Results, x: Violation)
    ensures var keys := KnownKeys(c, entities);
            x in AllViolations(v, c, entities, results) <==>
            || x in PairViolations(SortedStrings(Distinct(c.members)), results)
            || x in NamingOne(TENANT, FirstOutside(c, keys, entities))
            || x in Naming(TEMPORAL, FirstBadPair(keys, Disjoining(entities)))
            || x in Naming(SOURCE, FirstRepeat(v, keys, entities))
            || x in Naming(ATTRIBUTE, FirstBadPair(keys, Contradicting(v, entities)))
            || x in NamingAll(AUTHORITY, Offenders(v, c, entities))
  {
  }

  /** A violation is among those its constraint reports. */
  lemma InItsConstraint(v: Validator, c: Cluster, entities: Entities, results: seq<MatchResult>, x: Violation)
    ensures var keys := KnownKeys(c, entities);
            x in AllViolations(v, c, entities, ByKey(results)) <==>
            match x.constraint
            case PAIRWISE => x in PairViolations(SortedStrings(Distinct(c.members)), ByKey(results))
            case TENANT => x in NamingOne(TENANT, FirstOutside(c, keys, entities))
            case TEMPORAL => x in Naming(TEMPORAL, FirstBadPair(keys, Disjoining(entities)))
            case SOURCE => x in Naming(SOURCE, FirstRepeat(v, keys, entities))
            case ATTRIBUTE => x in Naming(ATTRIBUTE, FirstBadPair(keys, Contradicting(v, entities)))
            case AUTHORITY => x in NamingAll(AUTHORITY, Offenders(v, c, entities))
  {
    PairReportedIff(c, results, x);
    InViolations(v, c, entities, ByKey(results), x);
  }

  /** Exactly these violations are reported. */
  lemma ReportedIff(v: Validator, c: Cluster, entities: Entities, results: seq<MatchResult>, x: Violation)
    ensures x in AllViolations(v, c, entities, ByKey(results)) <==> Reported(v, c, entities, results, x)
  {
    InItsConstraint(v, c, entities, results, x);
    NamedIff(v, c, entities, results, x);
  }

  lemma NamedIff(v: Validator, c: Cluster, entities: Entities, results: seq<MatchResult>, x: Violation)
    ensures var keys := KnownKeys(c, entities);
            Reported(v, c, entities, results, x) <==>
            match x.constraint
            case PAIRWISE => x in PairViolations(SortedStrings(Distinct(c.members)), ByKey(results))
            case TENANT => x in NamingOne(TENANT, FirstOutside(c, keys, entities))
            case TEMPORAL => x in Naming(TEMPORAL, FirstBadPair(keys, Disjoining(entities)))
            case SOURCE => x in Naming(SOURCE, FirstRepeat(v, keys, entities))
            case ATTRIBUTE => x in Naming(ATTRIBUTE, FirstBadPair(keys, Contradicting(v, entities)))
            case AUTHORITY => x in NamingAll(AUTHORITY, Offenders(v, c, entities))
  {
    var keys, two := KnownKeys(c, entities), |x.offending| == 2;
    match x.constraint
    case PAIRWISE => PairReportedIff(c, results, x);
    case TENANT =>
      NamedOneIff(TENANT, FirstOutside(c, keys, entities), x);
      if |x.offending| == 1 { StrangerIff(c, entities, x.offending[0]); }
    case TEMPORAL =>
      NamedPairIff(TEMPORAL, FirstBadPair(keys, Disjoining(entities)), x);
      if two { DisjointPairIff(c, entities, x.offending[0], x.offending[1]); }
    case SOURCE =>
      NamedPairIff(SOURCE, FirstRepeat(v, keys, entities), x);
      if two { RepeatedIff(v, c, entities, x.offending[0], x.offending[1]); }
    case ATTRIBUTE =>
      NamedPairIff(ATTRIBUTE, FirstBadPair(keys, Contradicting(v, entities)), x);
      if two { ContradictionPairIff(v, c, entities, x.offending[0], x.offending[1]); }
    case AUTHORITY => ProtectedIff(v, c, entities, x.offending);
  }

  /* ---------- in which order ---------- */

  /** The pairwise check comes first, then the constraints in their order. */
  function Rank(name: Constraint): nat {
    match name
    case PAIRWISE => 0 case TENANT => 1 case TEMPORAL => 2 case SOURCE => 3 case ATTRIBUTE => 4 case AUTHORITY => 5
  }

  predicate Before(x: Violation, y: Violation) {
    || Rank(x.constraint) < Rank(y.constraint)
    || (x.constraint == y.constraint == PAIRWISE && |x.offending| == 2 == |y.offending|
        && (Less(x.offending[0], y.offending[0])
            || (x.offending[0] == y.offending[0] && Less(x.offending[1], y.offending[1]))))
  }

  ghost predicate InOrder(xs: seq<Violation>) { forall i, j :: 0 <= i < j < |xs| ==> Before(xs[i], xs[j]) }

  lemma JoinedInOrder(xs: seq<Violation>, ys: seq<Violation>)
    requires InOrder(xs) && InOrder(ys) && forall x <- xs, y <- ys :: Before(x, y)
    ensures InOrder(xs + ys)
  {
    forall i, j | 0 <= i < j < |xs| + |ys| ensures Before((xs + ys)[i], (xs + ys)[j]) {
      if i < |xs| <= j { assert xs[i] in xs && ys[j - |xs|] in ys; }
    }
  }

  lemma {:induction false} RowInOrder(a: string, rest: seq<string>, results: Results)
    requires Ascending(Leq, rest)
    ensures InOrder(RowViolations(a, rest, results))
  {
    if rest != [] {
      var n := |rest| - 1;
      LastIsGreatest(rest);
      RowInOrder(a, rest[..n], results);
      forall x <- RowViolations(a, rest[..n], results) ensures Before(x, Violation(PAIRWISE, [a, rest[n]])) {
        RowViolationsHas(a, rest[..n], results, x);
      }
      JoinedInOrder(RowViolations(a, rest[..n], results),
                    if Exclusive(results, a, rest[n]) then [Violation(PAIRWISE, [a, rest[n]])] else []);
    }
  }

  lemma {:induction false} PairsInOrder(keys: seq<string>, results: Results)
    requires Ascending(Leq, keys)
    ensures InOrder(PairViolations(keys, results))
  {
    if keys != [] {
      HeadIsLeast(keys);
      RowInOrder(keys[0], keys[1..], results);
      PairsInOrder(keys[1..], results);
      forall x <- RowViolations(keys[0], keys[1..], results), y <- PairViolations(keys[1..], results)
        ensures Before(x, y)
      {
        RowViolationsHas(keys[0], keys[1..], results, x);
        PairViolationsIff(keys[1..], results, y);
        var i, j :| 0 <= i < j < |keys| - 1 && Exclusive(results, keys[1..][i], keys[1..][j])
                    && y == Violation(PAIRWISE, [keys[1..][i], keys[1..][j]]);
        assert keys[1..][i] in keys[1..];
      }
      JoinedInOrder(RowViolations(keys[0], keys[1..], results), PairViolations(keys[1..], results));
    }
  }

  lemma {:induction false} PairsArePairwise(keys: seq<string>, results: Results)
    ensures forall x <- PairViolations(keys, results) :: x.constraint == PAIRWISE
  {
    forall x <- PairViolations(keys, results) ensures x.constraint == PAIRWISE { PairViolationsIff(keys, results, x); }
  }

  /** The violations are in order and of the ranks from 1 to n. */
  ghost predicate RankedTo(xs: seq<Violation>, n: nat) {
    InOrder(xs) && forall x <- xs :: 1 <= Rank(x.constraint) <= n
  }

  lemma OneMoreRank(xs: seq<Violation>, n: nat, ys: seq<Violation>)
    requires RankedTo(xs, n) && |ys| <= 1 && forall y <- ys :: Rank(y.constraint) == n + 1
    ensures RankedTo(xs + ys, n + 1)
  {
    JoinedInOrder(xs, ys);
  }

  predicate OneOf(xs: seq<Violation>, name: Constraint) { |xs| <= 1 && forall x <- xs :: x.constraint == name }

  lemma FiveInOrder(t: seq<Violation>, u: seq<Violation>, w: seq<Violation>, y: seq<Violation>, z: seq<Violation>)
    requires OneOf(t, TENANT) && OneOf(u, TEMPORAL) && OneOf(w, SOURCE) && OneOf(y, ATTRIBUTE) && OneOf(z, AUTHORITY)
    ensures RankedTo(t + u + w + y + z, 5)
  {
    OneMoreRank([], 0, t);
    assert [] + t == t;
    OneMoreRank(t, 1, u);
    OneMoreRank(t + u, 2, w);
    OneMoreRank(t + u + w, 3, y);
    OneMoreRank(t + u + w + y, 4, z);
  }

  lemma NamedOnce(name: Constraint, pair: Option<(string, string)>, k: Option<string>, ks: seq<string>)
    ensures OneOf(Naming(name, pair), name) && OneOf(NamingOne(name, k), name) && OneOf(NamingAll(name, ks), name)
  {
  }

  lemma ConstraintsInOrder(v: Validator, c: Cluster, entities: Entities)
    ensures RankedTo(ConstraintViolations(v, c, entities), 5)
  {
    var keys := KnownKeys(c, entities);
    var outside, offenders := FirstOutside(c, keys, entities), Offenders(v, c, entities);
    var apart, repeat := FirstBadPair(keys, Disjoining(entities)), FirstRepeat(v, keys, entities);
    var against := FirstBadPair(keys, Contradicting(v, entities));
    NamedOnce(TENANT, None, outside, []);
    NamedOnce(TEMPORAL, apart, None, []);
    NamedOnce(SOURCE, repeat, None, []);
    NamedOnce(ATTRIBUTE, against, None, []);
    NamedOnce(AUTHORITY, None, None, offenders);
    FiveInOrder(NamingOne(TENANT, outside), Naming(TEMPORAL, apart), Naming(SOURCE, repeat), Naming(ATTRIBUTE, against),
                NamingAll(AUTHORITY, offenders));
  }

  /** They come in this order, each once. */
  lemma ReportedInOrder(v: Validator, c: Cluster, entities: Entities, results: seq<MatchResult>)
    ensures InOrder(AllViolations(v, c, entities, ByKey(results)))
  {
    var keys := SortedStrings(Distinct(c.members));
    PairsInOrder(keys, ByKey(results));
    PairsArePairwise(keys, ByKey(results));
    ConstraintsInOrder(v, c, entities);
    JoinedInOrder(PairViolations(keys, ByKey(results)), ConstraintViolations(v, c, entities));
  }
}
