/** Whole-membership validation and survivor selection (src/kgcs/er/cluster.py). */
module Clusters {
  import opened Wrappers
  import opened Ordering
  import opened Sequences
  import opened EntityView
  import opened Identity

  datatype Cluster = Cluster(
    clusterId: string,
    version: nat,
    graphId: string,
    entityType: string,
    members: seq<string>)
  {
    function WithMember(m: string): Cluster {
      if m in members then this else this.(members := members + [m])
    }
  }

  type Entities = map<string, NormalizedEntity>

  /** Whether each pair's result marks it mutually exclusive. */
  type Results = map<(string, string), bool>

  datatype Rule = Rule(name: string, evaluate: (NormalizedEntity, NormalizedEntity) -> seq<Signal>)

  /** The five default constraints; the last one only where a predicate is supplied. */
  datatype Validator = Validator(
    rules: seq<Rule>,
    sourceOf: NormalizedEntity -> string,
    allowMultiple: set<string>,
    clientOwned: Option<NormalizedEntity -> bool>)

  datatype MatchResult = MatchResult(left: string, right: string, exclusive: bool)

  /** What a violation is reported under: the pairwise check, and the constraints by name. */
  datatype Constraint = PAIRWISE | TENANT | TEMPORAL | SOURCE | ATTRIBUTE | AUTHORITY

  datatype Violation = Violation(constraint: Constraint, offending: seq<string>)

  datatype Validation = Validation(
    valid: bool,
    violations: seq<Violation>,
    checkedConstraints: seq<Constraint>,
    checkedPairs: nat,
    expectedPairs: nat)
  {
    predicate PairwiseComplete() { checkedPairs >= expectedPairs }
  }

  /* ---------- what is wrong with a member or a pair ---------- */

  /** Whether `a < b` is defined and true: both known, both naive or both aware. */
  predicate StrictlyBefore(a: Option<Moment>, b: Option<Moment>) {
    a.Some? && b.Some? && a.value.aware == b.value.aware && a.value.at < b.value.at
  }

  predicate Disjoint(a: NormalizedEntity, b: NormalizedEntity) {
    StrictlyBefore(a.validTo, b.validFrom) || StrictlyBefore(b.validTo, a.validFrom)
  }

  predicate Contradict(v: Validator, a: NormalizedEntity, b: NormalizedEntity) {
    exists s <- SignalsFrom(v.rules, a, b) :: s.agreement == CONTRADICT
  }

  /** Every rule's signals, in rule order. */
  function SignalsFrom(rules: seq<Rule>, a: NormalizedEntity, b: NormalizedEntity): seq<Signal> {
    if rules == [] then [] else SignalsFrom(rules[..|rules| - 1], a, b) + rules[|rules| - 1].evaluate(a, b)
  }

  method RunIdentityRules(rules: seq<Rule>, a: NormalizedEntity, b: NormalizedEntity) returns (signals: seq<Signal>)
    ensures signals == SignalsFrom(rules, a, b)
  {
    signals := [];
    for i := 0 to |rules|
      invariant signals == SignalsFrom(rules[..i], a, b)
    {
      assert rules[..i + 1][..i] == rules[..i];
      signals := signals + rules[i].evaluate(a, b);
    }
    assert rules[..|rules|] == rules;
  }

  predicate SameSource(v: Validator, a: NormalizedEntity, b: NormalizedEntity) {
    v.sourceOf(a) == v.sourceOf(b) && v.sourceOf(a) !in v.allowMultiple
  }

  predicate Foreign(c: Cluster, e: NormalizedEntity) {
    e.graphId != c.graphId || e.entityType != c.entityType
  }

  predicate Protected(v: Validator, entities: Entities, k: string) {
    v.clientOwned.Some? && k in entities && v.clientOwned.value(entities[k])
  }

  predicate Exclusive(results: Results, a: string, b: string) {
    (a, b) in results && results[(a, b)]
  }

  predicate DisjointPair(entities: Entities, a: string, b: string) {
    a in entities && b in entities && Disjoint(entities[a], entities[b])
  }

  predicate ContradictPair(v: Validator, entities: Entities, a: string, b: string) {
    a in entities && b in entities && Contradict(v, entities[a], entities[b])
  }

  predicate SourcePair(v: Validator, entities: Entities, a: string, b: string) {
    a in entities && b in entities && SameSource(v, entities[a], entities[b])
  }

  predicate PairBad(v: Validator, entities: Entities, results: Results, a: string, b: string) {
    || Exclusive(results, a, b) || Protected(v, entities, a) || Protected(v, entities, b)
    || DisjointPair(entities, a, b) || ContradictPair(v, entities, a, b) || SourcePair(v, entities, a, b)
  }

  predicate MemberBad(c: Cluster, entities: Entities, k: string) { k in entities && Foreign(c, entities[k]) }

  /** No member and no pair of different members, smaller key first, is bad. */
  ghost predicate Sound(v: Validator, c: Cluster, entities: Entities, results: Results) {
    && (forall a <- c.members :: !MemberBad(c, entities, a))
    && (forall a <- c.members, b <- c.members :: Less(a, b) ==> !PairBad(v, entities, results, a, b))
  }

  /** The results by pair; a later one for the same pair replaces an earlier one. */
  function ByKey(results: seq<MatchResult>): Results {
    if results == [] then map[]
    else
      var r := results[|results| - 1];
      ByKey(results[..|results| - 1])[(r.left, r.right) := r.exclusive]
  }

  method IndexResults(results: seq<MatchResult>) returns (byKey: Results)
    ensures byKey == ByKey(results)
  {
    byKey := map[];
    for i := 0 to |results|
      invariant byKey == ByKey(results[..i])
    {
      assert results[..i + 1][..i] == results[..i];
      byKey := byKey[(results[i].left, results[i].right) := results[i].exclusive];
    }
    assert results[..|results|] == results;
  }

  /* ---------- loops over the members ---------- */

  ghost predicate AllPairs(keys: seq<string>, bad: (string, string) -> bool) {
    forall a, b :: 0 <= a < b < |keys| ==> !bad(keys[a], keys[b])
  }

  /** The first of rest that is bad together with a. */
  function FirstPartner(a: string, rest: seq<string>, bad: (string, string) -> bool): Option<string> {
    if rest == [] then None else if bad(a, rest[0]) then Some(rest[0]) else FirstPartner(a, rest[1..], bad)
  }

  /** The first bad pair of keys, row by row. */
  function FirstBadPair(keys: seq<string>, bad: (string, string) -> bool): Option<(string, string)> {
    if keys == [] then None
    else
      match FirstPartner(keys[0], keys[1..], bad)
      case Some(b) => Some((keys[0], b))
      case None => FirstBadPair(keys[1..], bad)
  }

  lemma {:induction false} FirstPartnerIff(a: string, rest: seq<string>, bad: (string, string) -> bool)
    ensures FirstPartner(a, rest, bad) == None <==> forall b <- rest :: !bad(a, b)
    ensures FirstPartner(a, rest, bad).Some? ==>
              FirstPartner(a, rest, bad).value in rest && bad(a, FirstPartner(a, rest, bad).value)
  {
    if rest != [] { FirstPartnerIff(a, rest[1..], bad); }
  }

  lemma AllPairsSplit(keys: seq<string>, bad: (string, string) -> bool)
    requires keys != []
    ensures AllPairs(keys, bad) <==> (forall b <- keys[1..] :: !bad(keys[0], b)) && AllPairs(keys[1..], bad)
  {
    var rest := keys[1..];
    if AllPairs(keys, bad) {
      forall b <- rest ensures !bad(keys[0], b) {
        var j :| 0 <= j < |rest| && rest[j] == b;
        assert keys[j + 1] == b;
      }
      forall i, j | 0 <= i < j < |rest| ensures !bad(rest[i], rest[j]) {
        assert !bad(keys[i + 1], keys[j + 1]);
      }
    }
    if (forall b <- rest :: !bad(keys[0], b)) && AllPairs(rest, bad) {
      forall i, j | 0 <= i < j < |keys| ensures !bad(keys[i], keys[j]) {
        if i == 0 { assert rest[j - 1] in rest; } else { assert !bad(rest[i - 1], rest[j - 1]); }
      }
    }
  }

  /** There is none exactly when no pair is bad, and what is found is bad. */
  lemma {:induction false} FirstBadPairIff(keys: seq<string>, bad: (string, string) -> bool)
    ensures FirstBadPair(keys, bad) == None <==> AllPairs(keys, bad)
    ensures FirstBadPair(keys, bad).Some? ==>
              var (a, b) := FirstBadPair(keys, bad).value; a in keys && b in keys && bad(a, b)
  {
    if keys != [] {
      FirstPartnerIff(keys[0], keys[1..], bad);
      FirstBadPairIff(keys[1..], bad);
      AllPairsSplit(keys, bad);
    }
  }

  method FirstPair(keys: seq<string>, bad: (string, string) -> bool) returns (r: Option<(string, string)>)
    ensures r == FirstBadPair(keys, bad)
  {
    assert keys[0..] == keys;
    for i := 0 to |keys|
      invariant FirstBadPair(keys, bad) == FirstBadPair(keys[i..], bad)
    {
      NextSuffix(keys, i);
      for j := i + 1 to |keys|
        invariant FirstPartner(keys[i], keys[i + 1..], bad) == FirstPartner(keys[i], keys[j..], bad)
      {
        NextSuffix(keys, j);
        if bad(keys[i], keys[j]) {
          return Some((keys[i], keys[j]));
        }
      }
    }
    return None;
  }

  /** The rule a validator has unless it is given others. */
  function StrongIdentifiers(rule: StrongRule): Rule { Rule(RULE, (a, b) => Evaluated(rule, a, b)) }

  /** With that rule alone, two members contradict exactly when they hold disjoint values in a
      namespace that tells their kind of thing apart. */
  lemma StrongContradictionIff(v: Validator, rule: StrongRule, entities: Entities, a: string, b: string)
    requires v.rules == [StrongIdentifiers(rule)]
    ensures ContradictPair(v, entities, a, b) <==>
            a in entities && b in entities
            && exists namespace :: Contradicted(rule, namespace, entities[a], entities[b])
  {
    if a in entities && b in entities {
      var l, r := entities[a], entities[b];
      assert SignalsFrom(v.rules, l, r) == Evaluated(rule, l, r) by { assert v.rules[..0] == []; }
      forall s <- Evaluated(rule, l, r) | s.agreement == CONTRADICT ensures Contradicted(rule, s.namespace, l, r) {
        SignalsNameRule(rule, SortedStrings(rule.strong + rule.scoped.Keys), l, r, s);
        VerdictsIff(rule, l, r, s.namespace);
      }
      forall namespace | Contradicted(rule, namespace, l, r)
        ensures Signal(RULE, namespace, CONTRADICT) in Evaluated(rule, l, r)
      {
        VerdictsIff(rule, l, r, namespace);
      }
    }
  }

  /** Runs the identity rules and looks for a contradiction among their signals. */
  method RulesContradict(v: Validator, a: NormalizedEntity, b: NormalizedEntity) returns (r: bool)
    ensures r == Contradict(v, a, b)
  {
    var signals := RunIdentityRules(v.rules, a, b);
    r := exists s <- signals :: s.agreement == CONTRADICT;
  }

  method FirstContradiction(v: Validator, keys: seq<string>, entities: Entities) returns (r: Option<(string, string)>)
    requires forall k <- keys :: k in entities
    ensures r == FirstBadPair(keys, Contradicting(v, entities))
  {
    ghost var bad := Contradicting(v, entities);
    assert keys[0..] == keys;
    for i := 0 to |keys|
      invariant FirstBadPair(keys, bad) == FirstBadPair(keys[i..], bad)
    {
      NextSuffix(keys, i);
      for j := i + 1 to |keys|
        invariant FirstPartner(keys[i], keys[i + 1..], bad) == FirstPartner(keys[i], keys[j..], bad)
      {
        NextSuffix(keys, j);
        var contradict := RulesContradict(v, entities[keys[i]], entities[keys[j]]);
        if contradict {
          return Some((keys[i], keys[j]));
        }
      }
    }
    return None;
  }

  function Contradicting(v: Validator, entities: Entities): (string, string) -> bool {
    (a, b) => ContradictPair(v, entities, a, b)
  }

  function Disjoining(entities: Entities): (string, string) -> bool { (a, b) => DisjointPair(entities, a, b) }

  function Sharing(v: Validator, entities: Entities): (string, string) -> bool {
    (a, b) => SourcePair(v, entities, a, b)
  }

  function Excluding(results: Results): (string, string) -> bool { (a, b) => Exclusive(results, a, b) }

  /** The keys of known members, sorted. */
  function KnownKeys(c: Cluster, entities: Entities): seq<string> {
    SortedStrings(set k <- c.members | k in entities)
  }

  function SourceAt(v: Validator, entities: Entities, k: string): string
    requires k in entities
  {
    v.sourceOf(entities[k])
  }

  /** The first of keys with the source. */
  function FirstOfSource(v: Validator, keys: seq<string>, entities: Entities, source: string): (r: Option<string>)
    requires forall k <- keys :: k in entities
    ensures r == None <==> forall k <- keys :: SourceAt(v, entities, k) != source
    ensures r.Some? ==> r.value in keys && SourceAt(v, entities, r.value) == source
  {
    if keys == [] then None
    else
      var n := |keys| - 1;
      assert keys == keys[..n] + [keys[n]];
      var before := FirstOfSource(v, keys[..n], entities, source);
      if before.Some? then before else if SourceAt(v, entities, keys[n]) == source then Some(keys[n]) else None
  }

  /** The first key whose source an earlier one has, after the first that has it. */
  function FirstRepeat(v: Validator, keys: seq<string>, entities: Entities): Option<(string, string)>
    requires forall k <- keys :: k in entities
  {
    if keys == [] then None
    else
      var n := |keys| - 1;
      assert keys[n] in keys && forall k <- keys[..n] :: k in keys;
      var before, source := FirstRepeat(v, keys[..n], entities), SourceAt(v, entities, keys[n]);
      if before.Some? then before
      else if source in v.allowMultiple then None
      else
        match FirstOfSource(v, keys[..n], entities, source)
        case Some(k) => Some((k, keys[n]))
        case None => None
  }

  lemma AllPairsLast(keys: seq<string>, bad: (string, string) -> bool)
    requires keys != []
    ensures var n := |keys| - 1;
            AllPairs(keys, bad) <==> AllPairs(keys[..n], bad) && forall a <- keys[..n] :: !bad(a, keys[n])
  {
    var n := |keys| - 1;
    if AllPairs(keys, bad) {
      forall a <- keys[..n] ensures !bad(a, keys[n]) {
        var i :| 0 <= i < n && keys[..n][i] == a;
        assert !bad(keys[i], keys[n]);
      }
      forall i, j | 0 <= i < j < n ensures !bad(keys[..n][i], keys[..n][j]) { assert !bad(keys[i], keys[j]); }
    }
    if AllPairs(keys[..n], bad) && forall a <- keys[..n] :: !bad(a, keys[n]) {
      forall i, j | 0 <= i < j < |keys| ensures !bad(keys[i], keys[j]) {
        assert keys[..n][i] == keys[i] && keys[i] in keys[..n];
        if j < n { assert keys[..n][j] == keys[j]; }
      }
    }
  }

  /** There is none exactly when no two members share a source that is not exempt, and what is
      found shares one. */
  lemma {:induction false} FirstRepeatIff(v: Validator, keys: seq<string>, entities: Entities)
    requires forall k <- keys :: k in entities
    ensures FirstRepeat(v, keys, entities) == None <==> AllPairs(keys, Sharing(v, entities))
    ensures FirstRepeat(v, keys, entities).Some? ==>
              var (a, b) := FirstRepeat(v, keys, entities).value;
              a in keys && b in keys && SourcePair(v, entities, a, b)
  {
    if keys != [] {
      var n := |keys| - 1;
      assert keys[n] in keys && forall k <- keys[..n] :: k in keys;
      FirstRepeatIff(v, keys[..n], entities);
      AllPairsLast(keys, Sharing(v, entities));
    }
  }

  /** `seen` remembers who had each source first. */
  method FirstSharedSource(v: Validator, keys: seq<string>, entities: Entities) returns (r: Option<(string, string)>)
    requires forall k <- keys :: k in entities
    ensures r == FirstRepeat(v, keys, entities)
  {
    var seen: map<string, string> := map[];
    for i := 0 to |keys|
      invariant FirstRepeat(v, keys[..i], entities) == None
      invariant forall s :: s !in v.allowMultiple ==>
                  FirstOfSource(v, keys[..i], entities, s) == if s in seen then Some(seen[s]) else None
    {
      assert keys[..i + 1][..i] == keys[..i];
      var source := v.sourceOf(entities[keys[i]]);
      if source !in v.allowMultiple {
        if source in seen {
          RepeatStays(v, keys, i + 1, entities);
          return Some((seen[source], keys[i]));
        }
        seen := seen[source := keys[i]];
      }
    }
    assert keys[..|keys|] == keys;
    return None;
  }

  lemma {:induction false} RepeatStays(v: Validator, keys: seq<string>, n: nat, entities: Entities)
    requires (forall k <- keys :: k in entities) && n <= |keys| && FirstRepeat(v, keys[..n], entities).Some?
    ensures FirstRepeat(v, keys, entities) == FirstRepeat(v, keys[..n], entities)
    decreases |keys| - n
  {
    if n < |keys| {
      assert keys[..n + 1][..n] == keys[..n];
      RepeatStays(v, keys, n + 1, entities);
    } else {
      assert keys[..n] == keys;
    }
  }

  /** The first key that is not of the cluster's graph and type. */
  function FirstOutside(c: Cluster, keys: seq<string>, entities: Entities): (r: Option<string>)
    ensures r == None <==> forall k <- keys :: !MemberBad(c, entities, k)
    ensures r.Some? ==> r.value in keys && MemberBad(c, entities, r.value)
  {
    if keys == [] then None
    else if MemberBad(c, entities, keys[0]) then Some(keys[0])
    else FirstOutside(c, keys[1..], entities)
  }

  method FirstForeign(c: Cluster, keys: seq<string>, entities: Entities) returns (r: Option<string>)
    ensures r == FirstOutside(c, keys, entities)
  {
    assert keys[0..] == keys;
    for i := 0 to |keys|
      invariant FirstOutside(c, keys, entities) == FirstOutside(c, keys[i..], entities)
    {
      NextSuffix(keys, i);
      if MemberBad(c, entities, keys[i]) {
        return Some(keys[i]);
      }
    }
    return None;
  }

  /* ---------- coverage ---------- */

  function RowCount(has: (string, string) -> bool, a: string, rest: seq<string>): nat {
    if rest == [] then 0
    else RowCount(has, a, rest[..|rest| - 1]) + if has(a, rest[|rest| - 1]) then 1 else 0
  }

  /** How many of the pairs of keys have a result. */
  function PairCount(has: (string, string) -> bool, keys: seq<string>): nat {
    if keys == [] then 0
    else PairCount(has, keys[1..]) + RowCount(has, keys[0], keys[1..])
  }

  lemma {:induction false} RowCountIff(has: (string, string) -> bool, a: string, rest: seq<string>)
    ensures RowCount(has, a, rest) <= |rest|
    ensures RowCount(has, a, rest) == |rest| <==> forall b <- rest :: has(a, b)
  {
    if rest != [] {
      RowCountIff(has, a, rest[..|rest| - 1]);
      assert rest == rest[..|rest| - 1] + [rest[|rest| - 1]];
    }
  }

  function Halves(n: nat): nat { n * (n - 1) / 2 }

  lemma HalvesStep(n: nat)
    requires n > 0
    ensures Halves(n) == Halves(n - 1) + (n - 1)
  {
    assert n * (n - 1) == (n - 1) * (n - 2) + 2 * (n - 1);
  }

  /** n keys have n(n-1)/2 pairs, and all of them have a result exactly when that many do. */
  lemma {:induction false} PairCountIff(has: (string, string) -> bool, keys: seq<string>)
    ensures PairCount(has, keys) <= Halves(|keys|)
    ensures PairCount(has, keys) == Halves(|keys|) <==> forall i, j :: 0 <= i < j < |keys| ==> has(keys[i], keys[j])
  {
    if keys != [] {
      var rest := keys[1..];
      HalvesStep(|keys|);
      PairCountIff(has, rest);
      RowCountIff(has, keys[0], rest);
      if forall i, j :: 0 <= i < j < |keys| ==> has(keys[i], keys[j]) {
        forall b <- rest ensures has(keys[0], b) {
          var j :| 0 <= j < |rest| && rest[j] == b;
          assert keys[j + 1] == b;
        }
        forall i, j | 0 <= i < j < |rest| ensures has(rest[i], rest[j]) {
          assert has(keys[i + 1], keys[j + 1]);
        }
      } else if (forall b <- rest :: has(keys[0], b)) && PairCount(has, rest) == Halves(|rest|) {
        forall i, j | 0 <= i < j < |keys| ensures has(keys[i], keys[j]) {
          if i == 0 { assert rest[j - 1] in rest; } else { assert has(rest[i - 1], rest[j - 1]); }
        }
      }
    }
  }

  /** One violation for each exclusive pair of a with the rest. */
  function RowViolations(a: string, rest: seq<string>, results: Results): seq<Violation> {
    if rest == [] then []
    else
      var b := rest[|rest| - 1];
      RowViolations(a, rest[..|rest| - 1], results)
      + if Exclusive(results, a, b) then [Violation(PAIRWISE, [a, b])] else []
  }

  /** One for each exclusive pair of keys, row by row. */
  function PairViolations(keys: seq<string>, results: Results): seq<Violation> {
    if keys == [] then [] else RowViolations(keys[0], keys[1..], results) + PairViolations(keys[1..], results)
  }

  method CheckRow(a: string, rest: seq<string>, results: Results) returns (checked: nat, violations: seq<Violation>)
    ensures checked == RowCount(HasResult(results), a, rest) && violations == RowViolations(a, rest, results)
  {
    checked, violations := 0, [];
    for j := 0 to |rest|
      invariant checked == RowCount(HasResult(results), a, rest[..j])
      invariant violations == RowViolations(a, rest[..j], results)
    {
      assert rest[..j + 1][..j] == rest[..j];
      if (a, rest[j]) in results {
        checked := checked + 1;
        if results[(a, rest[j])] {
          violations := violations + [Violation(PAIRWISE, [a, rest[j]])];
        }
      }
    }
    assert rest[..|rest|] == rest;
  }

  function HasResult(results: Results): (string, string) -> bool { (a, b) => (a, b) in results }

  method CheckPairs(keys: seq<string>, results: Results) returns (checked: nat, violations: seq<Violation>)
    ensures checked == PairCount(HasResult(results), keys) && violations == PairViolations(keys, results)
  {
    checked, violations := 0, [];
    assert keys[0..] == keys;
    for i := 0 to |keys|
      invariant PairCount(HasResult(results), keys) == checked + PairCount(HasResult(results), keys[i..])
      invariant PairViolations(keys, results) == violations + PairViolations(keys[i..], results)
    {
      NextSuffix(keys, i);
      var n, more := CheckRow(keys[i], keys[i + 1..], results);
      Regrouped(violations, more, PairViolations(keys[i + 1..], results));
      checked, violations := checked + n, violations + more;
    }
  }

  lemma {:induction false} RowViolationsHas(a: string, rest: seq<string>, results: Results, x: Violation)
    ensures x in RowViolations(a, rest, results) <==>
            exists b <- rest :: Exclusive(results, a, b) && x == Violation(PAIRWISE, [a, b])
  {
    if rest != [] {
      RowViolationsHas(a, rest[..|rest| - 1], results, x);
      assert rest == rest[..|rest| - 1] + [rest[|rest| - 1]];
    }
  }

  /** The pair is reported somewhere in the keys' rows. */
  ghost predicate IsPairOf(keys: seq<string>, results: Results, x: Violation) {
    exists i, j :: 0 <= i < j < |keys| && Exclusive(results, keys[i], keys[j])
                   && x == Violation(PAIRWISE, [keys[i], keys[j]])
  }

  lemma PairIsInRow(keys: seq<string>, results: Results, x: Violation)
    requires keys != [] && IsPairOf(keys, results, x)
    ensures x in RowViolations(keys[0], keys[1..], results) || IsPairOf(keys[1..], results, x)
  {
    var rest := keys[1..];
    RowViolationsHas(keys[0], rest, results, x);
    var i, j :| 0 <= i < j < |keys| && Exclusive(results, keys[i], keys[j])
                && x == Violation(PAIRWISE, [keys[i], keys[j]]);
    assert keys[j] == rest[j - 1] && rest[j - 1] in rest;
    if i > 0 { assert keys[i] == rest[i - 1]; }
  }

  lemma RowHoldsPairs(keys: seq<string>, results: Results, x: Violation)
    requires keys != []
    requires x in RowViolations(keys[0], keys[1..], results) || IsPairOf(keys[1..], results, x)
    ensures IsPairOf(keys, results, x)
  {
    var rest := keys[1..];
    if IsPairOf(rest, results, x) {
      var i, j :| 0 <= i < j < |rest| && Exclusive(results, rest[i], rest[j])
                  && x == Violation(PAIRWISE, [rest[i], rest[j]]);
      assert keys[i + 1] == rest[i] && keys[j + 1] == rest[j];
    } else {
      RowViolationsHas(keys[0], rest, results, x);
      var b :| b in rest && Exclusive(results, keys[0], b) && x == Violation(PAIRWISE, [keys[0], b]);
      var j :| 0 <= j < |rest| && rest[j] == b;
      assert keys[j + 1] == b;
    }
  }

  /** Exactly the exclusive pairs are reported. */
  lemma {:induction false} PairViolationsIff(keys: seq<string>, results: Results, x: Violation)
    ensures x in PairViolations(keys, results) <==> IsPairOf(keys, results, x)
  {
    if keys != [] {
      PairViolationsIff(keys[1..], results, x);
      if IsPairOf(keys, results, x) { PairIsInRow(keys, results, x); }
      if x in PairViolations(keys, results) { RowHoldsPairs(keys, results, x); }
    }
  }

  /* ---------- the constraints ---------- */

  function Distinct(members: seq<string>): set<string> { set m <- members }

  /** More than one member, and one of them protected. */
  predicate AuthorityFails(v: Validator, c: Cluster, entities: Entities) {
    |Distinct(c.members)| > 1 && exists k <- c.members :: Protected(v, entities, k)
  }

  /** The protected members of a real merge, sorted. */
  function Offenders(v: Validator, c: Cluster, entities: Entities): seq<string> {
    if |Distinct(c.members)| <= 1 then [] else SortedStrings(set k <- c.members | Protected(v, entities, k))
  }

  lemma OffendersIff(v: Validator, c: Cluster, entities: Entities)
    ensures Offenders(v, c, entities) == [] <==> !AuthorityFails(v, c, entities)
    ensures AuthorityFails(v, c, entities) ==>
              forall k :: k in Offenders(v, c, entities) <==> k in c.members && Protected(v, entities, k)
  {
    var protected := SortedStrings(set k <- c.members | Protected(v, entities, k));
    assert forall k :: k in protected <==> k in c.members && Protected(v, entities, k);
    NonEmpty(protected);
  }

  /** No constraint fails, on the sorted known members. */
  ghost predicate ConstraintsHold(v: Validator, c: Cluster, entities: Entities) {
    var keys := KnownKeys(c, entities);
    && (forall k <- keys :: !MemberBad(c, entities, k))
    && AllPairs(keys, Disjoining(entities))
    && AllPairs(keys, Sharing(v, entities))
    && AllPairs(keys, Contradicting(v, entities))
    && !AuthorityFails(v, c, entities)
  }

  function Naming(name: Constraint, pair: Option<(string, string)>): seq<Violation> {
    if pair.Some? then [Violation(name, [pair.value.0, pair.value.1])] else []
  }

  function NamingOne(name: Constraint, k: Option<string>): seq<Violation> {
    if k.Some? then [Violation(name, [k.value])] else []
  }

  function NamingAll(name: Constraint, ks: seq<string>): seq<Violation> {
    if ks == [] then [] else [Violation(name, ks)]
  }

  /** What the constraints report, in their order: the first offenders of each. */
  function ConstraintViolations(v: Validator, c: Cluster, entities: Entities): seq<Violation> {
    var keys := KnownKeys(c, entities);
    NamingOne(TENANT, FirstOutside(c, keys, entities))
    + Naming(TEMPORAL, FirstBadPair(keys, Disjoining(entities)))
    + Naming(SOURCE, FirstRepeat(v, keys, entities))
    + Naming(ATTRIBUTE, FirstBadPair(keys, Contradicting(v, entities)))
    + NamingAll(AUTHORITY, Offenders(v, c, entities))
  }

  lemma NoConstraintViolatedIff(v: Validator, c: Cluster, entities: Entities)
    ensures ConstraintViolations(v, c, entities) == [] <==> ConstraintsHold(v, c, entities)
  {
    var keys := KnownKeys(c, entities);
    FirstBadPairIff(keys, Disjoining(entities));
    FirstBadPairIff(keys, Contradicting(v, entities));
    FirstRepeatIff(v, keys, entities);
    OffendersIff(v, c, entities);
  }

  /** The authority constraint is there only where a predicate is, and without one it reports
      nothing. */
  method CheckConstraints(v: Validator, c: Cluster, entities: Entities)
    returns (names: seq<Constraint>, violations: seq<Violation>)
    ensures names == ConstraintNames(v)
    ensures violations == ConstraintViolations(v, c, entities)
  {
    var keys := KnownKeys(c, entities);
    var outside := FirstForeign(c, keys, entities);
    var disjoint := FirstPair(keys, Disjoining(entities));
    var source := FirstSharedSource(v, keys, entities);
    var contradiction := FirstContradiction(v, keys, entities);
    names := [TENANT, TEMPORAL, SOURCE, ATTRIBUTE];
    violations := NamingOne(TENANT, outside) + Naming(TEMPORAL, disjoint) + Naming(SOURCE, source)
      + Naming(ATTRIBUTE, contradiction);
    OffendersIff(v, c, entities);
    if v.clientOwned.Some? {
      names := names + [AUTHORITY];
      violations := violations + NamingAll(AUTHORITY, Offenders(v, c, entities));
    }
  }

  function ConstraintNames(v: Validator): seq<Constraint> {
    [TENANT, TEMPORAL, SOURCE, ATTRIBUTE] + if v.clientOwned.Some? then [AUTHORITY] else []
  }

  /* ---------- the verdict ---------- */

  lemma AscendingPairs(s: set<string>, keys: seq<string>, bad: (string, string) -> bool)
    requires Ascending(Leq, keys) && forall k :: k in keys <==> k in s
    ensures AllPairs(keys, bad) <==> forall a <- s, b <- s :: Less(a, b) ==> !bad(a, b)
  {
    if AllPairs(keys, bad) {
      forall a <- s, b <- s | Less(a, b) ensures !bad(a, b) {
        var i :| 0 <= i < |keys| && keys[i] == a;
        var j :| 0 <= j < |keys| && keys[j] == b;
        if j <= i { LeqAntisymmetric(a, b); }
      }
    } else {
      var i, j :| 0 <= i < j < |keys| && bad(keys[i], keys[j]);
      assert keys[i] in keys && keys[j] in keys;
    }
  }

  /** Pairs of members are bad in the way a constraint tests, or not at all. */
  lemma KnownPairs(c: Cluster, entities: Entities, bad: (string, string) -> bool)
    requires forall a, b :: bad(a, b) ==> a in entities && b in entities
    ensures AllPairs(KnownKeys(c, entities), bad) <==>
            forall a <- c.members, b <- c.members :: Less(a, b) ==> !bad(a, b)
  {
    AscendingPairs((set k <- c.members | k in entities), KnownKeys(c, entities), bad);
  }

  predicate ProtectedPair(v: Validator, entities: Entities, a: string, b: string) {
    Protected(v, entities, a) || Protected(v, entities, b)
  }

  lemma AuthorityIff(v: Validator, c: Cluster, entities: Entities)
    ensures AuthorityFails(v, c, entities) <==>
            exists a <- c.members, b <- c.members :: Less(a, b) && ProtectedPair(v, entities, a, b)
  {
    var all := Distinct(c.members);
    if AuthorityFails(v, c, entities) {
      var k :| k in c.members && Protected(v, entities, k);
      assert |all - {k}| > 0;
      var o :| o in all - {k};
      LeqTotal(o, k);
      assert if Leq(o, k) then Less(o, k) && ProtectedPair(v, entities, o, k)
             else Less(k, o) && ProtectedPair(v, entities, k, o);
    }
    if a, b :| a in c.members && b in c.members && Less(a, b) && ProtectedPair(v, entities, a, b) {
      assert {a, b} <= all && |{a, b}| == 2;
      SubsetSize({a, b}, all);
    }
  }

  lemma {:induction false} SubsetSize(s: set<string>, t: set<string>)
    requires s <= t
    ensures |s| <= |t|
  {
    if s != {} {
      var x :| x in s;
      SubsetSize(s - {x}, t - {x});
    }
  }

  lemma ConstraintsIff(v: Validator, c: Cluster, entities: Entities)
    ensures ConstraintsHold(v, c, entities) <==>
            && (forall a <- c.members :: !MemberBad(c, entities, a))
            && (forall a <- c.members, b <- c.members :: Less(a, b) ==>
                  !DisjointPair(entities, a, b) && !SourcePair(v, entities, a, b) && !ContradictPair(v, entities, a, b)
                  && !ProtectedPair(v, entities, a, b))
  {
    KnownPairs(c, entities, Disjoining(entities));
    KnownPairs(c, entities, Sharing(v, entities));
    KnownPairs(c, entities, Contradicting(v, entities));
    AuthorityIff(v, c, entities);
    assert forall k :: k in KnownKeys(c, entities) <==> k in c.members && k in entities;
  }

  lemma NoPairViolatedIff(keys: seq<string>, results: Results)
    ensures PairViolations(keys, results) == [] <==> AllPairs(keys, Excluding(results))
  {
    var violations := PairViolations(keys, results);
    if violations != [] {
      PairViolationsIff(keys, results, violations[0]);
    } else {
      forall i, j | 0 <= i < j < |keys| ensures !Exclusive(results, keys[i], keys[j]) {
        PairViolationsIff(keys, results, Violation(PAIRWISE, [keys[i], keys[j]]));
      }
    }
  }

  ghost predicate Covered(members: seq<string>, results: Results) {
    forall a <- members, b <- members :: Less(a, b) ==> (a, b) in results
  }

  lemma CoverageIff(members: seq<string>, keys: seq<string>, results: Results)
    requires Ascending(Leq, keys) && forall k :: k in keys <==> k in members
    ensures PairCount(HasResult(results), keys) >= Halves(|keys|) <==> Covered(members, results)
  {
    PairCountIff(HasResult(results), keys);
    AscendingPairs(Distinct(members), keys, (a, b) => (a, b) !in results);
  }

  lemma SoundIff(v: Validator, c: Cluster, entities: Entities, results: Results)
    ensures Sound(v, c, entities, results) <==>
            && PairViolations(SortedStrings(Distinct(c.members)), results) == []
            && ConstraintViolations(v, c, entities) == []
  {
    var keys := SortedStrings(Distinct(c.members));
    NoPairViolatedIff(keys, results);
    AscendingPairs(Distinct(c.members), keys, Excluding(results));
    NoConstraintViolatedIff(v, c, entities);
    ConstraintsIff(v, c, entities);
  }

  /** All that is reported: every exclusive pair, then the first offenders of each constraint. */
  function AllViolations(v: Validator, c: Cluster, entities: Entities, results: Results): seq<Violation> {
    PairViolations(SortedStrings(Distinct(c.members)), results) + ConstraintViolations(v, c, entities)
  }

  /** The cluster is valid exactly when no member and no pair of members is bad; the violations
      are all there are to report, in order; coverage is complete exactly when every pair has a
      result. */
  method Validate(v: Validator, c: Cluster, entities: Entities, results: seq<MatchResult>) returns (r: Validation)
    ensures r.valid <==> Sound(v, c, entities, ByKey(results))
    ensures r.valid <==> r.violations == []
    ensures r.violations == AllViolations(v, c, entities, ByKey(results))
    ensures r.checkedConstraints == ConstraintNames(v)
    ensures r.PairwiseComplete() <==> Covered(c.members, ByKey(results))
    ensures r.expectedPairs == Halves(|Distinct(c.members)|)
  {
    SoundIff(v, c, entities, ByKey(results));
    var byKey := IndexResults(results);
    var members := SortedStrings(Distinct(c.members));
    var checked, violations := CheckPairs(members, byKey);
    CoverageIff(c.members, members, byKey);
    var names, more := CheckConstraints(v, c, entities);
    var all := violations + more;
    r := Validation(all == [], all, names, checked, Halves(|members|));
  }

  /** The members a violation names really break what it says. */
  predicate Justified(v: Validator, c: Cluster, entities: Entities, results: Results, x: Violation) {
    && (forall k <- x.offending :: k in c.members)
    && (x.constraint == PAIRWISE ==> |x.offending| == 2 && Exclusive(results, x.offending[0], x.offending[1]))
    && (x.constraint == TENANT ==> |x.offending| == 1 && MemberBad(c, entities, x.offending[0]))
    && (x.constraint == TEMPORAL ==> |x.offending| == 2 && DisjointPair(entities, x.offending[0], x.offending[1]))
    && (x.constraint == SOURCE ==> |x.offending| == 2 && SourcePair(v, entities, x.offending[0], x.offending[1]))
    && (x.constraint == ATTRIBUTE ==> |x.offending| == 2 && ContradictPair(v, entities, x.offending[0], x.offending[1]))
    && (x.constraint == AUTHORITY ==>
          AuthorityFails(v, c, entities) && forall k <- c.members :: Protected(v, entities, k) ==> k in x.offending)
  }

  lemma ExclusionIsJustified(v: Validator, c: Cluster, entities: Entities, results: Results, x: Violation)
    requires x in PairViolations(SortedStrings(Distinct(c.members)), results)
    ensures Justified(v, c, entities, results, x)
  {
    var members := SortedStrings(Distinct(c.members));
    PairViolationsIff(members, results, x);
    var i, j :| 0 <= i < j < |members| && Exclusive(results, members[i], members[j])
                && x == Violation(PAIRWISE, [members[i], members[j]]);
    assert members[i] in members && members[j] in members;
  }

  lemma KnownAreMembers(c: Cluster, entities: Entities)
    ensures forall k :: k in KnownKeys(c, entities) <==> k in c.members && k in entities
  {
  }

  lemma DisjointIsJustified(v: Validator, c: Cluster, entities: Entities, results: Results, x: Violation)
    requires x in Naming(TEMPORAL, FirstBadPair(KnownKeys(c, entities), Disjoining(entities)))
    ensures Justified(v, c, entities, results, x)
  {
    FirstBadPairIff(KnownKeys(c, entities), Disjoining(entities));
    KnownAreMembers(c, entities);
  }

  lemma ContradictionIsJustified(v: Validator, c: Cluster, entities: Entities, results: Results, x: Violation)
    requires x in Naming(ATTRIBUTE, FirstBadPair(KnownKeys(c, entities), Contradicting(v, entities)))
    ensures Justified(v, c, entities, results, x)
  {
    FirstBadPairIff(KnownKeys(c, entities), Contradicting(v, entities));
    KnownAreMembers(c, entities);
  }

  lemma RepeatIsJustified(v: Validator, c: Cluster, entities: Entities, results: Results, x: Violation)
    requires x in Naming(SOURCE, FirstRepeat(v, KnownKeys(c, entities), entities))
    ensures Justified(v, c, entities, results, x)
  {
    FirstRepeatIff(v, KnownKeys(c, entities), entities);
    KnownAreMembers(c, entities);
  }

  lemma OutsiderIsJustified(v: Validator, c: Cluster, entities: Entities, results: Results, x: Violation)
    requires x in NamingOne(TENANT, FirstOutside(c, KnownKeys(c, entities), entities))
    ensures Justified(v, c, entities, results, x)
  {
    KnownAreMembers(c, entities);
  }

  lemma OffendersAreJustified(v: Validator, c: Cluster, entities: Entities, results: Results, x: Violation)
    requires x in NamingAll(AUTHORITY, Offenders(v, c, entities))
    ensures Justified(v, c, entities, results, x)
  {
    OffendersIff(v, c, entities);
  }

  /** Every violation reported is justified. */
  lemma ViolationsAreJustified(v: Validator, c: Cluster, entities: Entities, results: Results, x: Violation)
    requires x in AllViolations(v, c, entities, results)
    ensures Justified(v, c, entities, results, x)
  {
    var keys := KnownKeys(c, entities);
    if x in PairViolations(SortedStrings(Distinct(c.members)), results) {
      ExclusionIsJustified(v, c, entities, results, x);
    } else if x in NamingOne(TENANT, FirstOutside(c, keys, entities)) {
      OutsiderIsJustified(v, c, entities, results, x);
    } else if x in Naming(SOURCE, FirstRepeat(v, keys, entities)) {
      RepeatIsJustified(v, c, entities, results, x);
    } else if x in NamingAll(AUTHORITY, Offenders(v, c, entities)) {
      OffendersAreJustified(v, c, entities, results, x);
    } else if x in Naming(TEMPORAL, FirstBadPair(keys, Disjoining(entities))) {
      DisjointIsJustified(v, c, entities, results, x);
    } else {
      ContradictionIsJustified(v, c, entities, results, x);
    }
  }

  lemma AdditionIsHarder(v: Validator, c: Cluster, m: string, entities: Entities, results: Results)
    requires Sound(v, c.WithMember(m), entities, results)
    ensures Sound(v, c, entities, results)
  {
    SoundIsHereditary(v, c.WithMember(m), c.members, entities, results);
    assert c.WithMember(m).(members := c.members) == c;
  }

  /** What the verdict would be with one member more; a rejected cluster stays rejected. */
  method ValidateAddition(v: Validator, c: Cluster, m: string, entities: Entities, results: seq<MatchResult>)
    returns (r: Validation)
    ensures r.valid <==> Sound(v, c.WithMember(m), entities, ByKey(results))
    ensures r.valid ==> Sound(v, c, entities, ByKey(results))
  {
    r := Validate(v, c.WithMember(m), entities, results);
    if r.valid { AdditionIsHarder(v, c, m, entities, ByKey(results)); }
  }

  /** A membership is sound exactly when every choice of one or two of its members is. */
  lemma SoundIffPairsAre(v: Validator, c: Cluster, entities: Entities, results: Results)
    ensures Sound(v, c, entities, results) <==>
            forall a <- c.members, b <- c.members :: Sound(v, c.(members := [a, b]), entities, results)
  {
    if forall a <- c.members, b <- c.members :: Sound(v, c.(members := [a, b]), entities, results) {
      forall a <- c.members ensures !MemberBad(c, entities, a) {
        assert Sound(v, c.(members := [a, a]), entities, results) && a in [a, a];
        assert !MemberBad(c.(members := [a, a]), entities, a);
      }
      forall a <- c.members, b <- c.members | Less(a, b) ensures !PairBad(v, entities, results, a, b) {
        assert Sound(v, c.(members := [a, b]), entities, results) && a in [a, b] && b in [a, b];
      }
    } else {
      var a, b :| a in c.members && b in c.members && !Sound(v, c.(members := [a, b]), entities, results);
      assert forall k :: k in [a, b] ==> k in c.members;
      assert forall k :: MemberBad(c.(members := [a, b]), entities, k) == MemberBad(c, entities, k);
    }
  }

  /** Fewer members, in any order and with any repeats, of a sound membership are sound: adding
      members never repairs a rejected cluster. */
  lemma SoundIsHereditary(v: Validator, c: Cluster, fewer: seq<string>, entities: Entities, results: Results)
    requires Sound(v, c, entities, results) && forall k <- fewer :: k in c.members
    ensures Sound(v, c.(members := fewer), entities, results)
  {
    assert forall k :: MemberBad(c.(members := fewer), entities, k) == MemberBad(c, entities, k);
  }

  /** The order of the members and their repeats do not matter. */
  lemma OrderDoesNotMatter(v: Validator, c: Cluster, others: seq<string>, entities: Entities, results: Results)
    requires forall k :: k in c.members <==> k in others
    ensures Sound(v, c, entities, results) <==> Sound(v, c.(members := others), entities, results)
  {
    assert forall k :: MemberBad(c.(members := others), entities, k) == MemberBad(c, entities, k);
  }
}
