/** The strong-identifier rule (src/kgcs/er/normalize.py): what two entities' identifiers say
    about whether they are the same. */
module Identity {
  import opened Wrappers
  import opened Ordering
  import opened EntityView

  datatype Agreement = AGREE | CONTRADICT | UNKNOWN

  datatype Signal = Signal(rule: string, namespace: string, agreement: Agreement)

  /** The entity types a namespace identifies, and whether disjoint values tell two apart. */
  datatype Scope = Scope(subjects: set<string>, contradicts: bool)

  /** `fold` normalises an entity type; the subjects are stored normalised. */
  datatype StrongRule = StrongRule(fold: string -> string, strong: set<string>, scoped: map<string, Scope>)

  const RULE: string := "shared_strong_identifier"

  function Values(e: NormalizedEntity, namespace: string): set<string> {
    if namespace in e.identifiers then set v <- e.identifiers[namespace] else {}
  }

  function Names(rule: StrongRule, scope: Scope, left: NormalizedEntity, right: NormalizedEntity): bool {
    rule.fold(left.entityType) in scope.subjects && rule.fold(right.entityType) in scope.subjects
  }

  /** The namespace's scope; an explicitly strong namespace has none. */
  function ScopeOf(rule: StrongRule, namespace: string): Option<Scope> {
    if namespace in rule.scoped && namespace !in rule.strong then Some(rule.scoped[namespace]) else None
  }

  function SignalOf(rule: StrongRule, namespace: string, left: NormalizedEntity, right: NormalizedEntity): seq<Signal> {
    var l, r, scope := Values(left, namespace), Values(right, namespace), ScopeOf(rule, namespace);
    if l == {} || r == {} then []
    else if scope.Some? && !Names(rule, scope.value, left, right) then [Signal(RULE, namespace, UNKNOWN)]
    else if l * r != {} then [Signal(RULE, namespace, AGREE)]
    else if scope.Some? && !scope.value.contradicts then [Signal(RULE, namespace, UNKNOWN)]
    else [Signal(RULE, namespace, CONTRADICT)]
  }

  function SignalsOf(rule: StrongRule, namespaces: seq<string>, left: NormalizedEntity,
                     right: NormalizedEntity): seq<Signal> {
    if namespaces == [] then []
    else
      SignalsOf(rule, namespaces[..|namespaces| - 1], left, right)
      + SignalOf(rule, namespaces[|namespaces| - 1], left, right)
  }

  function Evaluated(rule: StrongRule, left: NormalizedEntity, right: NormalizedEntity): seq<Signal> {
    SignalsOf(rule, SortedStrings(rule.strong + rule.scoped.Keys), left, right)
  }

  method EvaluateEach(rule: StrongRule, namespaces: seq<string>, left: NormalizedEntity,
                      right: NormalizedEntity) returns (signals: seq<Signal>)
    ensures signals == SignalsOf(rule, namespaces, left, right)
  {
    signals := [];
    for i := 0 to |namespaces|
      invariant signals == SignalsOf(rule, namespaces[..i], left, right)
    {
      assert namespaces[..i + 1][..i] == namespaces[..i];
      var more := SignalOf(rule, namespaces[i], left, right);
      signals := signals + more;
    }
    assert namespaces[..|namespaces|] == namespaces;
  }

  method Evaluate(rule: StrongRule, left: NormalizedEntity, right: NormalizedEntity) returns (signals: seq<Signal>)
    ensures signals == Evaluated(rule, left, right)
  {
    signals := EvaluateEach(rule, SortedStrings(rule.strong + rule.scoped.Keys), left, right);
  }

  /** The two sides hold disjoint values in a namespace that tells their kind of thing apart. */
  predicate Contradicted(rule: StrongRule, namespace: string, left: NormalizedEntity, right: NormalizedEntity) {
    && Values(left, namespace) != {} && Values(right, namespace) != {}
    && Values(left, namespace) * Values(right, namespace) == {}
    && (namespace in rule.strong
        || (namespace in rule.scoped && Names(rule, rule.scoped[namespace], left, right)
            && rule.scoped[namespace].contradicts))
  }

  predicate Agreed(rule: StrongRule, namespace: string, left: NormalizedEntity, right: NormalizedEntity) {
    && Values(left, namespace) * Values(right, namespace) != {}
    && (namespace in rule.strong || (namespace in rule.scoped && Names(rule, rule.scoped[namespace], left, right)))
  }

  lemma {:induction false} SignalComesFrom(rule: StrongRule, namespaces: seq<string>, left: NormalizedEntity,
                                           right: NormalizedEntity, s: Signal)
    ensures s in SignalsOf(rule, namespaces, left, right) <==>
            s.namespace in namespaces && s in SignalOf(rule, s.namespace, left, right)
  {
    if namespaces != [] {
      var n := |namespaces| - 1;
      SignalComesFrom(rule, namespaces[..n], left, right, s);
      assert namespaces == namespaces[..n] + [namespaces[n]];
    }
  }

  lemma OneVerdictIff(rule: StrongRule, namespace: string, left: NormalizedEntity, right: NormalizedEntity)
    requires namespace in rule.strong || namespace in rule.scoped
    ensures SignalOf(rule, namespace, left, right) == [Signal(RULE, namespace, CONTRADICT)] <==>
            Contradicted(rule, namespace, left, right)
    ensures SignalOf(rule, namespace, left, right) == [Signal(RULE, namespace, AGREE)] <==>
            Agreed(rule, namespace, left, right)
  {
  }

  lemma SignalShape(rule: StrongRule, namespace: string, left: NormalizedEntity, right: NormalizedEntity, a: Agreement)
    ensures Signal(RULE, namespace, a) in SignalOf(rule, namespace, left, right) <==>
            SignalOf(rule, namespace, left, right) == [Signal(RULE, namespace, a)]
  {
  }

  lemma VerdictIsThere(rule: StrongRule, left: NormalizedEntity, right: NormalizedEntity, namespace: string,
                       a: Agreement)
    ensures Signal(RULE, namespace, a) in Evaluated(rule, left, right) <==>
            (namespace in rule.strong || namespace in rule.scoped)
            && SignalOf(rule, namespace, left, right) == [Signal(RULE, namespace, a)]
  {
    SignalComesFrom(rule, SortedStrings(rule.strong + rule.scoped.Keys), left, right, Signal(RULE, namespace, a));
    SignalShape(rule, namespace, left, right, a);
  }

  /** The rule's verdicts mean what they say, in both directions. */
  lemma VerdictsIff(rule: StrongRule, left: NormalizedEntity, right: NormalizedEntity, namespace: string)
    ensures Signal(RULE, namespace, CONTRADICT) in Evaluated(rule, left, right) <==>
            Contradicted(rule, namespace, left, right)
    ensures Signal(RULE, namespace, AGREE) in Evaluated(rule, left, right) <==> Agreed(rule, namespace, left, right)
  {
    VerdictIsThere(rule, left, right, namespace, CONTRADICT);
    VerdictIsThere(rule, left, right, namespace, AGREE);
    if namespace in rule.strong || namespace in rule.scoped { OneVerdictIff(rule, namespace, left, right); }
  }

  lemma SignalsNameRule(rule: StrongRule, namespaces: seq<string>, left: NormalizedEntity, right: NormalizedEntity,
                        s: Signal)
    requires s in SignalsOf(rule, namespaces, left, right)
    ensures s == Signal(RULE, s.namespace, s.agreement)
  {
    SignalComesFrom(rule, namespaces, left, right, s);
  }

  predicate HasValue(e: NormalizedEntity, namespace: string) {
    namespace in e.identifiers && e.identifiers[namespace] != []
  }

  predicate SharesValue(left: NormalizedEntity, right: NormalizedEntity, namespace: string) {
    && HasValue(left, namespace) && HasValue(right, namespace)
    && exists v :: v in left.identifiers[namespace] && v in right.identifiers[namespace]
  }

  /** Both are of a type the namespace identifies. */
  predicate BothNamed(rule: StrongRule, scope: Scope, left: NormalizedEntity, right: NormalizedEntity) {
    rule.fold(left.entityType) in scope.subjects && rule.fold(right.entityType) in scope.subjects
  }

  lemma ValuesAre(e: NormalizedEntity, namespace: string)
    ensures Values(e, namespace) == {} <==> !HasValue(e, namespace)
    ensures forall v :: v in Values(e, namespace) <==> HasValue(e, namespace) && v in e.identifiers[namespace]
  {
    if HasValue(e, namespace) { assert e.identifiers[namespace][0] in Values(e, namespace); }
  }

  lemma SharedIff(left: NormalizedEntity, right: NormalizedEntity, namespace: string)
    ensures Values(left, namespace) * Values(right, namespace) != {} <==> SharesValue(left, right, namespace)
  {
    ValuesAre(left, namespace);
    ValuesAre(right, namespace);
    var shared := Values(left, namespace) * Values(right, namespace);
    if shared != {} {
      var v :| v in shared;
      assert v in left.identifiers[namespace] && v in right.identifiers[namespace];
    }
    if SharesValue(left, right, namespace) {
      var v :| v in left.identifiers[namespace] && v in right.identifiers[namespace];
      assert v in shared;
    }
  }

  /** A shared value agrees and disjoint ones contradict, but in a scoped namespace only between
      types it identifies, and there disjoint values contradict only where the scope says so;
      otherwise nothing is known. */
  function Verdict(rule: StrongRule, left: NormalizedEntity, right: NormalizedEntity, namespace: string): Agreement
    requires namespace in rule.strong || namespace in rule.scoped
  {
    if namespace !in rule.strong && !BothNamed(rule, rule.scoped[namespace], left, right) then UNKNOWN
    else if SharesValue(left, right, namespace) then AGREE
    else if namespace in rule.strong || rule.scoped[namespace].contradicts then CONTRADICT
    else UNKNOWN
  }

  lemma OneSignal(rule: StrongRule, left: NormalizedEntity, right: NormalizedEntity, namespace: string)
    requires namespace in rule.strong || namespace in rule.scoped
    ensures SignalOf(rule, namespace, left, right) ==
            if HasValue(left, namespace) && HasValue(right, namespace)
            then [Signal(RULE, namespace, Verdict(rule, left, right, namespace))] else []
  {
    ValuesAre(left, namespace);
    ValuesAre(right, namespace);
    SharedIff(left, right, namespace);
  }

  /** When each verdict is signalled, told from the identifiers: only for a namespace the rule
      knows and both sides have values in. */
  lemma SignalIff(rule: StrongRule, left: NormalizedEntity, right: NormalizedEntity, namespace: string, a: Agreement)
    ensures Signal("shared_strong_identifier", namespace, a) in Evaluated(rule, left, right) <==>
            && (namespace in rule.strong || namespace in rule.scoped)
            && HasValue(left, namespace) && HasValue(right, namespace) && a == Verdict(rule, left, right, namespace)
  {
    VerdictIsThere(rule, left, right, namespace, a);
    if namespace in rule.strong || namespace in rule.scoped { OneSignal(rule, left, right, namespace); }
  }

  /** The verdicts do not depend on which side is which. */
  lemma {:induction false} VerdictsAreSymmetric(rule: StrongRule, namespaces: seq<string>, left: NormalizedEntity,
                                                right: NormalizedEntity)
    ensures SignalsOf(rule, namespaces, left, right) == SignalsOf(rule, namespaces, right, left)
  {
    if namespaces != [] {
      VerdictsAreSymmetric(rule, namespaces[..|namespaces| - 1], left, right);
      var n := namespaces[|namespaces| - 1];
      assert Values(left, n) * Values(right, n) == Values(right, n) * Values(left, n);
    }
  }
}
