/** Candidate pairs for matching (src/kgcs/er/blocking.py): a bucket index per channel, which
    finds the pairs a comparison of every two entities would. */
module Blocking {
  import opened Wrappers
  import opened Ordering
  import opened Sequences
  import opened EntityView

  datatype Channel = Channel(name: string, blockKeys: NormalizedEntity -> seq<string>)

  datatype Producer = Producer(name: string, pairs: seq<NormalizedEntity> -> seq<(string, string)>)

  datatype Pipeline = Pipeline(channels: seq<Channel>, producers: seq<Producer>, maxBlockSize: Option<int>)

  datatype CandidatePair = CandidatePair(left: string, right: string, channels: seq<string>)

  /** The channels found so far for each ordered pair. */
  type Provenance = map<(string, string), set<string>>

  /* ---------- the definition ---------- */

  /** How many times the entity files itself under the key. */
  function Filed(keys: seq<string>, key: string, sourceKey: string): seq<string> {
    if keys == [] then []
    else Filed(keys[..|keys| - 1], key, sourceKey) + if keys[|keys| - 1] == key then [sourceKey] else []
  }

  /** The members of the block, in order and with repeats. */
  function Members(ch: Channel, entities: seq<NormalizedEntity>, key: string): seq<string> {
    if entities == [] then []
    else
      var e := entities[|entities| - 1];
      Members(ch, entities[..|entities| - 1], key) + Filed(ch.blockKeys(e), key, e.sourceKey)
  }

  predicate WithinCap(cap: Option<int>, size: nat) { cap.Some? ==> size <= cap.value }

  /** Two entities have a block key in common whose block is within the cap. */
  ghost predicate Shared(ch: Channel, entities: seq<NormalizedEntity>, cap: Option<int>, a: string, b: string) {
    exists key, x, y ::
      && x in entities && y in entities && x.sourceKey == a && y.sourceKey == b
      && key in ch.blockKeys(x) && key in ch.blockKeys(y) && WithinCap(cap, |Members(ch, entities, key)|)
  }

  ghost predicate FromChannel(chs: seq<Channel>, entities: seq<NormalizedEntity>, cap: Option<int>, a: string,
                              b: string, name: string) {
    exists ch <- chs :: ch.name == name && Shared(ch, entities, cap, a, b)
  }

  ghost predicate FromProducer(ps: seq<Producer>, entities: seq<NormalizedEntity>, a: string, b: string, name: string) {
    exists p <- ps :: p.name == name && ((a, b) in p.pairs(entities) || (b, a) in p.pairs(entities))
  }

  /** The pair of different keys a, b is proposed under this name. */
  ghost predicate Proposed(p: Pipeline, entities: seq<NormalizedEntity>, a: string, b: string, name: string) {
    a != b && (FromChannel(p.channels, entities, p.maxBlockSize, a, b, name)
               || FromProducer(p.producers, entities, a, b, name))
  }

  /* ---------- buckets ---------- */

  lemma {:induction false} FiledHas(keys: seq<string>, key: string, sourceKey: string, s: string)
    ensures s in Filed(keys, key, sourceKey) <==> s == sourceKey && key in keys
  {
    if keys != [] {
      FiledHas(keys[..|keys| - 1], key, sourceKey, s);
      assert keys == keys[..|keys| - 1] + [keys[|keys| - 1]];
    }
  }

  lemma {:induction false} MembersHas(ch: Channel, entities: seq<NormalizedEntity>, key: string, s: string)
    ensures s in Members(ch, entities, key) <==> exists e <- entities :: e.sourceKey == s && key in ch.blockKeys(e)
  {
    if entities != [] {
      var n := |entities| - 1;
      MembersHas(ch, entities[..n], key, s);
      FiledHas(ch.blockKeys(entities[n]), key, entities[n].sourceKey, s);
      assert entities == entities[..n] + [entities[n]];
    }
  }

  /** Being together in a block within the cap is having its key in common. */
  lemma SharedIff(ch: Channel, entities: seq<NormalizedEntity>, cap: Option<int>, a: string, b: string)
    ensures Shared(ch, entities, cap, a, b) <==>
            exists key :: a in Members(ch, entities, key) && b in Members(ch, entities, key)
                          && WithinCap(cap, |Members(ch, entities, key)|)
  {
    if Shared(ch, entities, cap, a, b) {
      var key, x, y :| x in entities && y in entities && x.sourceKey == a && y.sourceKey == b
                       && key in ch.blockKeys(x) && key in ch.blockKeys(y)
                       && WithinCap(cap, |Members(ch, entities, key)|);
      MembersHas(ch, entities, key, a);
      MembersHas(ch, entities, key, b);
    }
    if key :| a in Members(ch, entities, key) && b in Members(ch, entities, key)
              && WithinCap(cap, |Members(ch, entities, key)|) {
      MembersHas(ch, entities, key, a);
      MembersHas(ch, entities, key, b);
    }
  }

  method FileKey(buckets: map<string, seq<string>>, key: string, sourceKey: string)
    returns (r: map<string, seq<string>>)
    ensures forall k :: BucketOf(r, k) == BucketOf(buckets, k) + if k == key then [sourceKey] else []
  {
    r := buckets[key := BucketOf(buckets, key) + [sourceKey]];
  }

  lemma FiledOneMore(keys: seq<string>, last: string, key: string, sourceKey: string)
    ensures Filed(keys + [last], key, sourceKey) ==
            Filed(keys, key, sourceKey) + if key == last then [sourceKey] else []
  {
    assert (keys + [last])[..|keys|] == keys;
  }

  method FileEntity(buckets: map<string, seq<string>>, keys: seq<string>, sourceKey: string)
    returns (r: map<string, seq<string>>)
    ensures forall key :: BucketOf(r, key) == BucketOf(buckets, key) + Filed(keys, key, sourceKey)
  {
    r := buckets;
    for i := 0 to |keys|
      invariant forall key :: BucketOf(r, key) == BucketOf(buckets, key) + Filed(keys[..i], key, sourceKey)
    {
      assert keys[..i + 1] == keys[..i] + [keys[i]];
      var before := r;
      r := FileKey(before, keys[i], sourceKey);
      forall key ensures BucketOf(r, key) == BucketOf(buckets, key) + Filed(keys[..i + 1], key, sourceKey) {
        FiledOneMore(keys[..i], keys[i], key, sourceKey);
        Regrouped(BucketOf(buckets, key), Filed(keys[..i], key, sourceKey), if key == keys[i] then [sourceKey] else []);
      }
    }
    assert keys[..|keys|] == keys;
  }

  function BucketOf(buckets: map<string, seq<string>>, key: string): seq<string> {
    if key in buckets then buckets[key] else []
  }

  method BuildBuckets(ch: Channel, entities: seq<NormalizedEntity>) returns (buckets: map<string, seq<string>>)
    ensures forall key :: BucketOf(buckets, key) == Members(ch, entities, key)
  {
    buckets := map[];
    for i := 0 to |entities|
      invariant forall key :: BucketOf(buckets, key) == Members(ch, entities[..i], key)
    {
      assert entities[..i + 1][..i] == entities[..i];
      buckets := FileEntity(buckets, ch.blockKeys(entities[i]), entities[i].sourceKey);
    }
    assert entities[..|entities|] == entities;
  }

  /* ---------- collecting pairs ---------- */

  predicate Has(p: Provenance, a: string, b: string, name: string) {
    (a, b) in p && name in p[(a, b)]
  }

  /** Every pair is ordered and has a channel. */
  predicate Tidy(p: Provenance) {
    forall k <- p :: Less(k.0, k.1) && p[k] != {}
  }

  function Add(p: Provenance, a: string, b: string, name: string): Provenance {
    if a == b then p
    else
      var k := if Leq(a, b) then (a, b) else (b, a);
      p[k := (if k in p then p[k] else {}) + {name}]
  }

  lemma AddHas(p: Provenance, a: string, b: string, name: string)
    requires Tidy(p)
    ensures Tidy(Add(p, a, b, name))
    ensures forall l, r, n :: Has(Add(p, a, b, name), l, r, n) <==>
              Has(p, l, r, n) || (n == name && Less(l, r) && ((l == a && r == b) || (l == b && r == a)))
  {
    LeqTotal(a, b);
    if Leq(a, b) && Leq(b, a) { LeqAntisymmetric(a, b); }
  }

  /** q holds what p holds and, under the name, the ordered pairs that satisfy `more`. */
  ghost predicate Extends(q: Provenance, p: Provenance, name: string, more: (string, string) -> bool) {
    Tidy(q) && forall l, r, n :: Has(q, l, r, n) <==> Has(p, l, r, n) || (n == name && Less(l, r) && more(l, r))
  }

  /** All pairs of one block, each once. */
  method AddBlock(p: Provenance, members: seq<string>, name: string) returns (q: Provenance)
    requires Tidy(p)
    ensures Extends(q, p, name, (l, r) => l in members && r in members)
  {
    var unique := SortedStrings(set m <- members);
    q := p;
    for i := 0 to |unique|
      invariant Extends(q, p, name, (l, r) => l in unique[..i] && r in unique)
    {
      q := AddRow(q, unique, i, name);
      RowDone(unique, i);
    }
    assert unique[..|unique|] == unique;
  }

  lemma RowDone(unique: seq<string>, i: nat)
    requires i < |unique| && Ascending(Leq, unique)
    ensures forall l, r :: Less(l, r) ==>
              (l in unique[..i + 1] && r in unique
               <==> (l in unique[..i] && r in unique) || (l == unique[i] && r in unique[i + 1..]))
  {
    assert unique[..i + 1] == unique[..i] + [unique[i]];
    forall r | Less(unique[i], r) && r in unique ensures r in unique[i + 1..] {
      var j :| 0 <= j < |unique| && unique[j] == r;
      if j < i { LeqAntisymmetric(unique[i], r); }
      assert unique[i + 1..][j - i - 1] == r;
    }
  }

  method AddRow(p: Provenance, unique: seq<string>, i: nat, name: string) returns (q: Provenance)
    requires Tidy(p) && i < |unique| && Ascending(Leq, unique)
    ensures Extends(q, p, name, (l, r) => l == unique[i] && r in unique[i + 1..])
  {
    q := p;
    for j := i + 1 to |unique|
      invariant Extends(q, p, name, (l, r) => l == unique[i] && r in unique[i + 1..j])
    {
      AddHas(q, unique[i], unique[j], name);
      assert unique[i + 1..j + 1] == unique[i + 1..j] + [unique[j]];
      assert !Less(unique[j], unique[i]) by {
        if Leq(unique[j], unique[i]) { LeqAntisymmetric(unique[i], unique[j]); }
      }
      q := Add(q, unique[i], unique[j], name);
    }
    assert unique[i + 1..|unique|] == unique[i + 1..];
  }

  ghost predicate Together(buckets: map<string, seq<string>>, keys: set<string>, cap: Option<int>, a: string,
                           b: string) {
    exists key <- keys :: key in buckets && a in buckets[key] && b in buckets[key] && WithinCap(cap, |buckets[key]|)
  }

  lemma TogetherOneMore(buckets: map<string, seq<string>>, keys: set<string>, key: string, cap: Option<int>)
    requires key in buckets
    ensures forall a, b :: Together(buckets, keys + {key}, cap, a, b) <==>
              || Together(buckets, keys, cap, a, b)
              || (a in buckets[key] && b in buckets[key] && WithinCap(cap, |buckets[key]|))
  {
  }

  lemma ExtendsTwice(p: Provenance, q: Provenance, r: Provenance, name: string,
                     first: (string, string) -> bool, second: (string, string) -> bool, both: (string, string) -> bool)
    requires Extends(q, p, name, first) && Extends(r, q, name, second)
    requires forall a, b :: both(a, b) <==> first(a, b) || second(a, b)
    ensures Extends(r, p, name, both)
  {
  }

  /** The pairs of every block within the cap, over all blocks of one channel. */
  method AddBuckets(p: Provenance, buckets: map<string, seq<string>>, cap: Option<int>, name: string)
    returns (q: Provenance)
    requires Tidy(p)
    ensures Extends(q, p, name, (l, r) => Together(buckets, buckets.Keys, cap, l, r))
  {
    q := p;
    var rest := buckets.Keys;
    ghost var done: set<string> := {};
    while rest != {}
      invariant done + rest == buckets.Keys
      invariant Extends(q, p, name, (l, r) => Together(buckets, done, cap, l, r))
    {
      var key :| key in rest;
      rest := rest - {key};
      TogetherOneMore(buckets, done, key, cap);
      if WithinCap(cap, |buckets[key]|) {
        var before := q;
        q := AddBlock(before, buckets[key], name);
        ExtendsTwice(p, before, q, name, (l, r) => Together(buckets, done, cap, l, r),
                     (l, r) => l in buckets[key] && r in buckets[key],
                     (l, r) => Together(buckets, done + {key}, cap, l, r));
      }
      done := done + {key};
    }
    assert done == buckets.Keys;
  }

  /** Being together in some bucket is having a block key in common. */
  lemma IndexFindsShared(buckets: map<string, seq<string>>, ch: Channel, entities: seq<NormalizedEntity>,
                         cap: Option<int>, a: string, b: string)
    requires forall key :: BucketOf(buckets, key) == Members(ch, entities, key)
    ensures Together(buckets, buckets.Keys, cap, a, b) <==> Shared(ch, entities, cap, a, b)
  {
    SharedIff(ch, entities, cap, a, b);
    if Together(buckets, buckets.Keys, cap, a, b) {
      var key :| key in buckets && a in buckets[key] && b in buckets[key] && WithinCap(cap, |buckets[key]|);
      assert BucketOf(buckets, key) == Members(ch, entities, key);
    }
    if Shared(ch, entities, cap, a, b) {
      var key :| a in Members(ch, entities, key) && b in Members(ch, entities, key)
                 && WithinCap(cap, |Members(ch, entities, key)|);
      assert BucketOf(buckets, key) == Members(ch, entities, key);
    }
  }

  method AddChannel(p: Provenance, ch: Channel, entities: seq<NormalizedEntity>, cap: Option<int>)
    returns (q: Provenance)
    requires Tidy(p)
    ensures Extends(q, p, ch.name, (l, r) => Shared(ch, entities, cap, l, r))
  {
    var buckets := BuildBuckets(ch, entities);
    q := AddBuckets(p, buckets, cap, ch.name);
    forall a, b ensures Together(buckets, buckets.Keys, cap, a, b) <==> Shared(ch, entities, cap, a, b) {
      IndexFindsShared(buckets, ch, entities, cap, a, b);
    }
  }

  method AddProducer(p: Provenance, name: string, pairs: seq<(string, string)>) returns (q: Provenance)
    requires Tidy(p)
    ensures Extends(q, p, name, (l, r) => (l, r) in pairs || (r, l) in pairs)
  {
    q := p;
    for i := 0 to |pairs|
      invariant Extends(q, p, name, (l, r) => (l, r) in pairs[..i] || (r, l) in pairs[..i])
    {
      AddHas(q, pairs[i].0, pairs[i].1, name);
      assert pairs[..i + 1] == pairs[..i] + [pairs[i]];
      q := Add(q, pairs[i].0, pairs[i].1, name);
    }
    assert pairs[..|pairs|] == pairs;
  }

  /* ---------- the pipeline ---------- */

  method Collect(pl: Pipeline, entities: seq<NormalizedEntity>) returns (p: Provenance)
    ensures Tidy(p) && forall a, b, name :: Has(p, a, b, name) <==> Less(a, b) && Proposed(pl, entities, a, b, name)
  {
    p := map[];
    var cap := pl.maxBlockSize;
    for i := 0 to |pl.channels|
      invariant Tidy(p)
      invariant forall a, b, name :: Has(p, a, b, name) <==>
                  Less(a, b) && FromChannel(pl.channels[..i], entities, cap, a, b, name)
    {
      assert pl.channels[..i + 1] == pl.channels[..i] + [pl.channels[i]];
      p := AddChannel(p, pl.channels[i], entities, cap);
    }
    assert pl.channels[..|pl.channels|] == pl.channels;
    for i := 0 to |pl.producers|
      invariant Tidy(p)
      invariant forall a, b, name :: Has(p, a, b, name) <==>
                  Less(a, b) && (FromChannel(pl.channels, entities, cap, a, b, name)
                                 || FromProducer(pl.producers[..i], entities, a, b, name))
    {
      assert pl.producers[..i + 1] == pl.producers[..i] + [pl.producers[i]];
      p := AddProducer(p, pl.producers[i].name, pl.producers[i].pairs(entities));
    }
    assert pl.producers[..|pl.producers|] == pl.producers;
  }

  /** The pairs in order of their keys, no pair twice. */
  predicate InKeyOrder(pairs: seq<CandidatePair>) {
    && (forall i :: 0 <= i < |pairs| ==> Less(pairs[i].left, pairs[i].right))
    && (forall i, j :: 0 <= i < j < |pairs| ==>
          PairLeq((pairs[i].left, pairs[i].right), (pairs[j].left, pairs[j].right))
          && (pairs[i].left, pairs[i].right) != (pairs[j].left, pairs[j].right))
  }

  /** The pair is in the result under the channel name. */
  ghost predicate Listed(pairs: seq<CandidatePair>, a: string, b: string, name: string) {
    exists i :: 0 <= i < |pairs| && pairs[i].left == a && pairs[i].right == b && name in pairs[i].channels
  }

  /** The i-th pair is the i-th key with its names. */
  predicate Renders(pairs: seq<CandidatePair>, keys: seq<(string, string)>, p: Provenance) {
    && |pairs| == |keys|
    && forall i :: 0 <= i < |keys| ==>
         keys[i] in p && pairs[i] == CandidatePair(keys[i].0, keys[i].1, SortedStrings(p[keys[i]]))
  }

  lemma RenderedInOrder(pairs: seq<CandidatePair>, keys: seq<(string, string)>, p: Provenance)
    requires Tidy(p) && Renders(pairs, keys, p) && Ascending(PairLeq, keys)
    ensures InKeyOrder(pairs)
    ensures forall i :: 0 <= i < |pairs| ==> pairs[i].channels != [] && Ascending(Leq, pairs[i].channels)
  {
  }

  lemma RenderedHas(pairs: seq<CandidatePair>, keys: seq<(string, string)>, p: Provenance, a: string, b: string,
                    name: string)
    requires Renders(pairs, keys, p) && forall k :: k in keys <==> k in p
    ensures Listed(pairs, a, b, name) <==> Has(p, a, b, name)
  {
    if Has(p, a, b, name) {
      assert (a, b) in keys;
      var i :| 0 <= i < |keys| && keys[i] == (a, b);
      assert pairs[i] == CandidatePair(a, b, SortedStrings(p[keys[i]]));
    }
    if Listed(pairs, a, b, name) {
      var i :| 0 <= i < |pairs| && pairs[i].left == a && pairs[i].right == b && name in pairs[i].channels;
      assert keys[i] == (a, b);
    }
  }

  method Render(p: Provenance, keys: seq<(string, string)>) returns (pairs: seq<CandidatePair>)
    requires forall k <- keys :: k in p
    ensures Renders(pairs, keys, p)
  {
    pairs := [];
    for i := 0 to |keys|
      invariant |pairs| == i
      invariant forall k :: 0 <= k < i ==> pairs[k] == CandidatePair(keys[k].0, keys[k].1, SortedStrings(p[keys[k]]))
    {
      assert keys[i] in keys;
      pairs := pairs + [CandidatePair(keys[i].0, keys[i].1, SortedStrings(p[keys[i]]))];
    }
  }

  method Emit(p: Provenance) returns (pairs: seq<CandidatePair>)
    requires Tidy(p)
    ensures InKeyOrder(pairs)
    ensures forall i :: 0 <= i < |pairs| ==> pairs[i].channels != [] && Ascending(Leq, pairs[i].channels)
    ensures forall a, b, name :: Listed(pairs, a, b, name) <==> Has(p, a, b, name)
  {
    var keys := SortedPairs(p.Keys);
    pairs := Render(p, keys);
    RenderedInOrder(pairs, keys, p);
    forall a, b, name ensures Listed(pairs, a, b, name) <==> Has(p, a, b, name) {
      RenderedHas(pairs, keys, p, a, b, name);
    }
  }

  /** The index finds what comparing every two entities finds: exactly the proposed pairs, each
      once, smaller key first, in order of the keys, with exactly the proposing names, sorted. */
  method Block(pl: Pipeline, entities: seq<NormalizedEntity>) returns (pairs: seq<CandidatePair>)
    ensures InKeyOrder(pairs)
    ensures forall i :: 0 <= i < |pairs| ==> pairs[i].channels != [] && Ascending(Leq, pairs[i].channels)
    ensures forall a, b, name :: Listed(pairs, a, b, name) <==> Less(a, b) && Proposed(pl, entities, a, b, name)
  {
    var p := Collect(pl, entities);
    pairs := Emit(p);
  }

  function Keys(pairs: seq<CandidatePair>): seq<(string, string)> {
    seq(|pairs|, i requires 0 <= i < |pairs| => (pairs[i].left, pairs[i].right))
  }

  ghost predicate WellListed(pairs: seq<CandidatePair>) {
    InKeyOrder(pairs) && forall i :: 0 <= i < |pairs| ==> pairs[i].channels != [] && Ascending(Leq, pairs[i].channels)
  }

  lemma KeyIsListed(pairs: seq<CandidatePair>, k: (string, string))
    requires WellListed(pairs)
    ensures k in Keys(pairs) <==> exists name :: Listed(pairs, k.0, k.1, name)
  {
    if k in Keys(pairs) {
      var i :| 0 <= i < |pairs| && Keys(pairs)[i] == k;
      assert Listed(pairs, k.0, k.1, pairs[i].channels[0]);
    }
    if name :| Listed(pairs, k.0, k.1, name) {
      var i :| 0 <= i < |pairs| && pairs[i].left == k.0 && pairs[i].right == k.1 && name in pairs[i].channels;
      assert Keys(pairs)[i] == k;
    }
  }

  lemma NamesAreListed(pairs: seq<CandidatePair>, i: nat, name: string)
    requires WellListed(pairs) && i < |pairs|
    ensures name in pairs[i].channels <==> Listed(pairs, pairs[i].left, pairs[i].right, name)
  {
    if Listed(pairs, pairs[i].left, pairs[i].right, name) {
      var j :| 0 <= j < |pairs| && pairs[j].left == pairs[i].left && pairs[j].right == pairs[i].right
               && name in pairs[j].channels;
      assert !(i < j) && !(j < i);
    }
  }

  /** What is listed determines the whole result, its order and the names' order included: the
      same proposals always give the same list. */
  lemma ListingIsUnique(pairs: seq<CandidatePair>, others: seq<CandidatePair>)
    requires WellListed(pairs) && WellListed(others)
    requires forall a, b, name :: Listed(pairs, a, b, name) <==> Listed(others, a, b, name)
    ensures pairs == others
  {
    forall k ensures k in Keys(pairs) <==> k in Keys(others) {
      KeyIsListed(pairs, k);
      KeyIsListed(others, k);
    }
    PairLeqIsTotalOrder();
    LeqIsTotalOrder();
    AscendingUnique(PairLeq, Keys(pairs), Keys(others));
    assert |Keys(pairs)| == |pairs| == |others|;
    forall i | 0 <= i < |pairs| ensures pairs[i] == others[i] {
      assert Keys(pairs)[i] == Keys(others)[i];
      forall name ensures name in pairs[i].channels <==> name in others[i].channels {
        NamesAreListed(pairs, i, name);
        NamesAreListed(others, i, name);
      }
      AscendingUnique(Leq, pairs[i].channels, others[i].channels);
    }
  }

  /* ---------- what is proposed ---------- */

  /** Every filing of an entity under the key, as the entity's place and the key's place among
      its own. */
  function Filings(ch: Channel, entities: seq<NormalizedEntity>, key: string): set<(int, int)> {
    set i, k | 0 <= i < |entities| && 0 <= k < |ch.blockKeys(entities[i])| && ch.blockKeys(entities[i])[k] == key
      :: (i, k)
  }

  lemma {:induction false} FiledCount(keys: seq<string>, key: string, sourceKey: string, i: int)
    ensures |Filed(keys, key, sourceKey)| == |set k | 0 <= k < |keys| && keys[k] == key :: (i, k)|
  {
    if keys != [] {
      var n := |keys| - 1;
      FiledCount(keys[..n], key, sourceKey, i);
      var before := set k | 0 <= k < n && keys[..n][k] == key :: (i, k);
      assert forall k :: 0 <= k < n ==> keys[..n][k] == keys[k];
      assert (set k | 0 <= k < |keys| && keys[k] == key :: (i, k)) == before + if keys[n] == key then {(i, n)} else {};
    }
  }

  lemma {:induction false} MembersCount(ch: Channel, entities: seq<NormalizedEntity>, key: string)
    ensures |Members(ch, entities, key)| == |Filings(ch, entities, key)|
  {
    if entities != [] {
      var n, e := |entities| - 1, entities[|entities| - 1];
      MembersCount(ch, entities[..n], key);
      FiledCount(ch.blockKeys(e), key, e.sourceKey, n);
      var last := set k | 0 <= k < |ch.blockKeys(e)| && ch.blockKeys(e)[k] == key :: (n, k);
      assert forall i :: 0 <= i < n ==> entities[..n][i] == entities[i];
      assert Filings(ch, entities, key) == Filings(ch, entities[..n], key) + last;
      assert Filings(ch, entities[..n], key) !! last;
    }
  }

  /** A channel of the name files an entity of either key under one block key, and under that
      key it makes no more filings than the cap allows. */
  ghost predicate Meets(p: Pipeline, entities: seq<NormalizedEntity>, a: string, b: string, name: string) {
    exists ch, key, x, y ::
      && ch in p.channels && ch.name == name
      && x in entities && y in entities && x.sourceKey == a && y.sourceKey == b
      && key in ch.blockKeys(x) && key in ch.blockKeys(y)
      && (p.maxBlockSize.None? || |Filings(ch, entities, key)| <= p.maxBlockSize.value)
  }

  /** A producer of the name names the pair, in either order. */
  ghost predicate Produces(p: Pipeline, entities: seq<NormalizedEntity>, a: string, b: string, name: string) {
    exists k :: 0 <= k < |p.producers| && p.producers[k].name == name
                && ((a, b) in p.producers[k].pairs(entities) || (b, a) in p.producers[k].pairs(entities))
  }

  /** A pair is proposed exactly where its keys differ and a channel or a producer of the name
      brings them together. */
  lemma ProposedIff(p: Pipeline, entities: seq<NormalizedEntity>, a: string, b: string, name: string)
    ensures Proposed(p, entities, a, b, name) <==>
            a != b && (Meets(p, entities, a, b, name) || Produces(p, entities, a, b, name))
  {
    forall ch, key ensures |Members(ch, entities, key)| == |Filings(ch, entities, key)| {
      MembersCount(ch, entities, key);
    }
    if q :| q in p.producers && q.name == name && ((a, b) in q.pairs(entities) || (b, a) in q.pairs(entities)) {
      var k :| 0 <= k < |p.producers| && p.producers[k] == q;
    }
    if Meets(p, entities, a, b, name) { MeetingIsShared(p, entities, a, b, name); }
  }

  lemma MeetingIsShared(p: Pipeline, entities: seq<NormalizedEntity>, a: string, b: string, name: string)
    requires Meets(p, entities, a, b, name)
    ensures FromChannel(p.channels, entities, p.maxBlockSize, a, b, name)
  {
    var ch, key, x, y :|
      && ch in p.channels && ch.name == name
      && x in entities && y in entities && x.sourceKey == a && y.sourceKey == b
      && key in ch.blockKeys(x) && key in ch.blockKeys(y)
      && (p.maxBlockSize.None? || |Filings(ch, entities, key)| <= p.maxBlockSize.value);
    MembersCount(ch, entities, key);
    assert Shared(ch, entities, p.maxBlockSize, a, b);
  }

  /* ---------- properties of the definition ---------- */

  /** Without a cap, more entities never take a channel's pair away. */
  lemma RecallOnlyGrows(chs: seq<Channel>, entities: seq<NormalizedEntity>, more: seq<NormalizedEntity>, a: string,
                        b: string, name: string)
    requires (forall e <- entities :: e in more) && FromChannel(chs, entities, None, a, b, name)
    ensures FromChannel(chs, more, None, a, b, name)
  {
    var ch :| ch in chs && ch.name == name && Shared(ch, entities, None, a, b);
    var key, x, y :| x in entities && y in entities && x.sourceKey == a && y.sourceKey == b
                     && key in ch.blockKeys(x) && key in ch.blockKeys(y)
                     && WithinCap(None, |Members(ch, entities, key)|);
    assert x in more && y in more && WithinCap(None, |Members(ch, more, key)|);
    assert Shared(ch, more, None, a, b);
  }

  lemma {:induction false} MembersOfMore(ch: Channel, entities: seq<NormalizedEntity>, added: seq<NormalizedEntity>,
                                         key: string)
    ensures Members(ch, entities + added, key) == Members(ch, entities, key) + Members(ch, added, key)
  {
    if added == [] {
      assert entities + added == entities;
    } else {
      var n, e := |added| - 1, added[|added| - 1];
      assert (entities + added)[..|entities| + n] == entities + added[..n];
      MembersOfMore(ch, entities, added[..n], key);
      Regrouped(Members(ch, entities, key), Members(ch, added[..n], key), Filed(ch.blockKeys(e), key, e.sourceKey));
    }
  }

  lemma AddedToBlock(ch: Channel, entities: seq<NormalizedEntity>, added: seq<NormalizedEntity>, key: string,
                     a: string, b: string)
    requires forall e <- added :: e.sourceKey != a && e.sourceKey != b
    ensures |Members(ch, entities + added, key)| == |Members(ch, entities, key)| + |Members(ch, added, key)|
    ensures a in Members(ch, entities + added, key) <==> a in Members(ch, entities, key)
    ensures b in Members(ch, entities + added, key) <==> b in Members(ch, entities, key)
  {
    MembersOfMore(ch, entities, added, key);
    MembersHas(ch, added, key, a);
    MembersHas(ch, added, key, b);
  }

  /** With a cap, two entities keep their pair exactly when some block they share has room for
      what is added to it. */
  lemma AddedKeepsPairIff(ch: Channel, entities: seq<NormalizedEntity>, added: seq<NormalizedEntity>, cap: Option<int>,
                          a: string, b: string)
    requires forall e <- added :: e.sourceKey != a && e.sourceKey != b
    ensures Shared(ch, entities + added, cap, a, b) <==>
            exists key :: a in Members(ch, entities, key) && b in Members(ch, entities, key)
                          && WithinCap(cap, |Members(ch, entities, key)| + |Members(ch, added, key)|)
  {
    SharedIff(ch, entities + added, cap, a, b);
    if key :| a in Members(ch, entities + added, key) && b in Members(ch, entities + added, key)
              && WithinCap(cap, |Members(ch, entities + added, key)|) {
      AddedToBlock(ch, entities, added, key, a, b);
    }
    if key :| a in Members(ch, entities, key) && b in Members(ch, entities, key)
              && WithinCap(cap, |Members(ch, entities, key)| + |Members(ch, added, key)|) {
      AddedToBlock(ch, entities, added, key, a, b);
    }
  }

  /** An instance: a third member drops the block that gave two entities their pair. */
  lemma CapCanDrop(e: NormalizedEntity, name: string)
    requires e.sourceKey != "a" && e.sourceKey != "b"
    ensures var ch := Channel(name, _ => ["k"]);
            var two := [e.(sourceKey := "a"), e.(sourceKey := "b")];
            Shared(ch, two, Some(2), "a", "b") && !Shared(ch, two + [e], Some(2), "a", "b")
  {
    var ch := Channel(name, _ => ["k"]);
    var x, y := e.(sourceKey := "a"), e.(sourceKey := "b");
    OneKeyMembers(ch, [x, y], "k");
    OneKeyMembers(ch, [x, y] + [e], "k");
    assert x in [x, y] && y in [x, y] && "k" in ch.blockKeys(x) && "k" in ch.blockKeys(y);
  }

  lemma FiledOnce(key: string, sourceKey: string)
    ensures Filed([key], key, sourceKey) == [sourceKey]
  {
    assert [key][..0] == [];
  }

  lemma {:induction false} OneKeyMembers(ch: Channel, entities: seq<NormalizedEntity>, key: string)
    requires forall e <- entities :: ch.blockKeys(e) == [key]
    ensures |Members(ch, entities, key)| == |entities|
  {
    if entities != [] {
      var e := entities[|entities| - 1];
      OneKeyMembers(ch, entities[..|entities| - 1], key);
      assert e in entities && ch.blockKeys(e) == [key];
      FiledOnce(key, e.sourceKey);
    }
  }
}
