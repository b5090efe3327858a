/** Fact identity and record identity (src/kgcs/records.py): what the seed of a record id
    holds, and that it determines all of it. */
module Records {
  import opened Wrappers
  import opened CanonicalJson
  import opened Sequences

  /** An asserted object.  Besides JSON-native values a top-level date or datetime is
      rendered; any other object is refused. */
  datatype ObjectValue = Native(json: Json) | Temporal(iso: string) | Unrenderable(typeName: string)

  /** The JSON-mode dump of a period: ISO texts, either end may be open. */
  datatype ValidPeriod = ValidPeriod(validFrom: Option<string>, validTo: Option<string>)

  datatype EvidenceRef = EvidenceRef(evidenceId: string, relationship: string)

  datatype Provenance = Provenance(source: string, sourceRef: Option<string>, actor: string)

  /** What distinguishes one record of a fact from another. */
  datatype Content = Content(
    objectValue: ObjectValue,
    objectIdentity: Option<string>,
    validPeriod: Option<ValidPeriod>,
    evidence: seq<EvidenceRef>,
    provenance: Option<Provenance>)

  datatype SeedError = UnstableRecordValue(typeName: string)

  const TEMPORAL_TAG: string := "__temporal__"

  const OPEN: ValidPeriod := ValidPeriod(None, None)

  /* ---------- the JSON view of each component ---------- */

  function OptionalText(o: Option<string>): Json {
    match o case None => Null case Some(s) => Str(s)
  }

  function ValueJson(v: ObjectValue): Json
    requires !v.Unrenderable?
  {
    match v
    case Native(json) => json
    case Temporal(iso) => Arr([Str(TEMPORAL_TAG), Str(iso)])
  }

  /** No period is the period open at both ends. */
  function PeriodOf(c: Content): ValidPeriod {
    match c.validPeriod case None => OPEN case Some(p) => p
  }

  function PeriodJson(p: ValidPeriod): Json {
    Obj(map["valid_from" := OptionalText(p.validFrom), "valid_to" := OptionalText(p.validTo)])
  }

  /** Where the claim came from, never who processed it. */
  function OriginOf(c: Content): Option<(string, Option<string>)> {
    match c.provenance case None => None case Some(p) => Some((p.source, p.sourceRef))
  }

  function OriginJson(o: Option<(string, Option<string>)>): Json {
    match o case None => Null case Some(p) => Arr([Str(p.0), OptionalText(p.1)])
  }

  function RefJson(r: EvidenceRef): Json { Arr([Str(r.evidenceId), Str(r.relationship)]) }

  function EvidenceJson(refs: seq<EvidenceRef>): Json {
    Arr(seq(|refs|, i requires 0 <= i < |refs| => RefJson(refs[i])))
  }

  /* ---------- the seed ---------- */

  const NUL: string := "\0"

  function Joined(factId: string, value: Json, identity: Json, period: Json, origin: Json, evidence: Json): string {
    factId + (NUL + ("record" + (NUL + (Print(value) + (NUL + (Print(identity) + (NUL +
    (Print(period) + (NUL + (Print(origin) + (NUL + Print(evidence))))))))))))
  }

  function RecordSeed(factId: string, c: Content): Result<string, SeedError> {
    if c.objectValue.Unrenderable? then Err(UnstableRecordValue(c.objectValue.typeName))
    else
      Ok(Joined(factId, ValueJson(c.objectValue), OptionalText(c.objectIdentity), PeriodJson(PeriodOf(c)),
                OriginJson(OriginOf(c)), EvidenceJson(c.evidence)))
  }

  /** A seed's layout: the fact, the word "record", and then the object, its identity, the
      period, the origin and the evidence, each as canonical JSON.  A date is the list of a tag
      and its text; no period is the open one; the origin is the source and its reference; a
      piece of evidence is its id and its relationship. */
  lemma SeedIs(factId: string, c: Content)
    requires !c.objectValue.Unrenderable?
    ensures var value := if c.objectValue.Temporal? then Arr([Str("__temporal__"), Str(c.objectValue.iso)])
                         else c.objectValue.json;
            var identity := if c.objectIdentity.Some? then Str(c.objectIdentity.value) else Null;
            var p := if c.validPeriod.Some? then c.validPeriod.value else ValidPeriod(None, None);
            var period := Obj(map["valid_from" := OptionalText(p.validFrom), "valid_to" := OptionalText(p.validTo)]);
            var origin := if c.provenance.None? then Null
                          else Arr([Str(c.provenance.value.source), OptionalText(c.provenance.value.sourceRef)]);
            var evidence := seq(|c.evidence|, i requires 0 <= i < |c.evidence| =>
                              Arr([Str(c.evidence[i].evidenceId), Str(c.evidence[i].relationship)]));
            RecordSeed(factId, c) ==
            Ok(Separated([factId, "record", Print(value), Print(identity), Print(period), Print(origin),
                          Print(Arr(evidence))], "\0"))
  {
    var evidence := EvidenceJson(c.evidence).items;
    assert evidence == seq(|c.evidence|, i requires 0 <= i < |c.evidence| =>
                         Arr([Str(c.evidence[i].evidenceId), Str(c.evidence[i].relationship)]));
    SevenJoined(factId, "record", Print(ValueJson(c.objectValue)), Print(OptionalText(c.objectIdentity)),
                Print(PeriodJson(PeriodOf(c))), Print(OriginJson(OriginOf(c))), Print(Arr(evidence)));
  }

  lemma OneJoined(first: string, rest: seq<string>)
    requires rest != []
    ensures Separated([first] + rest, NUL) == first + (NUL + Separated(rest, NUL))
  {
    SeparatedFirst([first] + rest, NUL);
    assert ([first] + rest)[1..] == rest;
  }

  lemma SevenJoined(a: string, b: string, c: string, d: string, e: string, f: string, g: string)
    ensures Separated([a, b, c, d, e, f, g], "\0") ==
            a + (NUL + (b + (NUL + (c + (NUL + (d + (NUL + (e + (NUL + (f + (NUL + g)))))))))))
  {
    OneJoined(f, [g]);
    OneJoined(e, [f, g]);
    OneJoined(d, [e, f, g]);
    OneJoined(c, [d, e, f, g]);
    OneJoined(b, [c, d, e, f, g]);
    OneJoined(a, [b, c, d, e, f, g]);
    assert [a] + [b, c, d, e, f, g] == [a, b, c, d, e, f, g] && [b] + [c, d, e, f, g] == [b, c, d, e, f, g];
    assert [c] + [d, e, f, g] == [c, d, e, f, g] && [d] + [e, f, g] == [d, e, f, g];
    assert [e] + [f, g] == [e, f, g] && [f] + [g] == [f, g];
  }

  predicate NulFree(s: string) { '\0' !in s }

  lemma HeadUnique(a: string, x: string, b: string, y: string)
    requires NulFree(a) && NulFree(b) && a + (NUL + x) == b + (NUL + y)
    ensures a == b && x == y
  {
    if |a| < |b| {
      NulInside(a, x, b, y);
    } else if |b| < |a| {
      NulInside(b, y, a, x);
    }
    Cut(a, NUL + x, b, NUL + y);
    Cut(NUL, x, NUL, y);
  }

  lemma NulInside(a: string, x: string, b: string, y: string)
    requires NulFree(b) && |a| < |b|
    ensures a + (NUL + x) != b + (NUL + y)
  {
    assert (a + (NUL + x))[|a|] == '\0' && (b + (NUL + y))[|a|] == b[|a|];
    assert b[|a|] in b;
  }

  lemma NextPart(v: Json, x: string, w: Json, y: string)
    requires Print(v) + (NUL + x) == Print(w) + (NUL + y)
    ensures v == w && x == y
  {
    PrintInjective(v, NUL + x, w, NUL + y);
    Cut(NUL, x, NUL, y);
  }

  lemma JoinedInjective(f: string, v: Json, i: Json, p: Json, o: Json, e: Json,
                        g: string, v': Json, i': Json, p': Json, o': Json, e': Json)
    requires NulFree(f) && NulFree(g) && Joined(f, v, i, p, o, e) == Joined(g, v', i', p', o', e')
    ensures f == g && v == v' && i == i' && p == p' && o == o' && e == e'
  {
    var z, z' := Print(e), Print(e');
    var y, y' := Print(o) + (NUL + z), Print(o') + (NUL + z');
    var x, x' := Print(p) + (NUL + y), Print(p') + (NUL + y');
    var u, u' := Print(i) + (NUL + x), Print(i') + (NUL + x');
    var s, s' := Print(v) + (NUL + u), Print(v') + (NUL + u');
    HeadUnique(f, "record" + (NUL + s), g, "record" + (NUL + s'));
    HeadUnique("record", s, "record", s');
    NextPart(v, u, v', u');
    NextPart(i, x, i', x');
    NextPart(p, y, p', y');
    NextPart(o, z, o', z');
    Regrouped(z, "", "");
    assert z + "" == z && z' + "" == z';
    PrintInjective(e, "", e', "");
  }

  /** Two contents make the same record: everything the seed reads agrees.  The objects may
      still be a date and the tagged list that renders alike. */
  predicate SameRecord(a: Content, b: Content)
    requires !a.objectValue.Unrenderable? && !b.objectValue.Unrenderable?
  {
    && ValueJson(a.objectValue) == ValueJson(b.objectValue)
    && a.objectIdentity == b.objectIdentity
    && PeriodOf(a) == PeriodOf(b)
    && OriginOf(a) == OriginOf(b)
    && a.evidence == b.evidence
  }

  /** Equal seeds mean the same fact, object, period, origin and ordered evidence, and only
      those: a record id cannot confuse two records. */
  lemma RecordSeedIff(f: string, a: Content, g: string, b: Content)
    requires NulFree(f) && NulFree(g)
    requires !a.objectValue.Unrenderable? && !b.objectValue.Unrenderable?
    ensures RecordSeed(f, a) == RecordSeed(g, b) <==> f == g && SameRecord(a, b)
  {
    if RecordSeed(f, a) == RecordSeed(g, b) {
      JoinedInjective(
        f, ValueJson(a.objectValue), OptionalText(a.objectIdentity), PeriodJson(PeriodOf(a)),
        OriginJson(OriginOf(a)), EvidenceJson(a.evidence),
        g, ValueJson(b.objectValue), OptionalText(b.objectIdentity), PeriodJson(PeriodOf(b)),
        OriginJson(OriginOf(b)), EvidenceJson(b.evidence));
      PeriodJsonInjective(PeriodOf(a), PeriodOf(b));
      OriginJsonInjective(OriginOf(a), OriginOf(b));
      EvidenceJsonInjective(a.evidence, b.evidence);
    }
  }

  lemma PeriodJsonInjective(p: ValidPeriod, q: ValidPeriod)
    requires PeriodJson(p) == PeriodJson(q)
    ensures p == q
  {
    assert PeriodJson(p).fields["valid_from"] == PeriodJson(q).fields["valid_from"];
    assert PeriodJson(p).fields["valid_to"] == PeriodJson(q).fields["valid_to"];
  }

  lemma OriginJsonInjective(o: Option<(string, Option<string>)>, p: Option<(string, Option<string>)>)
    requires OriginJson(o) == OriginJson(p)
    ensures o == p
  {
    if o.Some? && p.Some? {
      assert OriginJson(o).items[0] == OriginJson(p).items[0];
      assert OriginJson(o).items[1] == OriginJson(p).items[1];
    }
  }

  lemma EvidenceJsonInjective(r: seq<EvidenceRef>, s: seq<EvidenceRef>)
    requires EvidenceJson(r) == EvidenceJson(s)
    ensures r == s
  {
    var x, y := EvidenceJson(r).items, EvidenceJson(s).items;
    assert |r| == |x| == |y| == |s|;
    forall i | 0 <= i < |r| ensures r[i] == s[i] {
      assert x[i] == RefJson(r[i]) && y[i] == RefJson(s[i]);
      assert x[i].items[0] == y[i].items[0] && x[i].items[1] == y[i].items[1];
    }
  }

  /** Exactly when two objects that differ render alike: one is a date, the other the list
      of the tag and that date's text. */
  lemma ValueJsonIff(v: ObjectValue, w: ObjectValue)
    requires !v.Unrenderable? && !w.Unrenderable?
    ensures ValueJson(v) == ValueJson(w) <==>
            v == w || TaggedTwin(v, w) || TaggedTwin(w, v)
  {
    if v.Temporal? && w.Temporal? && ValueJson(v) == ValueJson(w) {
      assert ValueJson(v).items[1] == ValueJson(w).items[1];
    }
  }

  predicate TaggedTwin(v: ObjectValue, w: ObjectValue) {
    v.Temporal? && w == Native(Arr([Str(TEMPORAL_TAG), Str(v.iso)]))
  }

  /* ---------- facts ---------- */

  /** The slot (subject, predicate), digested by `digest`. */
  function FactKey(digest: string -> string, subject: string, attribute: string): string {
    "fact_" + digest(subject + (NUL + attribute))
  }

  lemma FactKeyIs(digest: string -> string, subject: string, attribute: string)
    ensures FactKey(digest, subject, attribute) == "fact_" + digest(Separated([subject, attribute], "\0"))
  {
    OneJoined(subject, [attribute]);
    assert [subject] + [attribute] == [subject, attribute];
  }

  /** Two slots share a fact key exactly when they are the same slot, for a digest without
      collisions and subjects without NUL. */
  lemma FactKeyIff(digest: string -> string, s: string, p: string, t: string, q: string)
    requires NulFree(s) && NulFree(t)
    requires digest(s + (NUL + p)) == digest(t + (NUL + q)) ==> s + (NUL + p) == t + (NUL + q)
    ensures FactKey(digest, s, p) == FactKey(digest, t, q) <==> s == t && p == q
  {
    if FactKey(digest, s, p) == FactKey(digest, t, q) {
      Cut("fact_", digest(s + (NUL + p)), "fact_", digest(t + (NUL + q)));
      HeadUnique(s, p, t, q);
    }
  }
}
