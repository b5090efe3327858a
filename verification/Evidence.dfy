/** Rendering cited evidence into prompt lines (src/kgcs/advisers/evidence.py). */
module Evidence {
  import opened Wrappers
  import opened Ordering
  import opened Sequences

  /* ---------- escaping ---------- */

  /** Replaces every occurrence of a character. */
  function Replace(s: string, c: char, by_: string): string {
    if s == "" then "" else (if s[0] == c then by_ else [s[0]]) + Replace(s[1..], c, by_)
  }

  /** The four replacements, backslash first. */
  function Escape(text: string): string {
    Replace(Replace(Replace(Replace(text, '\\', "\\\\"), '"', "\\\""), '\r', "\\r"), '\n', "\\n")
  }

  function EscapedChar(c: char): string {
    if c == '\\' then "\\\\" else if c == '"' then "\\\""
    else if c == '\r' then "\\r" else if c == '\n' then "\\n" else [c]
  }

  /** One pass over the characters. */
  function EscapeOnce(s: string): string {
    if s == "" then "" else EscapedChar(s[0]) + EscapeOnce(s[1..])
  }

  lemma {:induction false} ReplaceAppend(a: string, b: string, c: char, by_: string)
    ensures Replace(a + b, c, by_) == Replace(a, c, by_) + Replace(b, c, by_)
  {
    if a == "" {
      assert a + b == b;
    } else {
      ReplaceAppend(a[1..], b, c, by_);
      assert (a + b)[0] == a[0] && (a + b)[1..] == a[1..] + b;
      Regrouped(if a[0] == c then by_ else [a[0]], Replace(a[1..], c, by_), Replace(b, c, by_));
    }
  }

  lemma EscapeAppend(a: string, b: string)
    ensures Escape(a + b) == Escape(a) + Escape(b)
  {
    var a1, b1 := Replace(a, '\\', "\\\\"), Replace(b, '\\', "\\\\");
    var a2, b2 := Replace(a1, '"', "\\\""), Replace(b1, '"', "\\\"");
    ReplaceAppend(a, b, '\\', "\\\\");
    ReplaceAppend(a1, b1, '"', "\\\"");
    ReplaceAppend(a2, b2, '\r', "\\r");
    ReplaceAppend(Replace(a2, '\r', "\\r"), Replace(b2, '\r', "\\r"), '\n', "\\n");
  }

  lemma ReplaceOne(x: char, c: char, by_: string)
    ensures Replace([x], c, by_) == if x == c then by_ else [x]
  {
    assert [x][1..] == "";
  }

  lemma ReplaceTwo(x: char, y: char, c: char, by_: string)
    ensures Replace([x, y], c, by_) == (if x == c then by_ else [x]) + (if y == c then by_ else [y])
  {
    assert [x, y] == [x] + [y];
    ReplaceAppend([x], [y], c, by_);
    ReplaceOne(x, c, by_);
    ReplaceOne(y, c, by_);
  }

  lemma EscapeOneChar(x: char)
    ensures Escape([x]) == EscapedChar(x)
  {
    ReplaceOne(x, '\\', "\\\\");
    if x == '\\' {
      ReplaceTwo('\\', '\\', '"', "\\\"");
      ReplaceTwo('\\', '\\', '\r', "\\r");
      ReplaceTwo('\\', '\\', '\n', "\\n");
    } else {
      ReplaceOne(x, '"', "\\\"");
      ReplaceOne(x, '\r', "\\r");
      ReplaceOne(x, '\n', "\\n");
      ReplaceTwo('\\', '"', '\r', "\\r");
      ReplaceTwo('\\', '"', '\n', "\\n");
      ReplaceTwo('\\', 'r', '\n', "\\n");
    }
  }

  /** The chain of replacements is the single pass. */
  lemma {:induction false} EscapeIsOnePass(s: string)
    ensures Escape(s) == EscapeOnce(s)
  {
    if s != "" {
      EscapeIsOnePass(s[1..]);
      EscapeOneChar(s[0]);
      EscapeAppend([s[0]], s[1..]);
      assert s == [s[0]] + s[1..];
    }
  }

  /* ---------- reading back ---------- */

  function Unescaped(c: char): char { if c == 'r' then '\r' else if c == 'n' then '\n' else c }

  /** Reads escaped text up to the first quote that is not escaped: the text, and what follows
      the quote.  None if there is no such quote. */
  function ReadQuoted(s: string): Option<(string, string)> {
    if s == "" then None
    else if s[0] == '"' then Some(("", s[1..]))
    else if s[0] == '\\' then
      if |s| == 1 then None
      else
        match ReadQuoted(s[2..])
        case None => None
        case Some((text, rest)) => Some(([Unescaped(s[1])] + text, rest))
    else
      match ReadQuoted(s[1..])
      case None => None
      case Some((text, rest)) => Some(([s[0]] + text, rest))
  }

  lemma ReadsOneMore(c: char, tail: string, text: string, rest: string)
    requires ReadQuoted(tail) == Some((text, rest))
    ensures ReadQuoted(EscapedChar(c) + tail) == Some(([c] + text, rest))
  {
    var e := EscapedChar(c);
    var all := e + tail;
    assert all[0] == e[0];
    if |e| == 1 {
      assert all[1..] == tail;
    } else {
      assert all[1] == e[1] && all[2..] == tail;
    }
  }

  /** Escaped text between quotes is read back exactly, whatever follows: in particular no
      quote inside it ends it early, and no two texts escape alike. */
  lemma {:induction false} EscapeReadsBack(s: string, rest: string)
    ensures ReadQuoted(EscapeOnce(s) + ("\"" + rest)) == Some((s, rest))
  {
    if s == "" {
      assert EscapeOnce(s) + ("\"" + rest) == "\"" + rest;
      assert ("\"" + rest)[1..] == rest;
    } else {
      EscapeReadsBack(s[1..], rest);
      ReadsOneMore(s[0], EscapeOnce(s[1..]) + ("\"" + rest), s[1..], rest);
      Regrouped(EscapedChar(s[0]), EscapeOnce(s[1..]), "\"" + rest);
      assert s == [s[0]] + s[1..];
    }
  }

  lemma EscapeInjective(s: string, t: string)
    ensures Escape(s) == Escape(t) <==> s == t
  {
    EscapeIsOnePass(s);
    EscapeIsOnePass(t);
    EscapeReadsBack(s, "");
    EscapeReadsBack(t, "");
  }

  predicate OneLine(s: string) { '\n' !in s && '\r' !in s }

  lemma {:induction false} EscapeIsOneLine(s: string)
    ensures OneLine(EscapeOnce(s))
  {
    if s != "" { EscapeIsOneLine(s[1..]); }
  }

  /* ---------- one line per citation ---------- */

  datatype Record =
    | Present(quote: Option<string>, content: Option<string>, payloadHash: Option<string>)
    | Absent(reason: Option<string>)
    | Failing(error: Option<string>)

  /** What the lookup returns, or the text of what it raises. */
  datatype Lookup = Found(record: Record) | NotFound | Raised(text: string)

  datatype Rendered = Rendered(
    lines: seq<string>,
    renderedIds: seq<string>,
    unresolvedIds: seq<string>,
    truncated: bool)

  /** An empty text counts as none. */
  function Given(o: Option<string>, otherwise: string): string {
    if o.Some? && o.value != "" then o.value else otherwise
  }

  function Prefix(id: string, relationship: Option<string>): string {
    PrefixFrom(Escape(id), Escape(Given(relationship, "UNKNOWN")))
  }

  function PrefixFrom(id: string, relationship: string): string { "[" + id + "] relationship=" + relationship }

  const NOT_FOUND: string := ", availability=UNKNOWN: not found in evidence lookup"

  const ERROR: string := ", availability=ERROR: error=\""

  const ABSENT: string := ", availability=ABSENT: reason="

  const PRESENT: string := ", availability=PRESENT: \""

  /** The text of a present record: a quote before the content. */
  function SourceText(r: Record): Option<string>
    requires r.Present?
  {
    if Given(r.quote, "") != "" then r.quote else r.content
  }

  function PresentText(r: Record, maxChars: nat): (string, bool)
    requires r.Present?
  {
    var source := SourceText(r);
    if source.None? then ("payload_hash=" + Given(r.payloadHash, "unknown"), false)
    else if |source.value| > maxChars then (Escape(source.value[..maxChars]) + "...", true)
    else (Escape(source.value), false)
  }

  /** What follows the prefix: a marker, a text, and the closing quote where there is one. */
  function Body(found: Lookup, maxChars: nat): (string, string, string) {
    match found
    case Raised(text) => (ERROR, Escape("lookup error: " + text), "\"")
    case NotFound => (NOT_FOUND, "", "")
    case Found(Absent(reason)) => (ABSENT, Escape(if reason.Some? then reason.value else "UNSPECIFIED"), "")
    case Found(Failing(error)) => (ERROR, Escape(if error.Some? then error.value else "unspecified"), "\"")
    case Found(Present(_, _, _)) => (PRESENT, PresentText(found.record, maxChars).0, "\"")
  }

  function LineOf(id: string, relationship: Option<string>, found: Lookup, maxChars: nat): (string, bool) {
    var body := Body(found, maxChars);
    (Prefix(id, relationship) + body.0 + body.1 + body.2,
     found.Found? && found.record.Present? && PresentText(found.record, maxChars).1)
  }

  lemma OneLineJoin(a: string, b: string)
    ensures OneLine(a + b) <==> OneLine(a) && OneLine(b)
  {
  }

  lemma EscapedOneLine(s: string)
    ensures OneLine(Escape(s))
  {
    EscapeIsOnePass(s);
    EscapeIsOneLine(s);
  }

  lemma JoinedOneLine(a: string, b: string, c: string, d: string)
    ensures OneLine(a + b + c + d) <==> OneLine(a) && OneLine(b) && OneLine(c) && OneLine(d)
  {
    OneLineJoin(a + b + c, d);
    OneLineJoin(a + b, c);
    OneLineJoin(a, b);
  }

  lemma PrefixFromIsOneLine(a: string, b: string)
    requires OneLine(a) && OneLine(b)
    ensures OneLine(PrefixFrom(a, b))
  {
    JoinedOneLine("[", a, "] relationship=", b);
  }

  lemma PrefixIsOneLine(id: string, relationship: Option<string>)
    ensures OneLine(Prefix(id, relationship))
  {
    var r := Given(relationship, "UNKNOWN");
    EscapedOneLine(id);
    EscapedOneLine(r);
    PrefixFromIsOneLine(Escape(id), Escape(r));
  }

  lemma NotFoundSplits()
    ensures NOT_FOUND == ", availability=UNKNOWN: " + "not found in evidence lookup"
  {
  }

  lemma NotFoundStart()
    ensures OneLine(", availability=UNKNOWN: ")
  {
  }

  lemma NotFoundEnd()
    ensures OneLine("not found in evidence lookup")
  {
  }

  lemma NotFoundIsOneLine()
    ensures OneLine(NOT_FOUND)
  {
    NotFoundSplits();
    NotFoundStart();
    NotFoundEnd();
    OneLineJoin(", availability=UNKNOWN: ", "not found in evidence lookup");
  }

  lemma ErrorIsOneLine()
    ensures OneLine(ERROR)
  {
    assert ERROR == ", availability=ERROR" + ": error=\"";
    OneLineJoin(", availability=ERROR", ": error=\"");
  }

  lemma AbsentIsOneLine()
    ensures OneLine(ABSENT)
  {
    assert ABSENT == ", availability=ABSENT" + ": reason=";
    OneLineJoin(", availability=ABSENT", ": reason=");
  }

  lemma PresentIsOneLine()
    ensures OneLine(PRESENT)
  {
    assert PRESENT == ", availability=PRESENT" + ": \"";
    OneLineJoin(", availability=PRESENT", ": \"");
  }

  lemma PresentIsOneLineIff(r: Record, maxChars: nat)
    requires r.Present?
    ensures OneLine(PresentText(r, maxChars).0) <==> SourceText(r).Some? || OneLine(Given(r.payloadHash, "unknown"))
  {
    var source := SourceText(r);
    if source.Some? {
      EscapedOneLine(source.value);
      if |source.value| > maxChars { EscapedOneLine(source.value[..maxChars]); }
    } else {
      OneLineJoin("payload_hash=", Given(r.payloadHash, "unknown"));
    }
  }

  /** The record has no text, and its payload hash, the one part that is not escaped, has a
      line break in it. */
  predicate BreaksLine(found: Lookup) {
    && found.Found? && found.record.Present? && SourceText(found.record).None?
    && !OneLine(Given(found.record.payloadHash, "unknown"))
  }

  lemma FramesAreOneLine(found: Lookup, maxChars: nat)
    ensures OneLine(Body(found, maxChars).0) && OneLine(Body(found, maxChars).2)
  {
    match found
    case NotFound => NotFoundIsOneLine();
    case Raised(_) => ErrorIsOneLine();
    case Found(Failing(_)) => ErrorIsOneLine();
    case Found(Absent(_)) => AbsentIsOneLine();
    case Found(Present(_, _, _)) => PresentIsOneLine();
  }

  lemma BodyIsOneLineIff(found: Lookup, maxChars: nat)
    ensures OneLine(Body(found, maxChars).1) <==> !BreaksLine(found)
  {
    match found
    case Raised(text) => EscapedOneLine("lookup error: " + text);
    case NotFound =>
    case Found(Absent(reason)) => EscapedOneLine(if reason.Some? then reason.value else "UNSPECIFIED");
    case Found(Failing(error)) => EscapedOneLine(if error.Some? then error.value else "unspecified");
    case Found(Present(_, _, _)) => PresentIsOneLineIff(found.record, maxChars);
  }

  /** A citation takes one line, exactly unless its record breaks it. */
  lemma LineIsOneLineIff(id: string, relationship: Option<string>, found: Lookup, maxChars: nat)
    ensures OneLine(LineOf(id, relationship, found, maxChars).0) <==> !BreaksLine(found)
  {
    var body := Body(found, maxChars);
    PrefixIsOneLine(id, relationship);
    FramesAreOneLine(found, maxChars);
    BodyIsOneLineIff(found, maxChars);
    JoinedOneLine(Prefix(id, relationship), body.0, body.1, body.2);
  }

  /* ---------- the block ---------- */

  datatype Sources = Sources(lookup: string -> Lookup, relationships: map<string, string>)

  function RelationshipOf(src: Sources, id: string): Option<string> {
    if id in src.relationships then Some(src.relationships[id]) else None
  }

  function Cited(src: Sources, id: string, maxChars: nat): (string, bool) {
    LineOf(id, RelationshipOf(src, id), src.lookup(id), maxChars)
  }

  /* ---------- the text of a line ---------- */

  /** The relationship cited, or UNKNOWN where none is given or it is empty. */
  function RelationshipText(src: Sources, id: string): string {
    if id in src.relationships && src.relationships[id] != "" then src.relationships[id] else "UNKNOWN"
  }

  function Opening(src: Sources, id: string): string {
    "[" + EscapeOnce(id) + "] relationship=" + EscapeOnce(RelationshipText(src, id))
  }

  /** What a present record shows: its quote, or where that is missing or empty its content; cut
      after `maxChars` characters, with dots for the rest; or its payload hash, where it has
      neither. */
  predicate Shows(r: Record, maxChars: nat, shown: string)
    requires r.Present?
  {
    var quoted := r.quote.Some? && r.quote.value != "";
    if !quoted && r.content.None?
    then shown == "payload_hash=" +
                  (if r.payloadHash.Some? && r.payloadHash.value != "" then r.payloadHash.value else "unknown")
    else var text := if quoted then r.quote.value else r.content.value;
         shown == if |text| <= maxChars then EscapeOnce(text) else EscapeOnce(text[..maxChars]) + "..."
  }

  /** Every line in full: an id the lookup does not know, a lookup that raised, and a record that
      is absent, failing or present. */
  lemma LineText(src: Sources, id: string, maxChars: nat)
    ensures var line, head := Cited(src, id, maxChars).0, Opening(src, id);
            match src.lookup(id)
            case NotFound => line == head + ", availability=UNKNOWN: not found in evidence lookup"
            case Raised(text) =>
              line == head + ", availability=ERROR: error=\"" + EscapeOnce("lookup error: " + text) + "\""
            case Found(Absent(reason)) =>
              line == head + ", availability=ABSENT: reason="
                      + EscapeOnce(if reason.Some? then reason.value else "UNSPECIFIED")
            case Found(Failing(error)) =>
              line == head + ", availability=ERROR: error=\""
                      + EscapeOnce(if error.Some? then error.value else "unspecified") + "\""
            case Found(Present(_, _, _)) =>
              exists shown :: Shows(src.lookup(id).record, maxChars, shown)
                && line == head + ", availability=PRESENT: \"" + shown + "\""
  {
    var found := src.lookup(id);
    EscapeIsOnePass(id);
    EscapeIsOnePass(RelationshipText(src, id));
    match found
    case NotFound => NothingAdded(Opening(src, id) + NOT_FOUND);
    case Raised(text) => EscapeIsOnePass("lookup error: " + text);
    case Found(Absent(reason)) =>
      var given := EscapeOnce(if reason.Some? then reason.value else "UNSPECIFIED");
      EscapeIsOnePass(if reason.Some? then reason.value else "UNSPECIFIED");
      NothingAdded(Opening(src, id) + ", availability=ABSENT: reason=" + given);
    case Found(Failing(error)) => EscapeIsOnePass(if error.Some? then error.value else "unspecified");
    case Found(Present(_, _, _)) => TextIsShown(found.record, maxChars);
  }

  lemma NothingAdded(line: string)
    ensures line + "" == line
  {
  }

  lemma TextIsShown(r: Record, maxChars: nat)
    requires r.Present?
    ensures Shows(r, maxChars, PresentText(r, maxChars).0)
  {
    var source := SourceText(r);
    if source.Some? {
      EscapeIsOnePass(source.value);
      if |source.value| > maxChars { EscapeIsOnePass(source.value[..maxChars]); }
    }
  }

  /** A line is cut exactly where it shows a text longer than the budget. */
  lemma CutIff(src: Sources, id: string, maxChars: nat)
    ensures Cited(src, id, maxChars).1 <==>
            match src.lookup(id)
            case Found(Present(quote, content, _)) =>
              if quote.Some? && quote.value != "" then |quote.value| > maxChars
              else content.Some? && |content.value| > maxChars
            case _ => false
  {
  }

  /** Whether the lookup has a record for the id. */
  function HasRecord(src: Sources): string -> bool { id => src.lookup(id).Found? }

  method RenderEach(cite: string -> (string, bool), found: string -> bool, ids: seq<string>) returns (r: Rendered)
    ensures |r.lines| == |ids| && forall i :: 0 <= i < |ids| ==> r.lines[i] == cite(ids[i]).0
    ensures r.renderedIds == Filter(ids, found) && r.unresolvedIds == Filter(ids, Not(found))
    ensures r.truncated <==> exists i :: 0 <= i < |ids| && cite(ids[i]).1
  {
    var lines, rendered, unresolved, truncated := [], [], [], false;
    for i := 0 to |ids|
      invariant |lines| == i
      invariant forall k :: 0 <= k < i ==> lines[k] == cite(ids[k]).0
      invariant rendered == Filter(ids[..i], found) && unresolved == Filter(ids[..i], Not(found))
      invariant truncated <==> exists k :: 0 <= k < i && cite(ids[k]).1
    {
      assert ids[..i + 1][..i] == ids[..i];
      var cited := cite(ids[i]);
      lines := lines + [cited.0];
      truncated := truncated || cited.1;
      if found(ids[i]) {
        rendered := rendered + [ids[i]];
      } else {
        unresolved := unresolved + [ids[i]];
      }
    }
    assert ids[..|ids|] == ids;
    r := Rendered(lines, rendered, unresolved, truncated);
  }

  /** One line per cited id, in citation order; None is the refusal of a budget below one. */
  method RenderEvidence(src: Sources, ids: seq<string>, maxChars: int) returns (r: Option<Rendered>)
    ensures r.None? <==> maxChars < 1
    ensures r.Some? ==> |r.value.lines| == |ids|
    ensures r.Some? ==> forall i :: 0 <= i < |ids| ==> r.value.lines[i] == Cited(src, ids[i], maxChars).0
    ensures r.Some? ==> r.value.renderedIds == Filter(ids, HasRecord(src))
    ensures r.Some? ==> r.value.unresolvedIds == Filter(ids, Not(HasRecord(src)))
    ensures r.Some? ==> (r.value.truncated <==> exists i :: 0 <= i < |ids| && Cited(src, ids[i], maxChars).1)
  {
    if maxChars < 1 {
      return None;
    }
    var cite := id => Cited(src, id, maxChars);
    var rendered := RenderEach(cite, HasRecord(src), ids);
    r := Some(rendered);
  }

  /** Every citation is either rendered from a record or unresolved, never both, and none is
      lost or repeated. */
  lemma CitationsArePartitioned(src: Sources, ids: seq<string>, id: string)
    ensures var rendered, unresolved := Filter(ids, HasRecord(src)), Filter(ids, Not(HasRecord(src)));
            && multiset(rendered) + multiset(unresolved) == multiset(ids)
            && (id in rendered <==> id in ids && src.lookup(id).Found?)
            && (id in unresolved <==> id in ids && !src.lookup(id).Found?)
  {
    FilterPartitions(ids, HasRecord(src));
    FilterHas(ids, HasRecord(src), id);
    FilterHas(ids, Not(HasRecord(src)), id);
  }

  /* ---------- the prompt ---------- */

  function JoinLines(lines: seq<string>): string {
    if lines == [] then "" else if |lines| == 1 then lines[0] else lines[0] + "\n" + JoinLines(lines[1..])
  }

  /** The pieces between the newlines. */
  function SplitLines(s: string): seq<string> {
    if s == "" then [""] else Started(s[0], SplitLines(s[1..]))
  }

  /** What one character before the text makes of its pieces. */
  function Started(c: char, lines: seq<string>): seq<string> {
    if c == '\n' then [""] + lines else if lines == [] then [[c]] else [[c] + lines[0]] + lines[1..]
  }

  lemma StartedAppend(c: char, a: seq<string>, b: seq<string>)
    requires a != []
    ensures Started(c, a + b) == Started(c, a) + b && Started(c, a) != []
  {
    assert (a + b)[0] == a[0] && (a + b)[1..] == a[1..] + b;
    assert [""] + (a + b) == [""] + a + b;
  }

  lemma {:induction false} SplitOne(line: string)
    requires '\n' !in line
    ensures SplitLines(line) == [line]
  {
    if line != "" {
      SplitOne(line[1..]);
      assert line == [line[0]] + line[1..];
    }
  }

  lemma {:induction false} SplitFirst(line: string, rest: string)
    requires '\n' !in line
    ensures SplitLines(line + "\n" + rest) == [line] + SplitLines(rest)
  {
    if line == "" {
      assert (line + "\n" + rest)[1..] == rest;
    } else {
      SplitFirst(line[1..], rest);
      assert (line + "\n" + rest)[1..] == line[1..] + "\n" + rest;
      var later := SplitLines(line[1..] + "\n" + rest);
      assert later[0] == line[1..] && later[1..] == SplitLines(rest);
      assert [line[0]] + later[0] == line;
    }
  }

  lemma {:induction false} SplitJoined(lines: seq<string>)
    requires lines != [] && forall line <- lines :: '\n' !in line
    ensures SplitLines(JoinLines(lines)) == lines
  {
    assert lines[0] in lines;
    if |lines| == 1 {
      SplitOne(lines[0]);
    } else {
      assert forall line <- lines[1..] :: line in lines;
      SplitJoined(lines[1..]);
      SplitFirst(lines[0], JoinLines(lines[1..]));
    }
  }

  lemma CitedIsOneLine(src: Sources, id: string, maxChars: nat)
    requires !BreaksLine(src.lookup(id))
    ensures OneLine(Cited(src, id, maxChars).0)
  {
    LineIsOneLineIff(id, RelationshipOf(src, id), src.lookup(id), maxChars);
  }

  lemma CitationsAreOneLine(src: Sources, ids: seq<string>, maxChars: nat, lines: seq<string>)
    requires |lines| == |ids| && forall i :: 0 <= i < |ids| ==> lines[i] == Cited(src, ids[i], maxChars).0
    requires forall id <- ids :: !BreaksLine(src.lookup(id))
    ensures forall line <- lines :: OneLine(line)
  {
    forall i | 0 <= i < |ids| ensures OneLine(lines[i]) {
      assert ids[i] in ids;
      CitedIsOneLine(src, ids[i], maxChars);
    }
  }

  /** Joined with newlines and split again, the block gives back one line per citation, in
      citation order, as long as no payload hash breaks a line. */
  lemma OneLinePerCitation(src: Sources, ids: seq<string>, maxChars: nat, lines: seq<string>)
    requires |lines| == |ids| > 0 && forall i :: 0 <= i < |ids| ==> lines[i] == Cited(src, ids[i], maxChars).0
    requires forall id <- ids :: !BreaksLine(src.lookup(id))
    ensures SplitLines(JoinLines(lines)) == lines
  {
    CitationsAreOneLine(src, ids, maxChars, lines);
    SplitJoined(lines);
  }

  /** Splitting what two texts and a newline between them make splits each. */
  lemma {:induction false} SplitBoth(x: string, y: string)
    ensures SplitLines(x + "\n" + y) == SplitLines(x) + SplitLines(y) && SplitLines(x) != []
  {
    var all := x + "\n" + y;
    if x == "" {
      assert all == "\n" + y && all[1..] == y;
    } else {
      SplitBoth(x[1..], y);
      assert all[0] == x[0] && all[1..] == x[1..] + "\n" + y;
      StartedAppend(x[0], SplitLines(x[1..]), SplitLines(y));
    }
  }

  lemma {:induction false} JoinBoth(a: seq<string>, b: seq<string>)
    requires a != [] && b != []
    ensures JoinLines(a + b) == JoinLines(a) + "\n" + JoinLines(b)
  {
    if |a| == 1 {
      assert (a + b)[1..] == b;
    } else {
      assert (a + b)[1..] == a[1..] + b;
      JoinBoth(a[1..], b);
      assert a[0] + "\n" + (JoinLines(a[1..]) + "\n" + JoinLines(b))
             == a[0] + "\n" + JoinLines(a[1..]) + "\n" + JoinLines(b);
    }
  }

  /** What an adviser is asked; `notice` marks the evidence as untrusted. */
  datatype Question = Question(
    instruction: string,
    notice: string,
    kind: string,
    subject: string,
    other: Option<string>,
    evidenceIds: seq<string>,
    evidenceContext: seq<string>,
    context: seq<string>,
    recommendations: set<string>)

  function Head(q: Question): seq<string> {
    [q.instruction] + (if q.evidenceContext != [] then [q.notice] else [])
    + ["kind: " + q.kind, "subject: " + q.subject]
    + (if q.other.Some? then ["other: " + q.other.value] else [])
    + ["evidence_ids: " + Separated(q.evidenceIds, ", ")]
  }

  function Tail(q: Question): seq<string> {
    seq(|q.context|, i requires 0 <= i < |q.context| => "context: " + q.context[i])
    + ["allowed_recommendations: " + Separated(SortedStrings(q.recommendations), ", ")]
  }

  function Lines(q: Question): seq<string> { Head(q) + q.evidenceContext + Tail(q) }

  function Prompt(q: Question): string { JoinLines(Lines(q)) }

  lemma {:induction false} JoinIsSeparated(lines: seq<string>)
    ensures JoinLines(lines) == Separated(lines, "\n")
  {
    if |lines| > 1 {
      JoinIsSeparated(lines[1..]);
      SeparatedFirst(lines, "\n");
      Regrouped(lines[0], "\n", JoinLines(lines[1..]));
    }
  }

  /** The lines before the evidence block: the instruction, the notice only where there is
      evidence text, what is asked and of whom, and the cited ids. */
  lemma HeadIs(q: Question)
    ensures var told := if q.evidenceContext == [] then 0 else 1;
            var two := if q.other.None? then 0 else 1;
            && |Head(q)| == 4 + told + two && Head(q)[0] == q.instruction
            && (told == 1 ==> Head(q)[1] == q.notice)
            && Head(q)[1 + told] == "kind: " + q.kind && Head(q)[2 + told] == "subject: " + q.subject
            && (two == 1 ==> Head(q)[3 + told] == "other: " + q.other.value)
            && Head(q)[3 + told + two] == "evidence_ids: " + Separated(q.evidenceIds, ", ")
  {
  }

  /** The lines after it: the context, and last the recommendations allowed, in order. */
  lemma TailIs(q: Question, allowed: seq<string>)
    requires (forall r :: r in allowed <==> r in q.recommendations) && Ascending(Leq, allowed)
    ensures |Tail(q)| == |q.context| + 1
    ensures forall i :: 0 <= i < |q.context| ==> Tail(q)[i] == "context: " + q.context[i]
    ensures Tail(q)[|q.context|] == "allowed_recommendations: " + Separated(allowed, ", ")
  {
    LeqIsTotalOrder();
    AscendingUnique(Leq, allowed, SortedStrings(q.recommendations));
  }

  /** The prompt is these lines and the evidence between them, with a newline between two. */
  lemma PromptIs(q: Question)
    ensures Prompt(q) == Separated(Head(q) + q.evidenceContext + Tail(q), "\n")
  {
    JoinIsSeparated(Lines(q));
  }

  lemma AllJoined(a: seq<string>, b: seq<string>, c: seq<string>)
    requires a != [] && b != [] && c != []
    ensures JoinLines(a + b + c) == JoinLines(a) + "\n" + (JoinLines(b) + "\n" + JoinLines(c))
  {
    JoinBoth(b, c);
    JoinBoth(a, b + c);
    Regrouped(a, b, c);
  }

  /** In the whole prompt, whatever the other lines hold, the evidence block stays one line per
      citation, in citation order, in one piece between what comes before and after. */
  lemma PromptKeepsCitations(src: Sources, ids: seq<string>, maxChars: nat, q: Question)
    requires |q.evidenceContext| == |ids| > 0
    requires forall i :: 0 <= i < |ids| ==> q.evidenceContext[i] == Cited(src, ids[i], maxChars).0
    requires forall id <- ids :: !BreaksLine(src.lookup(id))
    ensures SplitLines(Prompt(q)) == SplitLines(JoinLines(Head(q))) + q.evidenceContext + SplitLines(JoinLines(Tail(q)))
  {
    var head, block, tail := JoinLines(Head(q)), JoinLines(q.evidenceContext), JoinLines(Tail(q));
    AllJoined(Head(q), q.evidenceContext, Tail(q));
    SplitBoth(head, block + "\n" + tail);
    SplitBoth(block, tail);
    OneLinePerCitation(src, ids, maxChars, q.evidenceContext);
    Regrouped(SplitLines(head), SplitLines(block), SplitLines(tail));
  }
}
