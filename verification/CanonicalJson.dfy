/** The stable JSON rendering behind record ids (src/kgcs/records.py, `_canonical_json`):
    `json.dumps` with sorted keys, separators "," and ":" and ASCII output, as section 7 of
    RFC 8259 allows. */
module CanonicalJson {
  import opened Wrappers
  import opened Ordering
  import opened Numerals
  import opened Sequences

  /** A JSON-native value.  Floats carry the text Python prints for them. */
  datatype Json =
    | Null
    | Bool(b: bool)
    | Int(n: int)
    | Float(repr: FloatText)
    | Str(text: string)
    | Arr(items: seq<Json>)
    | Obj(fields: map<string, Json>)

  predicate NumberChar(c: char) {
    '0' <= c <= '9' || c in "+-.eEINafinty"
  }

  predicate IsFloatText(s: string) {
    && s != "" && ('0' <= s[0] <= '9' || s[0] in "-NI")
    && (forall c <- s :: NumberChar(c))
    && (exists c <- s :: c in ".eNI")
  }

  function SampleFloat(): (s: string)
    ensures IsFloatText(s)
  {
    var s := "0.0";
    assert s[1] in s && s[1] in ".eNI";
    s
  }

  /** Python prints floats as "1.0", "-0.5", "1e+16", "NaN", "-Infinity": never like an int. */
  type FloatText = s: string | IsFloatText(s) witness SampleFloat()

  /* ---------- strings ---------- */

  function HexDigit(d: nat): char
    requires d < 16
  {
    "0123456789abcdef"[d]
  }

  function PowerOf16(width: nat): nat { if width == 0 then 1 else 16 * PowerOf16(width - 1) }

  function Hex(n: nat, width: nat): (s: string)
    ensures |s| == width
  {
    if width == 0 then "" else Hex(n / 16, width - 1) + [HexDigit(n % 16)]
  }

  /** The letter of a two-character escape, if c has one. */
  function Short(c: char): (e: string)
    ensures |e| <= 1
  {
    if c == '\"' then "\""
    else if c == '\\' then "\\"
    else if c == '\n' then "n"
    else if c == '\r' then "r"
    else if c == '\t' then "t"
    else if c as int == 8 then "b"
    else if c as int == 12 then "f"
    else ""
  }

  function EscapeChar(c: char): (e: string)
    ensures e != ""
  {
    var n := c as int;
    if Short(c) != "" then "\\" + Short(c)
    else if ' ' <= c <= '~' then [c]
    else if n < 0x10000 then "\\u" + Hex(n, 4)
    else "\\u" + Hex(0xD800 + (n - 0x10000) / 0x400, 4) + "\\u" + Hex(0xDC00 + (n - 0x10000) % 0x400, 4)
  }

  /** The escaped characters of s and the closing quote. */
  function EscapeTail(s: string): string {
    if s == "" then "\"" else EscapeChar(s[0]) + EscapeTail(s[1..])
  }

  function Quoted(s: string): string { "\"" + EscapeTail(s) }

  /* ---------- values ---------- */

  function Integer(n: int): string {
    if n < 0 then "-" + Decimal(-n) else Decimal(n)
  }

  function Print(v: Json): string
    decreases v, 2
  {
    match v
    case Null => "null"
    case Bool(b) => if b then "true" else "false"
    case Int(n) => Integer(n)
    case Float(repr) => repr
    case Str(text) => Quoted(text)
    case Arr(items) => if items == [] then "[]" else "[" + Print(items[0]) + PrintItems(items[1..])
    case Obj(fields) =>
      var keys := SortedStrings(fields.Keys);
      if keys == [] then "{}" else "{" + PrintField(v, keys[0]) + PrintFields(v, keys[1..])
  }

  function PrintItems(items: seq<Json>): string
    decreases items
  {
    if items == [] then "]" else "," + Print(items[0]) + PrintItems(items[1..])
  }

  function PrintField(v: Json, key: string): string
    requires v.Obj? && key in v.fields
    decreases v, 0
  {
    Quoted(key) + ":" + Print(v.fields[key])
  }

  /** The fields of object v that keys names, each after a comma, and the closing brace. */
  function PrintFields(v: Json, keys: seq<string>): string
    requires v.Obj? && forall k <- keys :: k in v.fields
    decreases v, 1, |keys|
  {
    if keys == [] then "}" else "," + PrintField(v, keys[0]) + PrintFields(v, keys[1..])
  }

  /* ---------- unique readability ---------- */

  lemma Cut(a: string, x: string, b: string, y: string)
    requires a + x == b + y && |a| == |b|
    ensures a == b && x == y
  {
    assert a == (a + x)[..|a|] && b == (b + y)[..|b|];
    assert x == (a + x)[|a|..] && y == (b + y)[|b|..];
  }

  /** Drops equally long heads from two texts made of three parts and a tail. */
  lemma Strip(a: string, p: string, q: string, x: string, b: string, r: string, s: string, y: string)
    requires a + p + q + x == b + r + s + y && |a| == |b|
    ensures a == b && p + (q + x) == r + (s + y)
  {
    assert a + p + q + x == a + (p + (q + x));
    assert b + r + s + y == b + (r + (s + y));
    Cut(a, p + (q + x), b, r + (s + y));
  }

  /* ---------- reading a string back, by section 7 of RFC 8259 ---------- */

  function HexValue(c: char): Option<nat> {
    if '0' <= c <= '9' then Some(c as int - '0' as int)
    else if 'a' <= c <= 'f' then Some(10 + (c as int - 'a' as int))
    else if 'A' <= c <= 'F' then Some(10 + (c as int - 'A' as int))
    else None
  }

  /** The number its first `width` characters spell in base 16. */
  function HexNumber(t: string, width: nat): Option<nat> {
    if width == 0 then Some(0)
    else if |t| < width then None
    else
      match (HexNumber(t, width - 1), HexValue(t[width - 1]))
      case (Some(high), Some(low)) => Some(16 * high + low)
      case _ => None
  }

  /** What a two-character escape stands for. */
  function Unescaped(e: char): Option<char> {
    match e
    case '"' => Some('"') case '\\' => Some('\\') case '/' => Some('/')
    case 'b' => Some(8 as char) case 'f' => Some(12 as char)
    case 'n' => Some('\n') case 'r' => Some('\r') case 't' => Some('\t')
    case _ => None
  }

  /** The character that four hexadecimal digits stand for, or two times four where the first
      four are the first half of a surrogate pair, and what follows. */
  function ReadUnit(t: string): (r: Option<(char, string)>)
    ensures r.Some? ==> |r.value.1| < |t|
  {
    match HexNumber(t, 4)
    case None => None
    case Some(unit) =>
      if unit < 0xD800 || 0xE000 <= unit < 0x10000 then Some((unit as char, t[4..]))
      else if unit >= 0xDC00 || |t| < 6 || t[4..6] != "\\u" then None
      else
        match HexNumber(t[6..], 4)
        case None => None
        case Some(low) =>
          if 0xDC00 <= low < 0xE000
          then Some(((0x10000 + (unit - 0xD800) * 0x400 + (low - 0xDC00)) as char, t[10..]))
          else None
  }

  /** The first character of a string's text, and what follows it. */
  function ReadChar(t: string): (r: Option<(char, string)>)
    requires t != ""
    ensures r.Some? ==> |r.value.1| < |t|
  {
    if t[0] < ' ' || t[0] == '"' then None
    else if t[0] != '\\' then Some((t[0], t[1..]))
    else if |t| == 1 then None
    else if t[1] == 'u' then ReadUnit(t[2..])
    else
      match Unescaped(t[1])
      case None => None
      case Some(c) => Some((c, t[2..]))
  }

  /** A string's characters up to its closing quote, and what follows that. */
  function ReadTail(t: string): Option<(string, string)>
    decreases |t|
  {
    if t == "" then None
    else if t[0] == '"' then Some(("", t[1..]))
    else
      match ReadChar(t)
      case None => None
      case Some((c, rest)) =>
        match ReadTail(rest)
        case None => None
        case Some((s, after)) => Some(([c] + s, after))
  }

  lemma {:induction false} HexReadsBack(n: nat, width: nat, x: string)
    requires n < PowerOf16(width)
    ensures HexNumber(Hex(n, width) + x, width) == Some(n)
  {
    if width > 0 {
      var high, last := Hex(n / 16, width - 1), [HexDigit(n % 16)];
      HexReadsBack(n / 16, width - 1, last + x);
      Regrouped(high, last, x);
      assert (high + last + x)[width - 1] == last[0] && HexValue(last[0]) == Some(n % 16);
    }
  }

  lemma UnitReadsBack(n: nat, x: string)
    requires n < 0x10000
    ensures HexNumber(Hex(n, 4) + x, 4) == Some(n) && (Hex(n, 4) + x)[4..] == x
  {
    assert PowerOf16(4) == 0x10000;
    HexReadsBack(n, 4, x);
  }

  lemma PairPieces(a: string, b: string, x: string)
    requires |a| == 4 && |b| == 4
    ensures "\\u" + a + "\\u" + b + x == "\\u" + (a + ("\\u" + (b + x)))
    ensures var t := a + ("\\u" + (b + x)); t[4..6] == "\\u" && t[6..] == b + x && t[10..] == x
  {
  }

  lemma PairUnit(c: char, x: string)
    requires c as int >= 0x10000
    ensures var n := c as int - 0x10000;
            ReadUnit(Hex(0xD800 + n / 0x400, 4) + ("\\u" + (Hex(0xDC00 + n % 0x400, 4) + x))) == Some((c, x))
  {
    var n := c as int - 0x10000;
    var a, b := Hex(0xD800 + n / 0x400, 4), Hex(0xDC00 + n % 0x400, 4);
    PairPieces(a, b, x);
    UnitReadsBack(0xD800 + n / 0x400, "\\u" + (b + x));
    UnitReadsBack(0xDC00 + n % 0x400, x);
  }

  lemma UnicodeReadsBack(t: string, x: string)
    requires t == "\\u" + x
    ensures ReadChar(t) == ReadUnit(x)
  {
    assert t[2..] == x;
  }

  lemma PairReadsBack(c: char, x: string)
    requires c as int >= 0x10000
    ensures EscapeChar(c) + x != "" && ReadChar(EscapeChar(c) + x) == Some((c, x))
  {
    var n := c as int - 0x10000;
    var a, b := Hex(0xD800 + n / 0x400, 4), Hex(0xDC00 + n % 0x400, 4);
    assert EscapeChar(c) == "\\u" + a + "\\u" + b;
    PairPieces(a, b, x);
    UnicodeReadsBack(EscapeChar(c) + x, a + ("\\u" + (b + x)));
    PairUnit(c, x);
  }

  lemma CharReadsBack(c: char, x: string)
    ensures EscapeChar(c) + x != "" && ReadChar(EscapeChar(c) + x) == Some((c, x))
  {
    if c as int >= 0x10000 {
      PairReadsBack(c, x);
    } else if Short(c) == "" && !(' ' <= c <= '~') {
      UnitReadsBack(c as int, x);
      assert "\\u" + Hex(c as int, 4) + x == "\\u" + (Hex(c as int, 4) + x);
      UnicodeReadsBack(EscapeChar(c) + x, Hex(c as int, 4) + x);
    } else {
      var e := EscapeChar(c);
      assert (e + x)[|e|..] == x;
    }
  }

  /** A quoted string reads back up to its closing quote, whatever follows. */
  lemma {:induction false} TailReadsBack(s: string, x: string)
    ensures ReadTail(EscapeTail(s) + x) == Some((s, x))
  {
    if s == "" {
      assert ("\"" + x)[1..] == x;
    } else {
      var rest := EscapeTail(s[1..]) + x;
      Regrouped(EscapeChar(s[0]), EscapeTail(s[1..]), x);
      CharReadsBack(s[0], rest);
      TailReadsBack(s[1..], x);
      assert s == [s[0]] + s[1..];
    }
  }

  lemma QuotedInjective(s: string, x: string, t: string, y: string)
    requires Quoted(s) + x == Quoted(t) + y
    ensures s == t && x == y
  {
    Regrouped("\"", EscapeTail(s), x);
    Regrouped("\"", EscapeTail(t), y);
    Cut("\"", EscapeTail(s) + x, "\"", EscapeTail(t) + y);
    TailReadsBack(s, x);
    TailReadsBack(t, y);
  }

  /** What may follow a value: nothing, a separator, a closing bracket, or NUL. */
  predicate Stops(x: string) {
    x == "" || x[0] in ",]}" || x[0] == '\0'
  }

  lemma NumberShorter(a: string, x: string, b: string, y: string)
    requires (forall c <- b :: NumberChar(c)) && Stops(x) && |a| < |b|
    ensures a + x != b + y
  {
    if x != "" {
      assert (a + x)[|a|] == x[0] && (b + y)[|a|] == b[|a|];
      assert b[|a|] in b;
    }
  }

  lemma NumberInjective(a: string, x: string, b: string, y: string)
    requires (forall c <- a :: NumberChar(c)) && (forall c <- b :: NumberChar(c))
    requires Stops(x) && Stops(y) && a + x == b + y
    ensures a == b && x == y
  {
    if |a| < |b| {
      NumberShorter(a, x, b, y);
    } else if |b| < |a| {
      NumberShorter(b, y, a, x);
    }
    Cut(a, x, b, y);
  }

  /** The first character tells the kind of value. */
  predicate Leads(v: Json, c: char) {
    match v
    case Null => c == 'n'
    case Bool(b) => c == if b then 't' else 'f'
    case Int(_) => '0' <= c <= '9' || c == '-'
    case Float(_) => '0' <= c <= '9' || c in "-NI"
    case Str(_) => c == '\"'
    case Arr(_) => c == '['
    case Obj(_) => c == '{'
  }

  lemma PrintLead(v: Json)
    ensures Print(v) != "" && Leads(v, Print(v)[0])
  {
    if v.Int? && v.n >= 0 { assert Decimal(v.n)[0] in Decimal(v.n); }
  }

  lemma SignShows(n: int)
    ensures Integer(n) != "" && (Integer(n)[0] == '-' <==> n < 0)
  {
    if n >= 0 { assert Decimal(n)[0] in Decimal(n); }
  }

  lemma IntegerInjective(m: int, n: int)
    requires Integer(m) == Integer(n)
    ensures m == n
  {
    if m < 0 && n < 0 {
      assert Decimal(-m) == Integer(m)[1..] && Decimal(-n) == Integer(n)[1..];
      DecimalInjective(-m, -n);
    } else if m >= 0 && n >= 0 {
      DecimalInjective(m, n);
    } else {
      SignShows(m);
      SignShows(n);
    }
  }

  predicate Number(v: Json) { v.Int? || v.Float? }

  lemma NumberText(v: Json)
    requires Number(v)
    ensures forall c <- Print(v) :: NumberChar(c)
    ensures v.Int? ==> forall c <- Print(v) :: c !in ".eNI"
  {
  }

  lemma NumbersInjective(v: Json, x: string, w: Json, y: string)
    requires Number(v) && Number(w) && Stops(x) && Stops(y)
    requires Print(v) + x == Print(w) + y
    ensures v == w && x == y
  {
    NumberText(v);
    NumberText(w);
    NumberInjective(Print(v), x, Print(w), y);
    if v.Int? && w.Int? { IntegerInjective(v.n, w.n); }
  }

  /** Printed values can be read back in only one way, whatever follows them. */
  lemma {:induction false} PrintInjective(v: Json, x: string, w: Json, y: string)
    requires Stops(x) && Stops(y) && Print(v) + x == Print(w) + y
    ensures v == w && x == y
    decreases v, 2
  {
    PrintLead(v);
    PrintLead(w);
    assert Print(v)[0] == (Print(v) + x)[0] == Print(w)[0];
    if Number(v) {
      NumbersInjective(v, x, w, y);
    } else {
      match v
      case Null | Bool(_) => Cut(Print(v), x, Print(w), y);
      case Str(s) => QuotedInjective(s, x, w.text, y);
      case Arr(items) => ArraysInjective(v, x, w, y);
      case Obj(fields) => ObjectsInjective(v, x, w, y);
      case Int(_) | Float(_) => assert false;
    }
  }

  lemma {:induction false} ArraysInjective(v: Json, x: string, w: Json, y: string)
    requires v.Arr? && w.Arr? && Print(v) + x == Print(w) + y
    ensures v == w && x == y
    decreases v, 1
  {
    var s, t := v.items, w.items;
    assert Print(v)[1] == (Print(v) + x)[1] && Print(w)[1] == (Print(w) + y)[1];
    if s != [] { PrintLead(s[0]); }
    if t != [] { PrintLead(t[0]); }
    if s == [] || t == [] {
      Cut("[]", x, "[]", y);
    } else {
      var p, q := PrintItems(s[1..]), PrintItems(t[1..]);
      Strip("[", Print(s[0]), p, x, "[", Print(t[0]), q, y);
      ItemsLead(s[1..], x);
      ItemsLead(t[1..], y);
      PrintInjective(s[0], p + x, t[0], q + y);
      ItemsInjective(s[1..], x, t[1..], y);
    }
  }

  lemma ItemsLead(s: seq<Json>, x: string)
    ensures (PrintItems(s) + x)[0] == if s == [] then ']' else ','
    ensures Stops(PrintItems(s) + x)
  {
  }

  lemma {:induction false} ItemsInjective(s: seq<Json>, x: string, t: seq<Json>, y: string)
    requires PrintItems(s) + x == PrintItems(t) + y
    ensures s == t && x == y
    decreases s, 1
  {
    ItemsLead(s, x);
    ItemsLead(t, y);
    if s == [] || t == [] {
      Cut("]", x, "]", y);
    } else {
      ItemInjective(s, x, t, y);
    }
  }

  lemma {:induction false} ItemInjective(s: seq<Json>, x: string, t: seq<Json>, y: string)
    requires PrintItems(s) + x == PrintItems(t) + y && s != [] && t != []
    ensures s == t && x == y
    decreases s, 0
  {
    var p, q := PrintItems(s[1..]), PrintItems(t[1..]);
    Strip(",", Print(s[0]), p, x, ",", Print(t[0]), q, y);
    ItemsLead(s[1..], x);
    ItemsLead(t[1..], y);
    PrintInjective(s[0], p + x, t[0], q + y);
    ItemsInjective(s[1..], x, t[1..], y);
  }

  lemma {:induction false} FieldInjective(v: Json, k: string, x: string, w: Json, l: string, y: string)
    requires v.Obj? && k in v.fields && w.Obj? && l in w.fields && Stops(x) && Stops(y)
    requires PrintField(v, k) + x == PrintField(w, l) + y
    ensures k == l && v.fields[k] == w.fields[l] && x == y
    decreases v, 0
  {
    var a, b := v.fields[k], w.fields[l];
    Regroup4(Quoted(k), ":", Print(a), x);
    Regroup4(Quoted(l), ":", Print(b), y);
    QuotedInjective(k, ":" + (Print(a) + x), l, ":" + (Print(b) + y));
    Cut(":", Print(a) + x, ":", Print(b) + y);
    PrintInjective(a, x, b, y);
  }

  lemma Regroup4(p: string, q: string, r: string, x: string)
    ensures p + q + r + x == p + (q + (r + x))
  {
  }

  lemma FieldsLead(v: Json, ks: seq<string>, x: string)
    requires v.Obj? && forall k <- ks :: k in v.fields
    ensures (PrintFields(v, ks) + x)[0] == if ks == [] then '}' else ','
    ensures Stops(PrintFields(v, ks) + x)
  {
  }

  lemma {:induction false} FieldsInjective(v: Json, ks: seq<string>, x: string, w: Json, ls: seq<string>, y: string)
    requires v.Obj? && (forall k <- ks :: k in v.fields) && w.Obj? && (forall k <- ls :: k in w.fields)
    requires PrintFields(v, ks) + x == PrintFields(w, ls) + y
    ensures ks == ls && x == y && forall k <- ks :: v.fields[k] == w.fields[k]
    decreases v, 1, |ks|
  {
    FieldsLead(v, ks, x);
    FieldsLead(w, ls, y);
    if ks == [] || ls == [] {
      Cut("}", x, "}", y);
    } else {
      Strip(",", PrintField(v, ks[0]), PrintFields(v, ks[1..]), x,
            ",", PrintField(w, ls[0]), PrintFields(w, ls[1..]), y);
      AllFields(v, ks, x, w, ls, y);
    }
  }

  lemma {:induction false} AllFields(v: Json, ks: seq<string>, x: string, w: Json, ls: seq<string>, y: string)
    requires v.Obj? && (forall k <- ks :: k in v.fields) && w.Obj? && (forall k <- ls :: k in w.fields)
    requires ks != [] && ls != []
    requires PrintField(v, ks[0]) + (PrintFields(v, ks[1..]) + x) ==
             PrintField(w, ls[0]) + (PrintFields(w, ls[1..]) + y)
    ensures ks == ls && x == y && forall k <- ks :: v.fields[k] == w.fields[k]
    decreases v, 1, |ks|, 0
  {
    var p, q := PrintFields(v, ks[1..]), PrintFields(w, ls[1..]);
    FieldsLead(v, ks[1..], x);
    FieldsLead(w, ls[1..], y);
    FieldInjective(v, ks[0], p + x, w, ls[0], q + y);
    FieldsInjective(v, ks[1..], x, w, ls[1..], y);
  }

  /** What follows the opening brace of an object. */
  function Body(v: Json, ks: seq<string>): string
    requires v.Obj? && forall k <- ks :: k in v.fields
  {
    if ks == [] then "}" else PrintField(v, ks[0]) + PrintFields(v, ks[1..])
  }

  lemma BodyInjective(v: Json, ks: seq<string>, x: string, w: Json, ls: seq<string>, y: string)
    requires v.Obj? && (forall k <- ks :: k in v.fields) && w.Obj? && (forall k <- ls :: k in w.fields)
    requires Body(v, ks) + x == Body(w, ls) + y
    ensures ks == ls && x == y && forall k <- ks :: v.fields[k] == w.fields[k]
    decreases v, 1, |ks| + 1
  {
    assert Body(v, ks)[0] == (Body(v, ks) + x)[0] && Body(w, ls)[0] == (Body(w, ls) + y)[0];
    if ks == [] || ls == [] {
      Cut("}", x, "}", y);
    } else {
      Regrouped(PrintField(v, ks[0]), PrintFields(v, ks[1..]), x);
      Regrouped(PrintField(w, ls[0]), PrintFields(w, ls[1..]), y);
      AllFields(v, ks, x, w, ls, y);
    }
  }

  lemma ObjectText(v: Json)
    requires v.Obj?
    ensures Print(v) == "{" + Body(v, SortedStrings(v.fields.Keys))
  {
  }

  lemma SameFields(v: Json, w: Json, ks: seq<string>)
    requires v.Obj? && w.Obj? && forall k :: k in ks <==> k in v.fields
    requires forall k :: k in ks <==> k in w.fields
    requires forall k <- ks :: v.fields[k] == w.fields[k]
    ensures v == w
  {
    assert v.fields.Keys == w.fields.Keys;
    assert v.fields == w.fields;
  }

  lemma {:induction false} ObjectsInjective(v: Json, x: string, w: Json, y: string)
    requires v.Obj? && w.Obj? && Print(v) + x == Print(w) + y
    ensures v == w && x == y
    decreases v, 1, |SortedStrings(v.fields.Keys)| + 2
  {
    var ks, ls := SortedStrings(v.fields.Keys), SortedStrings(w.fields.Keys);
    ObjectText(v);
    ObjectText(w);
    Regrouped("{", Body(v, ks), x);
    Regrouped("{", Body(w, ls), y);
    Cut("{", Body(v, ks) + x, "{", Body(w, ls) + y);
    BodyInjective(v, ks, x, w, ls, y);
    SameFields(v, w, ks);
  }

  /* ---------- the text of a value ---------- */

  function Texts(items: seq<Json>): seq<string> { seq(|items|, i requires 0 <= i < |items| => Print(items[i])) }

  function FieldTexts(v: Json, keys: seq<string>): seq<string>
    requires v.Obj? && forall k <- keys :: k in v.fields
  {
    seq(|keys|, i requires 0 <= i < |keys| => Quoted(keys[i]) + (":" + Print(v.fields[keys[i]])))
  }

  lemma OneMoreText(first: string, second: string, tail: string, rest: string, close: string)
    requires second + tail == rest + close
    ensures first + ("," + second + tail) == first + ("," + rest) + close
  {
    Regrouped(",", second, tail);
    Regrouped(",", rest, close);
    Regrouped(first, "," + rest, close);
  }

  lemma FieldText(v: Json, keys: seq<string>)
    requires v.Obj? && keys != [] && forall k <- keys :: k in v.fields
    ensures FieldTexts(v, keys)[0] == PrintField(v, keys[0]) && FieldTexts(v, keys)[1..] == FieldTexts(v, keys[1..])
  {
    Regrouped(Quoted(keys[0]), ":", Print(v.fields[keys[0]]));
  }

  lemma {:induction false} ItemsText(items: seq<Json>)
    requires items != []
    ensures Print(items[0]) + PrintItems(items[1..]) == Separated(Texts(items), ",") + "]"
  {
    if |items| > 1 {
      ItemsText(items[1..]);
      SeparatedFirst(Texts(items), ",");
      assert Texts(items)[1..] == Texts(items[1..]);
      var rest := Separated(Texts(items[1..]), ",");
      OneMoreText(Print(items[0]), Print(items[1]), PrintItems(items[1..][1..]), rest, "]");
    }
  }

  lemma {:induction false} FieldsText(v: Json, keys: seq<string>)
    requires v.Obj? && keys != [] && forall k <- keys :: k in v.fields
    ensures PrintField(v, keys[0]) + PrintFields(v, keys[1..]) == Separated(FieldTexts(v, keys), ",") + "}"
  {
    FieldText(v, keys);
    if |keys| > 1 {
      FieldsText(v, keys[1..]);
      SeparatedFirst(FieldTexts(v, keys), ",");
      var rest := Separated(FieldTexts(v, keys[1..]), ",");
      OneMoreText(PrintField(v, keys[0]), PrintField(v, keys[1]), PrintFields(v, keys[1..][1..]), rest, "}");
    }
  }

  lemma QuotedReadsBack(s: string)
    ensures Quoted(s)[0] == '"' && ReadTail(Quoted(s)[1..]) == Some((s, ""))
  {
    TailReadsBack(s, "");
    assert Quoted(s)[1..] == EscapeTail(s) && EscapeTail(s) + "" == EscapeTail(s);
  }

  lemma IntegerSpells(n: int)
    ensures Integer(n) != "" && (n < 0 <==> Integer(n)[0] == '-')
    ensures Spelled(if n < 0 then Integer(n)[1..] else Integer(n)) == if n < 0 then -n else n
  {
    SignShows(n);
    DecimalSpells(if n < 0 then -n else n);
    if n < 0 { assert Integer(n)[1..] == Decimal(-n); }
  }

  /** A number's text is its digits, after a sign below zero; a string's is its characters
      between quotes, escaped so that they read back. */
  lemma ScalarIs(v: Json)
    requires !v.Arr? && !v.Obj?
    ensures match v
            case Null => Print(v) == "null"
            case Bool(b) => Print(v) == (if b then "true" else "false")
            case Int(n) => Print(v) != "" && (n < 0 <==> Print(v)[0] == '-')
                           && Spelled(if n < 0 then Print(v)[1..] else Print(v)) == (if n < 0 then -n else n)
            case Float(repr) => Print(v) == repr
            case Str(text) => Print(v) != "" && Print(v)[0] == '"' && ReadTail(Print(v)[1..]) == Some((text, ""))
  {
    match v
    case Int(n) => IntegerSpells(n);
    case Str(text) => QuotedReadsBack(text);
    case _ =>
  }

  lemma {:induction false} HexIsLower(n: nat, width: nat)
    ensures forall d <- Hex(n, width) :: '0' <= d <= '9' || 'a' <= d <= 'f'
  {
    if width > 0 { HexIsLower(n / 16, width - 1); }
  }

  /** Printable ASCII stands for itself but for the quote and the backslash, seven characters
      have a short escape, and any other is written with lower-case digits, in ASCII. */
  lemma EscapeShape(c: char)
    ensures var e := EscapeChar(c);
            && (e == [c] <==> ' ' <= c <= '~' && c != '"' && c != '\\')
            && (|e| == 2 <==> c in {'"', '\\', '\n', '\r', '\t', 8 as char, 12 as char})
            && forall d <- e :: ' ' <= d <= '~' && ('A' <= d <= 'Z' ==> e == [c])
  {
    var n := c as int;
    HexIsLower(n, 4);
    if n >= 0x10000 {
      HexIsLower(0xD800 + (n - 0x10000) / 0x400, 4);
      HexIsLower(0xDC00 + (n - 0x10000) % 0x400, 4);
    }
  }

  /** A list's is its items' texts with commas between them, in brackets. */
  lemma ListIs(items: seq<Json>)
    ensures Print(Arr(items)) == "[" + (Separated(Texts(items), ",") + "]")
  {
    if items != [] {
      ItemsText(items);
      Regrouped("[", Print(items[0]), PrintItems(items[1..]));
    }
  }

  /** An object's is its fields in ascending order of the keys, with commas between them and each
      as the quoted key, a colon and the value's text, in braces. */
  lemma ObjectIs(v: Json, keys: seq<string>)
    requires v.Obj? && (forall k :: k in keys <==> k in v.fields) && Ascending(Leq, keys)
    ensures Print(v) == "{" + (Separated(FieldTexts(v, keys), ",") + "}")
  {
    LeqIsTotalOrder();
    AscendingUnique(Leq, keys, SortedStrings(v.fields.Keys));
    if keys != [] {
      FieldsText(v, keys);
      Regrouped("{", PrintField(v, keys[0]), PrintFields(v, keys[1..]));
    }
  }
}
