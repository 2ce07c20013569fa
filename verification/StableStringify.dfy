/**
  The canonical serialisation behind the request hash.  A JavaScript string is a
  sequence of UTF-16 code units; a number is the text JavaScript prints for it.
 */
module StableStringify {
  import opened Prelude

  type Unit = u: nat | u < 0x10000

  type Text = seq<Unit>

  datatype Json =
    | Null
    | Bool(value: bool)
    | Num(token: Text)
    | Str(text: Text)
    | Arr(items: Items)
    | Obj(fields: Fields)

  datatype Items = NoItems | Item(head: Json, tail: Items)

  /** The own properties of an object, in insertion order. */
  datatype Fields = NoFields | Field(name: Text, value: Json, rest: Fields)

  const QUOTE: Unit := 0x22
  const BACKSLASH: Unit := 0x5c
  const COMMA: Unit := 0x2c
  const COLON: Unit := 0x3a
  const OPEN_BRACKET: Unit := 0x5b
  const CLOSE_BRACKET: Unit := 0x5d
  const OPEN_BRACE: Unit := 0x7b
  const CLOSE_BRACE: Unit := 0x7d
  const NEWLINE: Unit := 0x0a
  const NULL_TEXT: Text := [0x6e, 0x75, 0x6c, 0x6c]
  const TRUE_TEXT: Text := [0x74, 0x72, 0x75, 0x65]
  const FALSE_TEXT: Text := [0x66, 0x61, 0x6c, 0x73, 0x65]

  // -------------------------------------------------------------- JSON values

  /** Digits, signs, point and exponent. */
  predicate NumberUnit(u: Unit) {
    0x30 <= u <= 0x39 || u == 0x2b || u == 0x2d || u == 0x2e || u == 0x65
  }

  predicate Has(f: Fields, name: Text) {
    f.Field? && (f.name == name || Has(f.rest, name))
  }

  predicate Valid(v: Json) {
    match v
    case Num(token) => token != [] && forall u <- token :: NumberUnit(u)
    case Arr(items) => ValidItems(items)
    case Obj(fields) => ValidFields(fields)
    case _ => true
  }

  predicate ValidItems(items: Items) {
    items.NoItems? || (Valid(items.head) && ValidItems(items.tail))
  }

  /** Property names are distinct. */
  predicate ValidFields(f: Fields) {
    f.NoFields? || (!Has(f.rest, f.name) && Valid(f.value) && ValidFields(f.rest))
  }

  function Size(v: Json): nat {
    match v
    case Arr(items) => 1 + ItemsSize(items)
    case Obj(fields) => 1 + FieldsSize(fields)
    case _ => 0
  }

  function ItemsSize(items: Items): nat {
    if items.NoItems? then 0 else 1 + Size(items.head) + ItemsSize(items.tail)
  }

  function FieldsSize(f: Fields): nat {
    if f.NoFields? then 0 else 1 + Size(f.value) + FieldsSize(f.rest)
  }

  /** `value[key]`. */
  function Lookup(f: Fields, name: Text): (v: Json)
    requires Has(f, name)
    ensures Size(v) < FieldsSize(f) && (ValidFields(f) ==> Valid(v))
  {
    if f.name == name then f.value else Lookup(f.rest, name)
  }

  /** Equality up to the order of object keys, at every depth. */
  ghost predicate Equiv(v: Json, w: Json)
    decreases Size(v)
  {
    match v
    case Arr(items) => w.Arr? && EquivItems(items, w.items)
    case Obj(fields) =>
      && w.Obj?
      && (forall name :: Has(fields, name) <==> Has(w.fields, name))
      && (forall name :: Has(fields, name) && Has(w.fields, name) ==> Equiv(Lookup(fields, name), Lookup(w.fields, name)))
    case _ => v == w
  }

  ghost predicate EquivItems(a: Items, b: Items)
    decreases ItemsSize(a)
  {
    if a.NoItems? then b.NoItems? else b.Item? && Equiv(a.head, b.head) && EquivItems(a.tail, b.tail)
  }

  // ------------------------------------------------------------- sorting names

  /** The order of `sort()`: code unit by code unit. */
  predicate Less(a: Text, b: Text) {
    if b == [] then false
    else if a == [] then true
    else a[0] < b[0] || (a[0] == b[0] && Less(a[1..], b[1..]))
  }

  function Names(f: Fields): seq<Text> {
    if f.NoFields? then [] else [f.name] + Names(f.rest)
  }

  function Place(name: Text, sorted: seq<Text>): seq<Text> {
    if sorted == [] || !Less(sorted[0], name) then [name] + sorted else [sorted[0]] + Place(name, sorted[1..])
  }

  function Sort(names: seq<Text>): seq<Text> {
    if names == [] then [] else Place(names[0], Sort(names[1..]))
  }

  // ------------------------------------------------------------------- quoting

  predicate High(u: Unit) {
    0xd800 <= u < 0xdc00
  }

  predicate Low(u: Unit) {
    0xdc00 <= u < 0xe000
  }

  function Hex(d: nat): Unit
    requires d < 16
  {
    if d < 10 then 0x30 + d else 0x61 + d - 10
  }

  /** `\uXXXX`. */
  function UnicodeEscape(u: Unit): Text {
    [BACKSLASH, 0x75, Hex(u / 16 / 16 / 16), Hex(u / 16 / 16 % 16), Hex(u / 16 % 16), Hex(u % 16)]
  }

  /** The letter of a two-unit escape, or None. */
  function ShortEscape(u: Unit): Option<Unit> {
    if u == QUOTE || u == BACKSLASH then Some(u)
    else if u == 0x08 then Some(0x62)
    else if u == 0x09 then Some(0x74)
    else if u == 0x0a then Some(0x6e)
    else if u == 0x0c then Some(0x66)
    else if u == 0x0d then Some(0x72)
    else None
  }

  /** How many units of `s` are printed together: a surrogate pair is two. */
  function Taken(s: Text): (n: nat)
    requires s != []
    ensures 1 <= n <= |s|
  {
    if High(s[0]) && |s| > 1 && Low(s[1]) then 2 else 1
  }

  /** What they are printed as: quotes, backslashes, controls and lone surrogates are escaped. */
  function Chunk(s: Text): Text
    requires s != []
  {
    if ShortEscape(s[0]).Some? then [BACKSLASH, ShortEscape(s[0]).value]
    else if Taken(s) == 2 then s[..2]
    else if s[0] < 0x20 || High(s[0]) || Low(s[0]) then UnicodeEscape(s[0])
    else [s[0]]
  }

  function Escaped(s: Text): Text {
    if s == [] then [] else Chunk(s) + Escaped(s[Taken(s)..])
  }

  /** `JSON.stringify` of a string. */
  function Quote(s: Text): Text {
    [QUOTE] + Escaped(s) + [QUOTE]
  }

  // ------------------------------------------------------------ serialisation

  /** `stableStringify`. */
  function Stringify(v: Json): Text
    decreases Size(v), 1, 0
  {
    match v
    case Null => NULL_TEXT
    case Bool(b) => if b then TRUE_TEXT else FALSE_TEXT
    case Num(token) => token
    case Str(text) => Quote(text)
    case Arr(items) => [OPEN_BRACKET] + JoinItems(items) + [CLOSE_BRACKET]
    case Obj(fields) =>
      SortHas(fields);
      [OPEN_BRACE] + JoinMembers(Sort(Names(fields)), fields) + [CLOSE_BRACE]
  }

  function JoinItems(items: Items): Text
    decreases ItemsSize(items), 1, 0
  {
    if items.NoItems? then []
    else if items.tail.NoItems? then Stringify(items.head)
    else Stringify(items.head) + [COMMA] + JoinItems(items.tail)
  }

  ghost predicate AllHave(names: seq<Text>, f: Fields) {
    forall i :: 0 <= i < |names| ==> Has(f, names[i])
  }

  function Member(name: Text, f: Fields): Text
    requires Has(f, name)
    decreases FieldsSize(f), 0, 0
  {
    Quote(name) + [COLON] + Stringify(Lookup(f, name))
  }

  function JoinMembers(names: seq<Text>, f: Fields): Text
    requires AllHave(names, f)
    decreases FieldsSize(f), 1, |names|
  {
    if names == [] then []
    else if |names| == 1 then Member(names[0], f)
    else Member(names[0], f) + [COMMA] + JoinMembers(names[1..], f)
  }

  lemma {:induction false} NamesHave(f: Fields)
    ensures forall name :: name in Names(f) <==> Has(f, name)
  {
    if f.Field? {
      NamesHave(f.rest);
    }
  }

  lemma {:induction false} PlaceMembers(name: Text, sorted: seq<Text>)
    ensures forall other :: other in Place(name, sorted) <==> other == name || other in sorted
  {
    if sorted != [] && Less(sorted[0], name) {
      PlaceMembers(name, sorted[1..]);
      assert sorted == [sorted[0]] + sorted[1..];
    }
  }

  lemma {:induction false} SortMembers(names: seq<Text>)
    ensures forall name :: name in Sort(names) <==> name in names
  {
    if names != [] {
      SortMembers(names[1..]);
      PlaceMembers(names[0], Sort(names[1..]));
      assert names == [names[0]] + names[1..];
    }
  }

  lemma SortHas(f: Fields)
    ensures AllHave(Sort(Names(f)), f)
    ensures forall name :: name in Sort(Names(f)) <==> Has(f, name)
  {
    NamesHave(f);
    SortMembers(Names(f));
    forall i | 0 <= i < |Sort(Names(f))| ensures Has(f, Sort(Names(f))[i]) {
      assert Sort(Names(f))[i] in Sort(Names(f));
    }
  }

  /** The shorter of two texts comes first if it begins the other; else the first unit that differs decides. */
  ghost predicate Before(a: Text, b: Text, k: nat) {
    k <= |a| && k <= |b| && a[..k] == b[..k] && k < |b| && (k == |a| || a[k] < b[k])
  }

  lemma {:induction false} LessIsLexicographic(a: Text, b: Text)
    ensures Less(a, b) <==> exists k: nat :: Before(a, b, k)
  {
    if a == [] {
      assert b != [] ==> Before(a, b, 0);
    } else if b != [] {
      assert a == [a[0]] + a[1..] && b == [b[0]] + b[1..];
      LessIsLexicographic(a[1..], b[1..]);
      if Less(a, b) {
        if a[0] < b[0] {
          assert Before(a, b, 0);
        } else {
          var k: nat :| Before(a[1..], b[1..], k);
          assert a[..k + 1] == [a[0]] + a[1..][..k] == [b[0]] + b[1..][..k] == b[..k + 1];
          assert Before(a, b, k + 1);
        }
      }
      if k: nat :| Before(a, b, k) {
        if k > 0 {
          assert a[..k][0] == a[0] && b[..k][0] == b[0];
          assert a[1..][..k - 1] == a[..k][1..] == b[..k][1..] == b[1..][..k - 1];
          assert Before(a[1..], b[1..], k - 1);
        }
      }
    }
  }

  // ------------------------------------- the sorted order of a set is unique

  lemma {:induction false} LessIsTotal(a: Text, b: Text)
    ensures a == b || Less(a, b) || Less(b, a)
    ensures !(Less(a, b) && Less(b, a)) && (a == b ==> !Less(a, b))
  {
    if a != [] && b != [] {
      LessIsTotal(a[1..], b[1..]);
      assert a == [a[0]] + a[1..] && b == [b[0]] + b[1..];
    }
  }

  lemma {:induction false} LessIsTransitive(a: Text, b: Text, c: Text)
    requires Less(a, b) && Less(b, c)
    ensures Less(a, c)
  {
    if a != [] && a[0] == b[0] == c[0] {
      LessIsTransitive(a[1..], b[1..], c[1..]);
    }
  }

  ghost predicate Sorted(names: seq<Text>) {
    forall i, j :: 0 <= i < j < |names| ==> Less(names[i], names[j])
  }

  lemma {:induction false} PlaceSorted(name: Text, sorted: seq<Text>)
    requires Sorted(sorted) && name !in sorted
    ensures Sorted(Place(name, sorted))
  {
    if sorted != [] {
      LessIsTotal(sorted[0], name);
      if Less(sorted[0], name) {
        PlaceSorted(name, sorted[1..]);
        PlaceMembers(name, sorted[1..]);
        var rest := Place(name, sorted[1..]);
        forall j | 0 <= j < |rest| ensures Less(sorted[0], rest[j]) {
          assert rest[j] in rest;
        }
      } else {
        assert sorted[0] in sorted;
        forall j | 0 < j < |sorted| ensures Less(name, sorted[j]) {
          LessIsTransitive(name, sorted[0], sorted[j]);
        }
      }
    }
  }

  lemma {:induction false} SortSorted(f: Fields)
    requires ValidFields(f)
    ensures Sorted(Sort(Names(f)))
  {
    if f.Field? {
      SortSorted(f.rest);
      NamesHave(f.rest);
      SortMembers(Names(f.rest));
      assert Names(f)[1..] == Names(f.rest);
      PlaceSorted(f.name, Sort(Names(f.rest)));
    }
  }

  lemma {:induction false} SortedCount(names: seq<Text>)
    requires Sorted(names)
    ensures |(set name <- names)| == |names|
  {
    if names != [] {
      SortedCount(names[1..]);
      LessIsTotal(names[0], names[0]);
      assert (set name <- names) == (set name <- names[1..]) + {names[0]} by {
        assert names == [names[0]] + names[1..];
      }
      assert names[0] !in names[1..];
    }
  }

  lemma {:induction false} SortedIsUnique(a: seq<Text>, b: seq<Text>)
    requires Sorted(a) && Sorted(b) && forall name :: name in a <==> name in b
    ensures a == b
  {
    SortedCount(a);
    SortedCount(b);
    assert (set name <- a) == (set name <- b);
    if a != [] {
      assert a[0] in b;
      assert b[0] in a;
      var i :| 0 <= i < |b| && b[i] == a[0];
      var j :| 0 <= j < |a| && a[j] == b[0];
      LessIsTotal(a[0], b[0]);
      assert a[0] == b[0];
      forall name ensures name in a[1..] <==> name in b[1..] {
        LessIsTotal(a[0], a[0]);
        assert name in a[1..] ==> name in a && name != a[0];
        assert name in b[1..] ==> name in b && name != b[0];
        assert a == [a[0]] + a[1..] && b == [b[0]] + b[1..];
      }
      SortedIsUnique(a[1..], b[1..]);
      assert a == [a[0]] + a[1..] && b == [b[0]] + b[1..];
    }
  }

  // ------------------------------------------------ reading strings back

  function Unhex(u: Unit): Option<nat> {
    if 0x30 <= u <= 0x39 then Some(u - 0x30)
    else if 0x41 <= u <= 0x46 then Some(u - 0x41 + 10)
    else if 0x61 <= u <= 0x66 then Some(u - 0x61 + 10)
    else None
  }

  /** The unit that an escape after a backslash stands for. */
  function Unescape(u: Unit): Option<Unit> {
    if u == QUOTE || u == BACKSLASH || u == 0x2f then Some(u)
    else if u == 0x62 then Some(0x08)
    else if u == 0x74 then Some(0x09)
    else if u == 0x6e then Some(0x0a)
    else if u == 0x66 then Some(0x0c)
    else if u == 0x72 then Some(0x0d)
    else None
  }

  function FourHex(t: Text): Option<Unit>
    requires |t| == 4
  {
    var a, b, c, d := Unhex(t[0]), Unhex(t[1]), Unhex(t[2]), Unhex(t[3]);
    if a.None? || b.None? || c.None? || d.None? then None
    else Some(((a.value * 16 + b.value) * 16 + c.value) * 16 + d.value)
  }

  /** The first unit of a string's text after its opening quote, and what is left. */
  function ReadUnit(t: Text): Option<(Unit, Text)> {
    if t == [] || t[0] == QUOTE || t[0] < 0x20 then None
    else if t[0] != BACKSLASH then Some((t[0], t[1..]))
    else if |t| >= 2 && Unescape(t[1]).Some? then Some((Unescape(t[1]).value, t[2..]))
    else if |t| >= 6 && t[1] == 0x75 && FourHex(t[2..6]).Some? then Some((FourHex(t[2..6]).value, t[6..]))
    else None
  }

  /** A string as section 7 of RFC 8259 reads it, after its opening quote: its units and what follows it. */
  function ReadString(t: Text): Option<(Text, Text)>
    decreases |t|
  {
    if t != [] && t[0] == QUOTE then Some(([], t[1..]))
    else
      var unit := ReadUnit(t);
      if unit.None? then None
      else
        var rest := ReadString(unit.value.1);
        if rest.None? then None else Some(([unit.value.0] + rest.value.0, rest.value.1))
  }

  lemma HexReadsBack(u: Unit)
    ensures FourHex(UnicodeEscape(u)[2..]) == Some(u)
  {
    assert u == 16 * (u / 16) + u % 16;
    assert u / 16 == 16 * (u / 16 / 16) + u / 16 % 16;
    assert u / 16 / 16 == 16 * (u / 16 / 16 / 16) + u / 16 / 16 % 16;
  }

  /** Each chunk is read back as the unit it escapes, or as the two of a surrogate pair. */
  lemma ChunkReadsBack(s: Text, x: Text)
    requires s != []
    ensures Taken(s) == 1 ==> ReadUnit(Chunk(s) + x) == Some((s[0], x))
    ensures Taken(s) == 2 ==> ReadUnit(Chunk(s) + x) == Some((s[0], [s[1]] + x)) && ReadUnit([s[1]] + x) == Some((s[1], x))
    ensures (Chunk(s) + x)[0] != QUOTE
  {
    var t := Chunk(s) + x;
    assert t[|Chunk(s)|..] == x;
    if |Chunk(s)| == 6 {
      HexReadsBack(s[0]);
      assert t[2..6] == UnicodeEscape(s[0])[2..];
    } else if Taken(s) == 2 {
      assert t[1..] == [s[1]] + x && ([s[1]] + x)[1..] == x;
    }
  }

  /** Round trip: a quoted string is read back unit for unit, whatever follows it. */
  lemma {:induction false} StringRoundTrip(s: Text, x: Text)
    ensures ReadString(Escaped(s) + [QUOTE] + x) == Some((s, x))
    decreases |s|
  {
    if s == [] {
      assert Escaped(s) + [QUOTE] + x == [QUOTE] + x;
    } else {
      var n := Taken(s);
      var more := Escaped(s[n..]) + [QUOTE] + x;
      assert Escaped(s) + [QUOTE] + x == Chunk(s) + more;
      StringRoundTrip(s[n..], x);
      ChunkReadsBack(s, more);
      if n == 1 {
        assert s == [s[0]] + s[1..];
      } else {
        assert ([s[1]] + more)[0] != QUOTE;
        assert ReadString([s[1]] + more) == Some(([s[1]] + s[2..], x));
        assert s == [s[0]] + ([s[1]] + s[2..]);
      }
    }
  }

  lemma QuoteIsReadable(s: Text, t: Text, x: Text, y: Text)
    requires Quote(s) + x == Quote(t) + y
    ensures s == t && x == y
  {
    assert Escaped(s) + [QUOTE] + x == (Quote(s) + x)[1..];
    assert Escaped(t) + [QUOTE] + y == (Quote(t) + y)[1..];
    StringRoundTrip(s, x);
    StringRoundTrip(t, y);
  }

  // ------------------------------------------------- reading values back

  /** What can follow a value inside a larger text. */
  predicate Follows(x: Text) {
    x == [] || x[0] == COMMA || x[0] == CLOSE_BRACKET || x[0] == CLOSE_BRACE
  }

  lemma {:induction false} TokenIsReadable(a: Text, b: Text, x: Text, y: Text)
    requires a + x == b + y && Follows(x) && Follows(y)
    requires (forall u <- a :: NumberUnit(u)) && (forall u <- b :: NumberUnit(u))
    ensures a == b && x == y
  {
    var p, q := a + x, b + y;
    forall i | 0 <= i < |a| ensures NumberUnit(p[i]) { assert p[i] == a[i] && a[i] in a; }
    forall i | 0 <= i < |b| ensures NumberUnit(q[i]) { assert q[i] == b[i] && b[i] in b; }
    assert x != [] ==> p[|a|] == x[0];
    assert y != [] ==> q[|b|] == y[0];
    assert |a| == |b|;
    assert a == p[..|a|] == q[..|b|] == b;
    assert x == p[|a|..] == q[|b|..] == y;
  }

  /** The first unit of a value tells its kind. */
  predicate Starts(v: Json, u: Unit) {
    match v
    case Null => u == 0x6e
    case Bool(b) => u == if b then 0x74 else 0x66
    case Num(_) => NumberUnit(u)
    case Str(_) => u == QUOTE
    case Arr(_) => u == OPEN_BRACKET
    case Obj(_) => u == OPEN_BRACE
  }

  lemma StartsWell(v: Json)
    requires Valid(v)
    ensures Stringify(v) != [] && Starts(v, Stringify(v)[0])
  {
    if v.Num? {
      assert v.token[0] in v.token;
    }
  }

  lemma SameKind(v: Json, w: Json, x: Text, y: Text)
    requires Valid(v) && Valid(w) && Stringify(v) + x == Stringify(w) + y
    ensures v.Null? == w.Null? && v.Bool? == w.Bool? && v.Num? == w.Num? && v.Str? == w.Str? && v.Arr? == w.Arr?
    ensures v.Bool? ==> v == w
  {
    StartsWell(v);
    StartsWell(w);
    assert (Stringify(v) + x)[0] == (Stringify(w) + y)[0];
  }

  /** Serialisation is unambiguous: a value, up to key order, and what follows it can be read back. */
  lemma {:induction false} ValueIsReadable(v: Json, w: Json, x: Text, y: Text)
    requires Valid(v) && Valid(w) && Follows(x) && Follows(y)
    requires Stringify(v) + x == Stringify(w) + y
    ensures Equiv(v, w) && x == y
    decreases Size(v), 2, 0
  {
    SameKind(v, w, x, y);
    match v
    case Null => Drop(NULL_TEXT, x, y);
    case Bool(b) => Drop(if b then TRUE_TEXT else FALSE_TEXT, x, y);
    case Num(token) => TokenIsReadable(token, w.token, x, y);
    case Str(text) => QuoteIsReadable(text, w.text, x, y);
    case Arr(items) =>
      Unwrap(OPEN_BRACKET, JoinItems(items), JoinItems(w.items), CLOSE_BRACKET, x, y);
      ItemsAreReadable(items, w.items, x, y);
    case Obj(fields) => ObjectIsReadable(fields, w.fields, x, y);
  }

  /** The text of a bracketed value after its opening bracket. */
  lemma Unwrap(open: Unit, a: Text, b: Text, close: Unit, x: Text, y: Text)
    requires [open] + a + [close] + x == [open] + b + [close] + y
    ensures a + ([close] + x) == b + ([close] + y)
  {
    assert [open] + a + [close] + x == [open] + (a + ([close] + x));
    assert [open] + b + [close] + y == [open] + (b + ([close] + y));
    Drop([open], a + ([close] + x), b + ([close] + y));
  }

  lemma {:induction false} ObjectIsReadable(f: Fields, g: Fields, x: Text, y: Text)
    requires ValidFields(f) && ValidFields(g)
    requires Stringify(Obj(f)) + x == Stringify(Obj(g)) + y
    ensures Equiv(Obj(f), Obj(g)) && x == y
    decreases FieldsSize(f), 3, 0
  {
    var ns, ms := Sort(Names(f)), Sort(Names(g));
    SortHas(f);
    SortHas(g);
    Unwrap(OPEN_BRACE, JoinMembers(ns, f), JoinMembers(ms, g), CLOSE_BRACE, x, y);
    MembersAreReadable(ns, f, ms, g, x, y);
    forall name | Has(f, name) && Has(g, name) ensures Equiv(Lookup(f, name), Lookup(g, name)) {
      var i :| 0 <= i < |ns| && ns[i] == name;
    }
  }

  lemma Drop(a: Text, x: Text, y: Text)
    requires a + x == a + y
    ensures x == y
  {
    assert x == (a + x)[|a|..] == (a + y)[|a|..] == y;
  }

  lemma {:induction false} ItemsAreReadable(a: Items, b: Items, x: Text, y: Text)
    requires ValidItems(a) && ValidItems(b)
    requires JoinItems(a) + ([CLOSE_BRACKET] + x) == JoinItems(b) + ([CLOSE_BRACKET] + y)
    ensures EquivItems(a, b) && x == y
    decreases ItemsSize(a), 0, 0
  {
    var p, q := JoinItems(a) + ([CLOSE_BRACKET] + x), JoinItems(b) + ([CLOSE_BRACKET] + y);
    assert p[0] == q[0];
    if a.Item? { StartsWell(a.head); }
    if b.Item? { StartsWell(b.head); }
    if a.NoItems? || b.NoItems? {
      assert a.NoItems? && b.NoItems?;
      assert p == [CLOSE_BRACKET] + x && q == [CLOSE_BRACKET] + y;
      Drop([CLOSE_BRACKET], x, y);
    } else {
      var more := if a.tail.NoItems? then [CLOSE_BRACKET] + x else [COMMA] + (JoinItems(a.tail) + ([CLOSE_BRACKET] + x));
      var rest := if b.tail.NoItems? then [CLOSE_BRACKET] + y else [COMMA] + (JoinItems(b.tail) + ([CLOSE_BRACKET] + y));
      assert p == Stringify(a.head) + more && q == Stringify(b.head) + rest;
      ValueIsReadable(a.head, b.head, more, rest);
      assert more[0] == rest[0] && more[1..] == rest[1..];
      if a.tail.NoItems? {
        assert more[1..] == x && rest[1..] == y;
      } else {
        assert more[1..] == JoinItems(a.tail) + ([CLOSE_BRACKET] + x);
        assert rest[1..] == JoinItems(b.tail) + ([CLOSE_BRACKET] + y);
        ItemsAreReadable(a.tail, b.tail, x, y);
      }
    }
  }

  lemma MemberIsReadable(n: Text, f: Fields, m: Text, g: Fields, x: Text, y: Text)
    requires Has(f, n) && Has(g, m) && ValidFields(f) && ValidFields(g) && Follows(x) && Follows(y)
    requires Member(n, f) + x == Member(m, g) + y
    ensures n == m && Equiv(Lookup(f, n), Lookup(g, m)) && x == y
    decreases FieldsSize(f), 0, 0
  {
    var v, w := Lookup(f, n), Lookup(g, m);
    MemberSplit(n, f, x);
    MemberSplit(m, g, y);
    QuoteIsReadable(n, m, [COLON] + (Stringify(v) + x), [COLON] + (Stringify(w) + y));
    Drop([COLON], Stringify(v) + x, Stringify(w) + y);
    ValueIsReadable(v, w, x, y);
  }

  lemma MemberSplit(n: Text, f: Fields, x: Text)
    requires Has(f, n)
    ensures Member(n, f) + x == Quote(n) + ([COLON] + (Stringify(Lookup(f, n)) + x))
  {
  }

  /** What follows the first member, up to and beyond the closing brace. */
  function AfterMember(names: seq<Text>, f: Fields, x: Text): Text
    requires names != [] && AllHave(names, f)
  {
    if |names| == 1 then [CLOSE_BRACE] + x else [COMMA] + (JoinMembers(names[1..], f) + ([CLOSE_BRACE] + x))
  }

  lemma FirstMember(names: seq<Text>, f: Fields, x: Text)
    requires names != [] && AllHave(names, f)
    ensures JoinMembers(names, f) + ([CLOSE_BRACE] + x) == Member(names[0], f) + AfterMember(names, f, x)
    ensures (JoinMembers(names, f) + ([CLOSE_BRACE] + x))[0] == QUOTE
  {
    var first := Member(names[0], f);
    assert first[0] == QUOTE;
    if |names| > 1 {
      Regroup(first, [COMMA], JoinMembers(names[1..], f), [CLOSE_BRACE] + x);
    }
  }

  lemma Regroup(a: Text, b: Text, c: Text, d: Text)
    ensures a + b + c + d == a + (b + (c + d))
  {
  }

  lemma {:induction false} MembersAreReadable(ns: seq<Text>, f: Fields, ms: seq<Text>, g: Fields, x: Text, y: Text)
    requires AllHave(ns, f) && AllHave(ms, g) && ValidFields(f) && ValidFields(g)
    requires JoinMembers(ns, f) + ([CLOSE_BRACE] + x) == JoinMembers(ms, g) + ([CLOSE_BRACE] + y)
    ensures ns == ms && x == y
    ensures forall i :: 0 <= i < |ns| ==> Has(f, ns[i]) && Has(g, ns[i]) && Equiv(Lookup(f, ns[i]), Lookup(g, ns[i]))
    decreases FieldsSize(f), 1, |ns|, 0
  {
    if ns != [] { FirstMember(ns, f, x); }
    if ms != [] { FirstMember(ms, g, y); }
    if ns == [] || ms == [] {
      assert ns == [] ==> (JoinMembers(ns, f) + ([CLOSE_BRACE] + x))[0] == CLOSE_BRACE;
      assert ms == [] ==> (JoinMembers(ms, g) + ([CLOSE_BRACE] + y))[0] == CLOSE_BRACE;
      assert ns == [] && ms == [];
      assert [] + ([CLOSE_BRACE] + x) == [CLOSE_BRACE] + x && [] + ([CLOSE_BRACE] + y) == [CLOSE_BRACE] + y;
      Drop([CLOSE_BRACE], x, y);
    } else {
      MemberIsReadable(ns[0], f, ms[0], g, AfterMember(ns, f, x), AfterMember(ms, g, y));
      MoreMembers(ns, f, ms, g, x, y);
      assert ns == [ns[0]] + ns[1..] && ms == [ms[0]] + ms[1..];
      assert forall i :: 1 <= i < |ns| ==> ns[i] == ns[1..][i - 1];
    }
  }

  lemma {:induction false} MoreMembers(ns: seq<Text>, f: Fields, ms: seq<Text>, g: Fields, x: Text, y: Text)
    requires ns != [] && ms != [] && AllHave(ns, f) && AllHave(ms, g) && ValidFields(f) && ValidFields(g)
    requires AfterMember(ns, f, x) == AfterMember(ms, g, y)
    ensures ns[1..] == ms[1..] && x == y
    ensures forall i :: 0 <= i < |ns[1..]| ==>
      Has(f, ns[1..][i]) && Has(g, ns[1..][i]) && Equiv(Lookup(f, ns[1..][i]), Lookup(g, ns[1..][i]))
    decreases FieldsSize(f), 1, |ns| - 1, 1
  {
    var p, q := AfterMember(ns, f, x), AfterMember(ms, g, y);
    assert p[0] == q[0] && p[1..] == q[1..];
    if |ns| == 1 {
      assert p[1..] == x && q[1..] == y;
    } else {
      assert p[1..] == JoinMembers(ns[1..], f) + ([CLOSE_BRACE] + x);
      assert q[1..] == JoinMembers(ms[1..], g) + ([CLOSE_BRACE] + y);
      MembersAreReadable(ns[1..], f, ms[1..], g, x, y);
    }
  }

  // --------------------------------------------------- the other direction

  lemma {:induction false} EquivPrintsAlike(v: Json, w: Json)
    requires Valid(v) && Valid(w) && Equiv(v, w)
    ensures Stringify(v) == Stringify(w)
    decreases Size(v), 1, 0
  {
    match v
    case Arr(items) => EquivItemsPrintAlike(items, w.items);
    case Obj(fields) =>
      SortSorted(fields);
      SortSorted(w.fields);
      SortHas(fields);
      SortHas(w.fields);
      SortedIsUnique(Sort(Names(fields)), Sort(Names(w.fields)));
      MembersPrintAlike(Sort(Names(fields)), fields, w.fields);
    case _ =>
  }

  lemma {:induction false} EquivItemsPrintAlike(a: Items, b: Items)
    requires ValidItems(a) && ValidItems(b) && EquivItems(a, b)
    ensures JoinItems(a) == JoinItems(b)
    decreases ItemsSize(a), 1, 0
  {
    if a.Item? {
      EquivPrintsAlike(a.head, b.head);
      EquivItemsPrintAlike(a.tail, b.tail);
    }
  }

  lemma {:induction false} MembersPrintAlike(names: seq<Text>, f: Fields, g: Fields)
    requires ValidFields(f) && ValidFields(g) && AllHave(names, f) && AllHave(names, g)
    requires forall name :: Has(f, name) && Has(g, name) ==> Equiv(Lookup(f, name), Lookup(g, name))
    ensures JoinMembers(names, f) == JoinMembers(names, g)
    decreases FieldsSize(f), 1, |names|
  {
    if names != [] {
      assert Has(f, names[0]) && Has(g, names[0]);
      EquivPrintsAlike(Lookup(f, names[0]), Lookup(g, names[0]));
      if |names| > 1 {
        MembersPrintAlike(names[1..], f, g);
      }
    }
  }

  /** Canonical serialisation: equal texts exactly for values equal up to key order at every depth. */
  lemma StringifyIsCanonical(v: Json, w: Json)
    requires Valid(v) && Valid(w)
    ensures Stringify(v) == Stringify(w) <==> Equiv(v, w)
  {
    if Stringify(v) == Stringify(w) {
      ValueIsReadable(v, w, [], []);
    }
    if Equiv(v, w) {
      EquivPrintsAlike(v, w);
    }
  }

  // ------------------------------------------------------------------- framing

  /** JavaScript's falsy values: `body || {}` replaces them, and an absent body, by an empty object. */
  predicate Falsy(body: Json) {
    body == Null || body == Bool(false) || body == Num([0x30]) || body == Str([])
  }

  function OrEmpty(body: Option<Json>): Json {
    if body.None? || Falsy(body.value) then Obj(NoFields) else body.value
  }

  /** The text that `createRequestHash` digests. */
  function Framed(verb: Text, url: Text, body: Option<Json>): Text {
    verb + [NEWLINE] + url + [NEWLINE] + Stringify(OrEmpty(body))
  }

  lemma {:induction false} LineIsReadable(a: Text, b: Text, x: Text, y: Text)
    requires a + [NEWLINE] + x == b + [NEWLINE] + y && NEWLINE !in a && NEWLINE !in b
    ensures a == b && x == y
  {
    var p, q := a + [NEWLINE] + x, b + [NEWLINE] + y;
    forall i | 0 <= i < |a| ensures p[i] != NEWLINE { assert p[i] == a[i] && a[i] in a; }
    forall i | 0 <= i < |b| ensures q[i] != NEWLINE { assert q[i] == b[i] && b[i] in b; }
    assert p[|a|] == NEWLINE && q[|b|] == NEWLINE;
    assert |a| == |b|;
    assert a == p[..|a|] == q[..|b|] == b;
    assert x == p[|a| + 1..] == q[|b| + 1..] == y;
  }

  /** An absent body, null, false, 0, the empty string and the empty object are all digested as one. */
  predicate NoBody(body: Option<Json>) {
    body in {None, Some(Null), Some(Bool(false)), Some(Num([0x30])), Some(Str([])), Some(Obj(NoFields))}
  }

  lemma NoBodyIsEmpty(body: Option<Json>)
    ensures NoBody(body) <==> OrEmpty(body) == Obj(NoFields)
    ensures !NoBody(body) ==> OrEmpty(body) == body.value
  {
  }

  lemma EmptyIsAlone(v: Json, w: Json)
    requires (v == Obj(NoFields) || w == Obj(NoFields)) && Equiv(v, w)
    ensures v == w
  {
    if v.fields.Field? {
      assert Has(v.fields, v.fields.name);
    }
    if w.fields.Field? {
      assert Has(w.fields, w.fields.name);
    }
  }

  /** Two requests are digested from the same text exactly when method, URL and body agree. */
  lemma FramingIsCanonical(verb1: Text, url1: Text, body1: Option<Json>, verb2: Text, url2: Text, body2: Option<Json>)
    requires NEWLINE !in verb1 && NEWLINE !in verb2 && NEWLINE !in url1 && NEWLINE !in url2
    requires (body1.Some? ==> Valid(body1.value)) && (body2.Some? ==> Valid(body2.value))
    ensures Framed(verb1, url1, body1) == Framed(verb2, url2, body2)
            <==> verb1 == verb2 && url1 == url2
                 && ((NoBody(body1) && NoBody(body2)) || (!NoBody(body1) && !NoBody(body2) && Equiv(body1.value, body2.value)))
  {
    var s1, s2 := Stringify(OrEmpty(body1)), Stringify(OrEmpty(body2));
    assert Framed(verb1, url1, body1) == verb1 + [NEWLINE] + (url1 + [NEWLINE] + s1);
    assert Framed(verb2, url2, body2) == verb2 + [NEWLINE] + (url2 + [NEWLINE] + s2);
    if Framed(verb1, url1, body1) == Framed(verb2, url2, body2) {
      LineIsReadable(verb1, verb2, url1 + [NEWLINE] + s1, url2 + [NEWLINE] + s2);
      LineIsReadable(url1, url2, s1, s2);
    }
    var v, w := OrEmpty(body1), OrEmpty(body2);
    StringifyIsCanonical(v, w);
    NoBodyIsEmpty(body1);
    NoBodyIsEmpty(body2);
    if Equiv(v, w) && (NoBody(body1) || NoBody(body2)) {
      EmptyIsAlone(v, w);
    }
  }
}
