/** The text that `JSON.stringify` gives a value, and why two values never share it. Strings are
    sequences of 16-bit code units, numbers are integers. */
module JsonText {
  import opened Common

  type CodeUnit = n: nat | n < 0x10000

  type JsString = seq<CodeUnit>

  /** What `JSON.stringify` walks: the members of an object in enumeration order. */
  datatype Json = JNull | JBool(b: bool) | JNumber(n: int) | JString(s: JsString) | JArray(items: seq<Json>) | JObject(members: seq<Member>)

  datatype Member = Member(key: JsString, value: Json)

  // ---- numbers

  const ZERO: CodeUnit := 0x30
  const MINUS: CodeUnit := 0x2D

  predicate IsDigit(c: CodeUnit) {
    0x30 <= c <= 0x39
  }

  function Digits(n: nat): (s: JsString)
    ensures s != [] && forall i :: 0 <= i < |s| ==> IsDigit(s[i])
  {
    if n < 10 then [ZERO + n] else Digits(n / 10) + [ZERO + n % 10]
  }

  function DigitsValue(s: JsString): int {
    if s == [] then 0 else 10 * DigitsValue(s[..|s| - 1]) + (s[|s| - 1] - ZERO)
  }

  lemma {:induction false} DigitsRoundTrip(n: nat)
    ensures DigitsValue(Digits(n)) == n
  {
    if n >= 10 {
      DigitsRoundTrip(n / 10);
      assert Digits(n)[..|Digits(n)| - 1] == Digits(n / 10);
    } else {
      assert Digits(n)[..0] == [];
    }
  }

  function Decimal(n: int): JsString {
    if n < 0 then [MINUS] + Digits(-n) else Digits(n)
  }

  /** Nothing that could continue a number. */
  predicate NoDigit(rest: JsString) {
    rest == [] || !IsDigit(rest[0])
  }

  /** The digits at the start. */
  function LeadingDigits(s: JsString): JsString {
    if s == [] || !IsDigit(s[0]) then [] else [s[0]] + LeadingDigits(s[1..])
  }

  lemma {:induction false} LeadingDigitsOf(a: JsString, rest: JsString)
    requires NoDigit(rest) && forall i :: 0 <= i < |a| ==> IsDigit(a[i])
    ensures LeadingDigits(a + rest) == a
  {
    if a == [] {
      assert a + rest == rest;
    } else {
      assert (a + rest)[1..] == a[1..] + rest && IsDigit(a[0]);
      LeadingDigitsOf(a[1..], rest);
      assert a == [a[0]] + a[1..];
    }
  }

  lemma DigitsInjective(m: nat, ra: JsString, n: nat, rb: JsString)
    requires Digits(m) + ra == Digits(n) + rb && NoDigit(ra) && NoDigit(rb)
    ensures m == n && ra == rb
  {
    var a, b := Digits(m), Digits(n);
    LeadingDigitsOf(a, ra);
    LeadingDigitsOf(b, rb);
    DigitsRoundTrip(m);
    DigitsRoundTrip(n);
    assert (a + ra)[|a|..] == ra && (b + rb)[|b|..] == rb;
  }

  lemma DecimalStart(n: int, rest: JsString)
    ensures if n < 0 then (Decimal(n) + rest)[0] == MINUS && (Decimal(n) + rest)[1..] == Digits(-n) + rest
            else IsDigit((Decimal(n) + rest)[0])
  {
    if n < 0 {
      assert (Decimal(n) + rest)[1..] == Digits(-n) + rest;
    } else {
      assert (Decimal(n) + rest)[0] == Digits(n)[0];
    }
  }

  lemma DecimalInjective(m: int, ra: JsString, n: int, rb: JsString)
    requires Decimal(m) + ra == Decimal(n) + rb && NoDigit(ra) && NoDigit(rb)
    ensures m == n && ra == rb
  {
    DecimalStart(m, ra);
    DecimalStart(n, rb);
    if m < 0 { DigitsInjective(-m, ra, -n, rb); } else { DigitsInjective(m, ra, n, rb); }
  }

  // ---- strings

  const QUOTE: CodeUnit := 0x22
  const BACKSLASH: CodeUnit := 0x5C

  predicate Lead(c: CodeUnit) {
    0xD800 <= c <= 0xDBFF
  }

  predicate Trail(c: CodeUnit) {
    0xDC00 <= c <= 0xDFFF
  }

  function HexDigit(n: nat): CodeUnit
    requires n < 16
  {
    if n < 10 then 0x30 + n else 0x61 + n - 10
  }

  function UnhexDigit(c: CodeUnit): int {
    if c < 0x61 then c - 0x30 else c - 0x61 + 10
  }

  /** `\uXXXX`. */
  function HexEscape(c: CodeUnit): JsString {
    [BACKSLASH, 0x75, HexDigit(c / 0x1000), HexDigit(c / 0x100 % 16), HexDigit(c / 16 % 16), HexDigit(c % 16)]
  }

  /** The letter of the short escapes `\b \t \n \f \r \" \\`, or 0. */
  function ShortEscape(c: CodeUnit): CodeUnit {
    if c == 8 then 0x62 else if c == 9 then 0x74 else if c == 10 then 0x6E else if c == 12 then 0x66 else if c == 13 then 0x72
    else if c == QUOTE || c == BACKSLASH then c else 0
  }

  /** One code unit, escaped where it must be. */
  function Escaped(c: CodeUnit): JsString {
    if ShortEscape(c) != 0 then [BACKSLASH, ShortEscape(c)]
    else if c < 0x20 || Lead(c) || Trail(c) then HexEscape(c)
    else [c]
  }

  predicate PairAt(s: JsString) {
    |s| >= 2 && Lead(s[0]) && Trail(s[1])
  }

  /** A surrogate pair stays as it is; a surrogate on its own is escaped. */
  function EscapedAll(s: JsString): JsString {
    if s == [] then []
    else if PairAt(s) then [s[0], s[1]] + EscapedAll(s[2..])
    else Escaped(s[0]) + EscapedAll(s[1..])
  }

  function Quoted(s: JsString): JsString {
    [QUOTE] + EscapedAll(s) + [QUOTE]
  }

  function UnescapeShort(c: CodeUnit): CodeUnit {
    if c == 0x62 then 8 else if c == 0x74 then 9 else if c == 0x6E then 10 else if c == 0x66 then 12 else if c == 0x72 then 13 else c
  }

  /** A reader for the inside of a quoted string: the string and what follows its closing quote. */
  function Unquoted(t: JsString): Option<(JsString, JsString)>
    decreases |t|
  {
    if t == [] then None
    else if t[0] == QUOTE then Some(([], t[1..]))
    else if t[0] != BACKSLASH then Prepend(t[0], Unquoted(t[1..]))
    else if |t| < 2 then None
    else if t[1] != 0x75 then Prepend(UnescapeShort(t[1]), Unquoted(t[2..]))
    else if |t| < 6 then None
    else
      var c := UnhexDigit(t[2]) * 0x1000 + UnhexDigit(t[3]) * 0x100 + UnhexDigit(t[4]) * 16 + UnhexDigit(t[5]);
      if 0 <= c < 0x10000 then Prepend(c, Unquoted(t[6..])) else None
  }

  function Prepend(c: CodeUnit, r: Option<(JsString, JsString)>): Option<(JsString, JsString)> {
    if r.None? then None else Some(([c] + r.value.0, r.value.1))
  }

  lemma HexRoundTrip(c: CodeUnit)
    ensures var e := HexEscape(c); UnhexDigit(e[2]) * 0x1000 + UnhexDigit(e[3]) * 0x100 + UnhexDigit(e[4]) * 16 + UnhexDigit(e[5]) == c
  {
    assert forall n: nat :: n < 16 ==> UnhexDigit(HexDigit(n)) == n;
    assert c == c / 16 * 16 + c % 16;
    assert c / 16 == c / 0x100 * 16 + c / 16 % 16;
    assert c / 0x100 == c / 0x1000 * 16 + c / 0x100 % 16;
  }

  lemma UnquotedShort(c: CodeUnit, tail: JsString)
    requires ShortEscape(c) != 0
    ensures Unquoted(Escaped(c) + tail) == Prepend(c, Unquoted(tail))
  {
    var e := ShortEscape(c);
    var t := [BACKSLASH, e] + tail;
    assert t[0] == BACKSLASH && t[1] == e && t[2..] == tail;
    assert UnescapeShort(e) == c && e != 0x75;
  }

  lemma UnquotedHex(c: CodeUnit, tail: JsString)
    ensures Unquoted(HexEscape(c) + tail) == Prepend(c, Unquoted(tail))
  {
    HexRoundTrip(c);
    var e := HexEscape(c);
    var t := e + tail;
    assert t[6..] == tail;
    assert t[0] == BACKSLASH && t[1] == 0x75 && t[2] == e[2] && t[3] == e[3] && t[4] == e[4] && t[5] == e[5];
  }

  lemma UnquotedPlain(c: CodeUnit, tail: JsString)
    requires c != QUOTE && c != BACKSLASH
    ensures Unquoted([c] + tail) == Prepend(c, Unquoted(tail))
  {
    assert ([c] + tail)[1..] == tail;
  }

  lemma UnquotedOne(c: CodeUnit, tail: JsString)
    ensures Unquoted(Escaped(c) + tail) == Prepend(c, Unquoted(tail))
  {
    if ShortEscape(c) != 0 { UnquotedShort(c, tail); }
    else if c < 0x20 || Lead(c) || Trail(c) { UnquotedHex(c, tail); }
    else { UnquotedPlain(c, tail); }
  }

  lemma UnquotedPair(c: CodeUnit, d: CodeUnit, tail: JsString)
    requires Lead(c) && Trail(d)
    ensures Unquoted([c, d] + tail) == Prepend(c, Prepend(d, Unquoted(tail)))
  {
    assert [c, d] + tail == [c] + ([d] + tail);
    UnquotedPlain(c, [d] + tail);
    UnquotedPlain(d, tail);
  }

  /** The inside of a quoted string, its closing quote and what follows. */
  function Inside(s: JsString, rest: JsString): JsString {
    EscapedAll(s) + [QUOTE] + rest
  }

  lemma InsideStep(s: JsString, rest: JsString)
    requires s != []
    ensures Inside(s, rest) == if PairAt(s) then [s[0], s[1]] + Inside(s[2..], rest) else Escaped(s[0]) + Inside(s[1..], rest)
  {
  }

  /** Reading back a quoted string gives the string. */
  lemma {:induction false} QuotedRoundTrip(s: JsString, rest: JsString)
    ensures Unquoted(Inside(s, rest)) == Some((s, rest))
  {
    if s == [] {
      assert Inside(s, rest) == [QUOTE] + rest && ([QUOTE] + rest)[1..] == rest;
    } else if PairAt(s) {
      InsideStep(s, rest);
      QuotedRoundTrip(s[2..], rest);
      UnquotedPair(s[0], s[1], Inside(s[2..], rest));
      assert s == [s[0]] + ([s[1]] + s[2..]);
    } else {
      InsideStep(s, rest);
      QuotedRoundTrip(s[1..], rest);
      UnquotedOne(s[0], Inside(s[1..], rest));
      assert s == [s[0]] + s[1..];
    }
  }

  lemma QuotedInjective(a: JsString, ra: JsString, b: JsString, rb: JsString)
    requires Quoted(a) + ra == Quoted(b) + rb
    ensures a == b && ra == rb
  {
    QuotedRoundTrip(a, ra);
    QuotedRoundTrip(b, rb);
    assert (Quoted(a) + ra)[1..] == Inside(a, ra);
    assert (Quoted(b) + rb)[1..] == Inside(b, rb);
  }

  // ---- values

  const COMMA: CodeUnit := 0x2C
  const COLON: CodeUnit := 0x3A
  const OPEN_BRACKET: CodeUnit := 0x5B
  const CLOSE_BRACKET: CodeUnit := 0x5D
  const OPEN_BRACE: CodeUnit := 0x7B
  const CLOSE_BRACE: CodeUnit := 0x7D
  const NULL_TEXT: JsString := [0x6E, 0x75, 0x6C, 0x6C]
  const TRUE_TEXT: JsString := [0x74, 0x72, 0x75, 0x65]
  const FALSE_TEXT: JsString := [0x66, 0x61, 0x6C, 0x73, 0x65]

  function Text(v: Json): JsString
    decreases v
  {
    match v
    case JNull => NULL_TEXT
    case JBool(b) => if b then TRUE_TEXT else FALSE_TEXT
    case JNumber(n) => Decimal(n)
    case JString(s) => Quoted(s)
    case JArray(items) => [OPEN_BRACKET] + (if items == [] then [CLOSE_BRACKET] else Text(items[0]) + ItemsAfter(items[1..]))
    case JObject(members) => [OPEN_BRACE] + (if members == [] then [CLOSE_BRACE] else MemberText(members[0]) + MembersAfter(members[1..]))
  }

  /** The remaining elements, each behind a comma, and the closing bracket. */
  function ItemsAfter(items: seq<Json>): JsString
    decreases items
  {
    if items == [] then [CLOSE_BRACKET] else [COMMA] + Text(items[0]) + ItemsAfter(items[1..])
  }

  function MemberText(m: Member): JsString
    decreases m
  {
    Quoted(m.key) + [COLON] + Text(m.value)
  }

  function MembersAfter(members: seq<Member>): JsString
    decreases members
  {
    if members == [] then [CLOSE_BRACE] else [COMMA] + MemberText(members[0]) + MembersAfter(members[1..])
  }

  /** What may follow a value. */
  predicate Delimited(rest: JsString) {
    rest == [] || rest[0] == COMMA || rest[0] == CLOSE_BRACKET || rest[0] == CLOSE_BRACE
  }

  /** The first code unit tells which kind of value it is. */
  function Kind(c: CodeUnit): nat {
    if c == 0x6E then 0 else if c == 0x74 || c == 0x66 then 1 else if c == MINUS || IsDigit(c) then 2
    else if c == QUOTE then 3 else if c == OPEN_BRACKET then 4 else if c == OPEN_BRACE then 5 else 6
  }

  function KindOf(v: Json): nat {
    match v
    case JNull => 0
    case JBool(_) => 1
    case JNumber(_) => 2
    case JString(_) => 3
    case JArray(_) => 4
    case JObject(_) => 5
  }

  lemma TextStart(v: Json)
    ensures Text(v) != [] && Kind(Text(v)[0]) == KindOf(v)
  {
  }

  /** No text of a value is a proper beginning of another that goes on with a delimiter. */
  lemma {:induction false} TextInjective(a: Json, ra: JsString, b: Json, rb: JsString)
    requires Text(a) + ra == Text(b) + rb && Delimited(ra) && Delimited(rb)
    ensures a == b && ra == rb
    decreases a
  {
    TextStart(a);
    TextStart(b);
    assert (Text(a) + ra)[0] == Text(a)[0] && (Text(b) + rb)[0] == Text(b)[0];
    match a
    case JNull => SameLength(Text(a), ra, Text(b), rb);
    case JBool(_) => SameLength(Text(a), ra, Text(b), rb);
    case JNumber(m) => DecimalInjective(m, ra, b.n, rb);
    case JString(s) => QuotedInjective(s, ra, b.s, rb);
    case JArray(items) =>
      if items == [] { FirstAfter(a, ra, b, rb); }
      else if b.items == [] { FirstAfter(b, rb, a, ra); }
      else { ArrayInjective(items, ra, b.items, rb); }
    case JObject(members) =>
      if members == [] { FirstAfter(a, ra, b, rb); }
      else if b.members == [] { FirstAfter(b, rb, a, ra); }
      else { ObjectInjective(members, ra, b.members, rb); }
  }

  lemma {:induction false} ArrayInjective(a: seq<Json>, ra: JsString, b: seq<Json>, rb: JsString)
    requires a != [] && b != [] && Text(JArray(a)) + ra == Text(JArray(b)) + rb
    ensures a == b && ra == rb
    decreases a
  {
    ArraySplit(a, ra);
    ArraySplit(b, rb);
    var ta, tb := ItemsAfter(a[1..]) + ra, ItemsAfter(b[1..]) + rb;
    AfterFirst(OPEN_BRACKET, Text(a[0]) + ta, Text(b[0]) + tb);
    ItemsSplit(a[1..], ra);
    ItemsSplit(b[1..], rb);
    TextInjective(a[0], ta, b[0], tb);
    ItemsInjective(a[1..], ra, b[1..], rb);
    assert a == [a[0]] + a[1..] && b == [b[0]] + b[1..];
  }

  lemma {:induction false} ObjectInjective(a: seq<Member>, ra: JsString, b: seq<Member>, rb: JsString)
    requires a != [] && b != [] && Text(JObject(a)) + ra == Text(JObject(b)) + rb
    ensures a == b && ra == rb
    decreases a
  {
    ObjectSplit(a, ra);
    ObjectSplit(b, rb);
    var ta, tb := MembersAfter(a[1..]) + ra, MembersAfter(b[1..]) + rb;
    AfterFirst(OPEN_BRACE, MemberText(a[0]) + ta, MemberText(b[0]) + tb);
    MembersSplit(a[1..], ra);
    MembersSplit(b[1..], rb);
    MemberInjective(a[0], ta, b[0], tb);
    MembersInjective(a[1..], ra, b[1..], rb);
    assert a == [a[0]] + a[1..] && b == [b[0]] + b[1..];
  }

  lemma SameLength(a: JsString, ra: JsString, b: JsString, rb: JsString)
    requires a + ra == b + rb && (a == NULL_TEXT || a == TRUE_TEXT || a == FALSE_TEXT) && (b == NULL_TEXT || b == TRUE_TEXT || b == FALSE_TEXT)
    ensures a == b && ra == rb
  {
    assert (a + ra)[0] == a[0] && (b + rb)[0] == b[0];
    assert (a + ra)[|a|..] == ra && (b + rb)[|b|..] == rb;
  }

  lemma SecondUnit(b: Json, rb: JsString)
    requires (b.JArray? && b.items != []) || (b.JObject? && b.members != [])
    ensures |Text(b)| > 1 && (Text(b) + rb)[1] != CLOSE_BRACKET && (Text(b) + rb)[1] != CLOSE_BRACE
  {
    if b.JArray? {
      TextStart(b.items[0]);
      assert (Text(b) + rb)[1] == Text(b.items[0])[0];
    } else {
      ObjectSplit(b.members, rb);
      assert MemberText(b.members[0])[0] == QUOTE;
    }
  }

  /** An empty array or object against another one. */
  lemma FirstAfter(a: Json, ra: JsString, b: Json, rb: JsString)
    requires Text(a) + ra == Text(b) + rb
    requires (a == JArray([]) && b.JArray?) || (a == JObject([]) && b.JObject?)
    ensures a == b && ra == rb
  {
    assert (Text(a) + ra)[1] == Text(a)[1];
    if (b.JArray? && b.items != []) || (b.JObject? && b.members != []) {
      SecondUnit(b, rb);
      assert false;
    }
    assert (Text(a) + ra)[2..] == ra && (Text(b) + rb)[2..] == rb;
  }

  lemma AfterFirst(open: CodeUnit, a: JsString, b: JsString)
    requires [open] + a == [open] + b
    ensures a == b
  {
    assert ([open] + a)[1..] == a && ([open] + b)[1..] == b;
  }

  lemma ArraySplit(items: seq<Json>, rest: JsString)
    requires items != []
    ensures Text(JArray(items)) + rest == [OPEN_BRACKET] + (Text(items[0]) + (ItemsAfter(items[1..]) + rest))
  {
  }

  lemma ObjectSplit(members: seq<Member>, rest: JsString)
    requires members != []
    ensures Text(JObject(members)) + rest == [OPEN_BRACE] + (MemberText(members[0]) + (MembersAfter(members[1..]) + rest))
  {
  }

  lemma ItemsSplit(items: seq<Json>, rest: JsString)
    ensures ItemsAfter(items) + rest
         == if items == [] then [CLOSE_BRACKET] + rest else [COMMA] + (Text(items[0]) + (ItemsAfter(items[1..]) + rest))
  {
  }

  lemma MembersSplit(members: seq<Member>, rest: JsString)
    ensures MembersAfter(members) + rest
         == if members == [] then [CLOSE_BRACE] + rest else [COMMA] + (MemberText(members[0]) + (MembersAfter(members[1..]) + rest))
  {
  }

  lemma MemberSplit(m: Member, rest: JsString)
    ensures MemberText(m) + rest == Quoted(m.key) + ([COLON] + (Text(m.value) + rest))
  {
  }

  lemma {:induction false} ItemsInjective(a: seq<Json>, ra: JsString, b: seq<Json>, rb: JsString)
    requires ItemsAfter(a) + ra == ItemsAfter(b) + rb
    ensures a == b && ra == rb
    decreases a
  {
    ItemsSplit(a, ra);
    ItemsSplit(b, rb);
    assert (ItemsAfter(a) + ra)[0] == if a == [] then CLOSE_BRACKET else COMMA;
    assert (ItemsAfter(b) + rb)[0] == if b == [] then CLOSE_BRACKET else COMMA;
    if a == [] {
      AfterFirst(CLOSE_BRACKET, ra, rb);
    } else {
      var ta, tb := ItemsAfter(a[1..]) + ra, ItemsAfter(b[1..]) + rb;
      AfterFirst(COMMA, Text(a[0]) + ta, Text(b[0]) + tb);
      ItemsSplit(a[1..], ra);
      ItemsSplit(b[1..], rb);
      TextInjective(a[0], ta, b[0], tb);
      ItemsInjective(a[1..], ra, b[1..], rb);
      assert a == [a[0]] + a[1..] && b == [b[0]] + b[1..];
    }
  }

  lemma {:induction false} MemberInjective(a: Member, ra: JsString, b: Member, rb: JsString)
    requires MemberText(a) + ra == MemberText(b) + rb && Delimited(ra) && Delimited(rb)
    ensures a == b && ra == rb
    decreases a
  {
    MemberSplit(a, ra);
    MemberSplit(b, rb);
    var va, vb := Text(a.value) + ra, Text(b.value) + rb;
    QuotedInjective(a.key, [COLON] + va, b.key, [COLON] + vb);
    AfterFirst(COLON, va, vb);
    TextInjective(a.value, ra, b.value, rb);
  }

  lemma {:induction false} MembersInjective(a: seq<Member>, ra: JsString, b: seq<Member>, rb: JsString)
    requires MembersAfter(a) + ra == MembersAfter(b) + rb
    ensures a == b && ra == rb
    decreases a
  {
    MembersSplit(a, ra);
    MembersSplit(b, rb);
    assert (MembersAfter(a) + ra)[0] == if a == [] then CLOSE_BRACE else COMMA;
    assert (MembersAfter(b) + rb)[0] == if b == [] then CLOSE_BRACE else COMMA;
    if a == [] {
      AfterFirst(CLOSE_BRACE, ra, rb);
    } else {
      var ta, tb := MembersAfter(a[1..]) + ra, MembersAfter(b[1..]) + rb;
      AfterFirst(COMMA, MemberText(a[0]) + ta, MemberText(b[0]) + tb);
      MembersSplit(a[1..], ra);
      MembersSplit(b[1..], rb);
      MemberInjective(a[0], ta, b[0], tb);
      MembersInjective(a[1..], ra, b[1..], rb);
      assert a == [a[0]] + a[1..] && b == [b[0]] + b[1..];
    }
  }
}
