/** Listing logins for a site: from the vault when it is unlocked, from the metadata index when it
    is locked. How well a saved site fits a URL is a parameter. */
module LockedIndex {
  import opened Common
  import opened Lexicographic

  /** The object keys that are read or written here; `Other` is any other name. */
  datatype Key =
    | Items | ItemId | ItemType | ItemName | Username | SsoProvider | LastUsedAt | Websites
    | Password | Otp | Passkeys | HasPassword | HasOtp | HasPasskey | Other(name: string)

  datatype Value = Null | Bool(b: bool) | Number(n: int) | Str(s: string) | Array(items: seq<Value>) | Object(fields: map<Key, Value>)

  function Field(v: Value, k: Key): Option<Value> {
    if v.Object? && k in v.fields then Some(v.fields[k]) else None
  }

  function AsStr(v: Option<Value>): Option<string> {
    if v.Some? && v.value.Str? then Some(v.value.s) else None
  }

  function AsArray(v: Option<Value>): seq<Value> {
    if v.Some? && v.value.Array? then v.value.items else []
  }

  // ---- desktop/src/native_host_item_fields.rs

  function ItemsOf(state: Option<Value>): seq<Value> {
    if state.None? then [] else AsArray(Field(state.value, Items))
  }

  function StringField(item: Value, k: Key): Option<string> {
    var s := AsStr(Field(item, k));
    if s.Some? && s.value != "" then s else None
  }

  function NonEmptyStrings(values: seq<Value>): seq<string> {
    if values == [] then []
    else (if values[0].Str? && values[0].s != "" then [values[0].s] else []) + NonEmptyStrings(values[1..])
  }

  function ArrayStrings(item: Value, k: Key): seq<string> {
    NonEmptyStrings(AsArray(Field(item, k)))
  }

  /** How well a saved site fits a URL: `host_match_score`. */
  type HostScore = (string, string) -> Option<int>

  function Best(sites: seq<string>, url: string, score: HostScore): Option<int> {
    if sites == [] then None
    else
      var first, rest := score(sites[0], url), Best(sites[1..], url, score);
      if first.None? then rest else if rest.None? || rest.value < first.value then first else rest
  }

  function ItemSiteScore(item: Value, url: string, score: HostScore): Option<int> {
    Best(ArrayStrings(item, Websites), url, score)
  }

  // ---- desktop/src/native_host_items.rs

  datatype SiteMatch = SiteMatch(itemId: string, itemName: string, username: Option<string>, websites: seq<string>,
                                 hasPassword: bool, hasOtp: bool, hasPasskey: bool,
                                 ssoProvider: Option<string>, lastUsedAt: Option<string>)

  predicate BoolField(item: Value, k: Key) {
    Field(item, k) == Some(Bool(true))
  }

  function SiteMatchValue(item: Value): Option<SiteMatch> {
    var itemId := StringField(item, ItemId);
    if itemId.None? then None
    else
      Some(SiteMatch(itemId.value, StringField(item, ItemName).GetOr("Untitled"), StringField(item, Username), ArrayStrings(item, Websites),
                     BoolField(item, HasPassword) || StringField(item, Password).Some?,
                     BoolField(item, HasOtp) || Field(item, Otp).Some?,
                     BoolField(item, HasPasskey) || AsArray(Field(item, Passkeys)) != [],
                     StringField(item, SsoProvider), StringField(item, LastUsedAt)))
  }

  function Lower(s: string): (t: string)
    ensures |t| == |s|
  {
    seq(|s|, i requires 0 <= i < |s| => if 'A' <= s[i] <= 'Z' then s[i] + (32 as char) else s[i])
  }

  datatype Candidate = Candidate(score: int, name: string, value: SiteMatch)

  function CandidateOf(item: Value, url: string, score: HostScore): Option<Candidate> {
    var fit, value := ItemSiteScore(item, url, score), SiteMatchValue(item);
    if fit.None? || value.None? then None
    else Some(Candidate(fit.value, Lower(StringField(item, ItemName).GetOr("")), value.value))
  }

  function Candidates(items: seq<Value>, url: string, score: HostScore): seq<Candidate> {
    if items == [] then []
    else
      var c := CandidateOf(items[0], url, score);
      (if c.Some? then [c.value] else []) + Candidates(items[1..], url, score)
  }

  function Codes(s: string): (codes: seq<int>)
    ensures |codes| == |s| && forall i :: 0 <= i < |s| ==> codes[i] == s[i] as int
  {
    seq(|s|, i requires 0 <= i < |s| => s[i] as int)
  }

  /** Better scores first, then names in order. */
  predicate Before(a: Candidate, b: Candidate) {
    a.score > b.score || (a.score == b.score && LexLess(Codes(a.name), Codes(b.name)))
  }

  function InsertInto(sorted: seq<Candidate>, c: Candidate): seq<Candidate> {
    if sorted == [] || !Before(c, sorted[|sorted| - 1]) then sorted + [c]
    else InsertInto(sorted[..|sorted| - 1], c) + [sorted[|sorted| - 1]]
  }

  /** A stable sort. */
  function SortedBy(list: seq<Candidate>): seq<Candidate> {
    if list == [] then [] else InsertInto(SortedBy(list[..|list| - 1]), list[|list| - 1])
  }

  function MatchesOf(list: seq<Candidate>): (values: seq<SiteMatch>)
    ensures |values| == |list| && forall i :: 0 <= i < |list| ==> values[i] == list[i].value
  {
    seq(|list|, i requires 0 <= i < |list| => list[i].value)
  }

  function ListSiteMatches(state: Option<Value>, url: string, score: HostScore): seq<SiteMatch> {
    MatchesOf(SortedBy(Candidates(ItemsOf(state), url, score)))
  }

  // ---- desktop/src/secure_state.rs

  /** The Unicode property White_Space, which Rust's `trim` removes. */
  predicate IsWhitespace(c: char) {
    '\t' <= c <= '\r' || c == ' ' || c == '\U{0085}' || c == '\U{00A0}' || c == '\U{1680}' || '\U{2000}' <= c <= '\U{200A}'
    || c == '\U{2028}' || c == '\U{2029}' || c == '\U{202F}' || c == '\U{205F}' || c == '\U{3000}'
  }

  function RustTrim(s: string): string {
    if s != "" && IsWhitespace(s[0]) then RustTrim(s[1..])
    else if s != "" && IsWhitespace(s[|s| - 1]) then RustTrim(s[..|s| - 1])
    else s
  }

  predicate Trimmed(s: string) {
    s != "" ==> !IsWhitespace(s[0]) && !IsWhitespace(s[|s| - 1])
  }

  /** Lengths are counted in UTF-8 bytes. */
  function ByteLength(s: string): nat {
    if s == "" then 0
    else (if s[0] < '\U{0080}' then 1 else if s[0] < '\U{0800}' then 2 else if s[0] < '\U{10000}' then 3 else 4) + ByteLength(s[1..])
  }

  function BoundedString(item: Value, k: Key, max: nat): Option<string> {
    var s := AsStr(Field(item, k));
    if s.None? then None
    else
      var t := RustTrim(s.value);
      if t != "" && ByteLength(t) <= max then Some(t) else None
  }

  function BoundedStrings(values: seq<Value>, max: nat): seq<string> {
    if values == [] then []
    else
      var t := if values[0].Str? then RustTrim(values[0].s) else "";
      (if t != "" && ByteLength(t) <= max then [t] else []) + BoundedStrings(values[1..], max)
  }

  function Take<T>(s: seq<T>, count: nat): seq<T> {
    if |s| <= count then s else s[..count]
  }

  function BoundedStringArray(item: Value, k: Key, maxEntries: nat, maxLength: nat): seq<string> {
    Take(BoundedStrings(AsArray(Field(item, k)), maxLength), maxEntries)
  }

  function Strs(s: seq<string>): (values: seq<Value>)
    ensures |values| == |s| && forall i :: 0 <= i < |s| ==> values[i] == Str(s[i])
  {
    seq(|s|, i requires 0 <= i < |s| => Str(s[i]))
  }

  const ID_MAX := 256
  const WEBSITES_MAX := 32
  const WEBSITE_MAX := 4096
  const PASSWORD_MAX := 100_000
  const INDEX_MAX := 1_500

  function MaxLength(k: Key): nat {
    match k
    case ItemName => 256
    case Username => 320
    case _ => 64
  }

  predicate IsLogin(item: Value) {
    var kind := AsStr(Field(item, ItemType));
    kind.None? || kind.value == "login"
  }

  /** What the index entry of a login holds under each key. */
  function EntryField(item: Value, k: Key): Option<Value> {
    match k
    case ItemId => StrOf(BoundedString(item, ItemId, ID_MAX))
    case ItemType => Some(Str("login"))
    case ItemName => StrOf(BoundedString(item, k, MaxLength(k)))
    case Username => StrOf(BoundedString(item, k, MaxLength(k)))
    case SsoProvider => StrOf(BoundedString(item, k, MaxLength(k)))
    case LastUsedAt => StrOf(BoundedString(item, k, MaxLength(k)))
    case Websites =>
      var sites := BoundedStringArray(item, Websites, WEBSITES_MAX, WEBSITE_MAX);
      if sites == [] then None else Some(Array(Strs(sites)))
    case HasPassword => Some(Bool(BoundedString(item, Password, PASSWORD_MAX).Some?))
    case HasOtp => Some(Bool(Field(item, Otp).Some?))
    case HasPasskey => Some(Bool(AsArray(Field(item, Passkeys)) != []))
    case _ => None
  }

  function StrOf(s: Option<string>): Option<Value> {
    if s.Some? then Some(Str(s.value)) else None
  }

  const ENTRY_KEYS: set<Key> := {ItemId, ItemType, ItemName, Username, SsoProvider, LastUsedAt, Websites, HasPassword, HasOtp, HasPasskey}

  function LoginIndexEntry(item: Value): Option<Value> {
    if !IsLogin(item) || BoundedString(item, ItemId, ID_MAX).None? then None
    else Some(Object(EntryMap(item)))
  }

  function EntryMap(item: Value): map<Key, Value> {
    map k | k in ENTRY_KEYS && EntryField(item, k).Some? :: EntryField(item, k).value
  }

  /** The entry as far as the keys of `done` go. */
  predicate Fills(entry: map<Key, Value>, item: Value, done: set<Key>) {
    entry == map k | k in done && EntryField(item, k).Some? :: EntryField(item, k).value
  }

  lemma FillNext(entry: map<Key, Value>, item: Value, done: set<Key>, k: Key)
    requires Fills(entry, item, done)
    ensures Fills(if EntryField(item, k).Some? then entry[k := EntryField(item, k).value] else entry, item, done + {k})
  {
  }

  /** `login_index_entry`: the entry is filled key by key. */
  method MakeLoginIndexEntry(item: Value) returns (r: Option<Value>)
    ensures r == LoginIndexEntry(item)
  {
    var itemId := BoundedString(item, ItemId, ID_MAX);
    if itemId.None? { return None; }
    var kind := AsStr(Field(item, ItemType));
    if kind.Some? && kind.value != "login" { return None; }

    var entry: map<Key, Value> := map[ItemId := Str(itemId.value), ItemType := Str("login")];
    entry := FillStrings(item, entry, {ItemId, ItemType});
    entry := FillFlags(item, entry, {ItemId, ItemType} + Elements(STRING_KEYS));
    assert {ItemId, ItemType} + Elements(STRING_KEYS) + {Websites} + {HasPassword} + {HasOtp} + {HasPasskey} == ENTRY_KEYS;
    r := Some(Object(entry));
  }

  const STRING_KEYS: seq<Key> := [ItemName, Username, SsoProvider, LastUsedAt]

  lemma StringEntry(item: Value, k: Key)
    requires k in STRING_KEYS
    ensures EntryField(item, k) == StrOf(BoundedString(item, k, MaxLength(k)))
  {
  }

  method FillStrings(item: Value, before: map<Key, Value>, ghost done: set<Key>) returns (entry: map<Key, Value>)
    requires Fills(before, item, done)
    ensures Fills(entry, item, done + Elements(STRING_KEYS))
  {
    entry := before;
    assert done + Elements(STRING_KEYS[..0]) == done;
    for i := 0 to |STRING_KEYS|
      invariant Fills(entry, item, done + Elements(STRING_KEYS[..i]))
    {
      var k := STRING_KEYS[i];
      StringEntry(item, k);
      FillNext(entry, item, done + Elements(STRING_KEYS[..i]), k);
      assert done + Elements(STRING_KEYS[..i + 1]) == done + Elements(STRING_KEYS[..i]) + {k};
      var value := BoundedString(item, k, MaxLength(k));
      if value.Some? { entry := entry[k := Str(value.value)]; }
    }
    assert STRING_KEYS[..|STRING_KEYS|] == STRING_KEYS;
  }

  /** The websites and the three flags. */
  method FillFlags(item: Value, before: map<Key, Value>, ghost done: set<Key>) returns (entry: map<Key, Value>)
    requires Fills(before, item, done)
    ensures Fills(entry, item, done + {Websites} + {HasPassword} + {HasOtp} + {HasPasskey})
  {
    entry := before;
    FillNext(entry, item, done, Websites);
    var websites := BoundedStringArray(item, Websites, WEBSITES_MAX, WEBSITE_MAX);
    if websites != [] { entry := entry[Websites := Array(Strs(websites))]; }
    FillNext(entry, item, done + {Websites}, HasPassword);
    entry := entry[HasPassword := Bool(BoundedString(item, Password, PASSWORD_MAX).Some?)];
    FillNext(entry, item, done + {Websites} + {HasPassword}, HasOtp);
    entry := entry[HasOtp := Bool(Field(item, Otp).Some?)];
    FillNext(entry, item, done + {Websites} + {HasPassword} + {HasOtp}, HasPasskey);
    entry := entry[HasPasskey := Bool(AsArray(Field(item, Passkeys)) != [])];
  }

  function IndexEntries(items: seq<Value>): seq<Value> {
    if items == [] then []
    else
      var e := LoginIndexEntry(items[0]);
      (if e.Some? then [e.value] else []) + IndexEntries(items[1..])
  }

  function LoginIndexFromState(state: Value): seq<Value> {
    Take(IndexEntries(ItemsOf(Some(state))), INDEX_MAX)
  }

  /** What a locked vault is listed from. */
  function LockedState(state: Value): Value {
    Object(map[Items := Array(LoginIndexFromState(state))])
  }

  // ---- fields that survive the index

  lemma {:induction false} RustTrimTrims(s: string)
    ensures Trimmed(RustTrim(s)) && (RustTrim(s) == s <==> Trimmed(s)) && |RustTrim(s)| <= |s|
  {
    if s != "" && IsWhitespace(s[0]) {
      RustTrimTrims(s[1..]);
    } else if s != "" && IsWhitespace(s[|s| - 1]) {
      RustTrimTrims(s[..|s| - 1]);
    }
  }

  /** No string, an empty one, or one that is trimmed and within its bound. */
  predicate Tidy(s: Option<string>, max: nat) {
    s.None? || s.value == "" || (Trimmed(s.value) && ByteLength(s.value) <= max)
  }

  lemma BoundedIsKept(item: Value, k: Key, max: nat)
    ensures BoundedString(item, k, max) == StringField(item, k) <==> Tidy(AsStr(Field(item, k)), max)
  {
    var s := AsStr(Field(item, k));
    if s.Some? { RustTrimTrims(s.value); }
  }

  predicate TidySites(values: seq<Value>) {
    forall i :: 0 <= i < |values| && values[i].Str? ==> Tidy(Some(values[i].s), WEBSITE_MAX)
  }

  lemma {:induction false} StrsAreStrings(s: seq<string>)
    requires forall i :: 0 <= i < |s| ==> s[i] != ""
    ensures NonEmptyStrings(Strs(s)) == s
  {
    if s != [] {
      assert Strs(s)[1..] == Strs(s[1..]);
      StrsAreStrings(s[1..]);
      assert s == [s[0]] + s[1..];
    }
  }

  lemma {:induction false} BoundedNotEmpty(values: seq<Value>, max: nat)
    ensures forall i :: 0 <= i < |BoundedStrings(values, max)| ==> BoundedStrings(values, max)[i] != ""
  {
    if values != [] { BoundedNotEmpty(values[1..], max); }
  }
}
