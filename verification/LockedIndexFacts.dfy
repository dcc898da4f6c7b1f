/** A locked vault lists the same logins as an unlocked one, and its index keeps no secret. */
module LockedIndexFacts {
  import opened Common
  import opened LockedIndex
  import opened Lexicographic

  // ---- what a reader finds in an index entry

  lemma EntryHolds(item: Value, k: Key)
    requires LoginIndexEntry(item).Some?
    ensures Field(LoginIndexEntry(item).value, k) == if k in ENTRY_KEYS then EntryField(item, k) else None
  {
  }

  lemma EntryString(item: Value, k: Key)
    requires LoginIndexEntry(item).Some? && (k == ItemId || k in STRING_KEYS)
    ensures StringField(LoginIndexEntry(item).value, k) == BoundedString(item, k, if k == ItemId then ID_MAX else MaxLength(k))
  {
    EntryHolds(item, k);
  }

  lemma EntrySites(item: Value)
    requires LoginIndexEntry(item).Some?
    ensures ArrayStrings(LoginIndexEntry(item).value, Websites) == BoundedStringArray(item, Websites, WEBSITES_MAX, WEBSITE_MAX)
  {
    EntryHolds(item, Websites);
    BoundedNotEmpty(AsArray(Field(item, Websites)), WEBSITE_MAX);
    StrsAreStrings(BoundedStringArray(item, Websites, WEBSITES_MAX, WEBSITE_MAX));
  }

  lemma EntryFlags(item: Value)
    requires LoginIndexEntry(item).Some?
    ensures var e := LoginIndexEntry(item).value;
      && BoolField(e, HasPassword) == BoundedString(item, Password, PASSWORD_MAX).Some? && Field(e, Password).None?
      && BoolField(e, HasOtp) == Field(item, Otp).Some? && Field(e, Otp).None?
      && BoolField(e, HasPasskey) == (AsArray(Field(item, Passkeys)) != []) && Field(e, Passkeys).None?
  {
    EntryHolds(item, HasPassword);
    EntryHolds(item, Password);
    EntryHolds(item, HasOtp);
    EntryHolds(item, Otp);
    EntryHolds(item, HasPasskey);
    EntryHolds(item, Passkeys);
  }

  // ---- when an entry shows what the item shows

  lemma ConsEqual(x: string, a: seq<string>, y: string, b: seq<string>)
    ensures [x] + a == [y] + b <==> x == y && a == b
  {
    assert ([x] + a)[0] == x && ([x] + a)[1..] == a;
    assert ([y] + b)[0] == y && ([y] + b)[1..] == b;
  }

  lemma TidySitesCons(values: seq<Value>)
    requires values != []
    ensures TidySites(values) <==> (values[0].Str? ==> Tidy(Some(values[0].s), WEBSITE_MAX)) && TidySites(values[1..])
  {
    assert forall i :: 0 < i < |values| ==> values[i] == values[1..][i - 1];
  }

  lemma {:induction false} SitesAreKeptExactlyWhen(values: seq<Value>)
    ensures |BoundedStrings(values, WEBSITE_MAX)| <= |NonEmptyStrings(values)|
    ensures BoundedStrings(values, WEBSITE_MAX) == NonEmptyStrings(values) <==> TidySites(values)
  {
    if values != [] {
      SitesAreKeptExactlyWhen(values[1..]);
      TidySitesCons(values);
      var b, n := BoundedStrings(values[1..], WEBSITE_MAX), NonEmptyStrings(values[1..]);
      assert [] + b == b && [] + n == n;
      if values[0].Str? {
        RustTrimTrims(values[0].s);
        ConsEqual(RustTrim(values[0].s), b, values[0].s, n);
      }
    }
  }

  lemma WebsitesAreKeptExactlyWhen(item: Value)
    ensures BoundedStringArray(item, Websites, WEBSITES_MAX, WEBSITE_MAX) == ArrayStrings(item, Websites)
       <==> TidySites(AsArray(Field(item, Websites))) && |ArrayStrings(item, Websites)| <= WEBSITES_MAX
  {
    SitesAreKeptExactlyWhen(AsArray(Field(item, Websites)));
  }

  lemma {:induction false} ByteLengthBound(s: string)
    ensures ByteLength(s) <= 4 * |s|
  {
    if s != "" { ByteLengthBound(s[1..]); }
  }

  lemma UntitledIsTidy()
    ensures Tidy(Some("Untitled"), MaxLength(ItemName))
  {
    ByteLengthBound("Untitled");
    assert "Untitled"[0] == 'U' && "Untitled"[7] == 'd';
  }

  lemma NameIsKeptExactlyWhen(item: Value)
    ensures BoundedString(item, ItemName, MaxLength(ItemName)).GetOr("Untitled") == StringField(item, ItemName).GetOr("Untitled")
       <==> Tidy(AsStr(Field(item, ItemName)), MaxLength(ItemName))
  {
    BoundedIsKept(item, ItemName, MaxLength(ItemName));
    UntitledIsTidy();
    var s := AsStr(Field(item, ItemName));
    if s.Some? { RustTrimTrims(s.value); }
  }

  /** What the item's fields must satisfy for the index to show the item as it is. */
  predicate ShownAlike(item: Value) {
    && Tidy(AsStr(Field(item, ItemId)), ID_MAX)
    && (forall k :: k in STRING_KEYS ==> Tidy(AsStr(Field(item, k)), MaxLength(k)))
    && TidySites(AsArray(Field(item, Websites))) && |ArrayStrings(item, Websites)| <= WEBSITES_MAX
    && (if StringField(item, Password).Some? then BoundedString(item, Password, PASSWORD_MAX).Some? else !BoolField(item, HasPassword))
    && (BoolField(item, HasOtp) ==> Field(item, Otp).Some?)
    && (BoolField(item, HasPasskey) ==> AsArray(Field(item, Passkeys)) != [])
  }

  lemma StringIsKept(item: Value, k: Key)
    requires LoginIndexEntry(item).Some? && k in STRING_KEYS
    ensures StringField(LoginIndexEntry(item).value, k) == StringField(item, k) <==> TidyString(item, k)
  {
    EntryString(item, k);
    BoundedIsKept(item, k, MaxLength(k));
  }

  lemma NameIsShown(item: Value)
    requires LoginIndexEntry(item).Some?
    ensures StringField(LoginIndexEntry(item).value, ItemName).GetOr("Untitled") == StringField(item, ItemName).GetOr("Untitled")
       <==> TidyString(item, ItemName)
  {
    assert ItemName in STRING_KEYS;
    EntryString(item, ItemName);
    NameIsKeptExactlyWhen(item);
  }

  lemma IdIsShown(item: Value)
    requires LoginIndexEntry(item).Some?
    ensures StringField(LoginIndexEntry(item).value, ItemId) == StringField(item, ItemId) <==> Tidy(AsStr(Field(item, ItemId)), ID_MAX)
    ensures StringField(LoginIndexEntry(item).value, ItemId).Some?
  {
    EntryString(item, ItemId);
    BoundedIsKept(item, ItemId, ID_MAX);
  }

  lemma SitesAreShown(item: Value)
    requires LoginIndexEntry(item).Some?
    ensures ArrayStrings(LoginIndexEntry(item).value, Websites) == ArrayStrings(item, Websites)
       <==> TidySites(AsArray(Field(item, Websites))) && |ArrayStrings(item, Websites)| <= WEBSITES_MAX
  {
    EntrySites(item);
    WebsitesAreKeptExactlyWhen(item);
  }

  /** The index shows a login exactly as the vault would if and only if its fields are so. */
  lemma EntryShowsItemExactlyWhen(item: Value)
    requires LoginIndexEntry(item).Some?
    ensures SiteMatchValue(LoginIndexEntry(item).value) == SiteMatchValue(item) <==> ShownAlike(item)
  {
    FourStrings(item);
    IdIsShown(item);
    NameIsShown(item);
    StringIsKept(item, Username);
    StringIsKept(item, SsoProvider);
    StringIsKept(item, LastUsedAt);
    SitesAreShown(item);
    EntryFlags(item);
  }

  predicate TidyString(item: Value, k: Key) {
    Tidy(AsStr(Field(item, k)), MaxLength(k))
  }

  lemma FourStrings(item: Value)
    ensures (forall k :: k in STRING_KEYS ==> Tidy(AsStr(Field(item, k)), MaxLength(k)))
       <==> TidyString(item, ItemName) && TidyString(item, Username) && TidyString(item, SsoProvider) && TidyString(item, LastUsedAt)
  {
    assert STRING_KEYS[0] == ItemName && STRING_KEYS[1] == Username && STRING_KEYS[2] == SsoProvider && STRING_KEYS[3] == LastUsedAt;
  }

  /** Then it is also scored and sorted alike. */
  lemma EntryCompetesAlike(item: Value, url: string, score: HostScore)
    requires LoginIndexEntry(item).Some? && ShownAlike(item)
    ensures CandidateOf(LoginIndexEntry(item).value, url, score) == CandidateOf(item, url, score)
  {
    EntryShowsItemExactlyWhen(item);
    EntryString(item, ItemName);
    EntrySites(item);
    WebsitesAreKeptExactlyWhen(item);
    assert ItemName in STRING_KEYS;
    BoundedIsKept(item, ItemName, MaxLength(ItemName));
  }

  lemma UnlistedDoesNotCompete(item: Value, url: string, score: HostScore)
    requires IsLogin(item) && LoginIndexEntry(item).None? && Tidy(AsStr(Field(item, ItemId)), ID_MAX)
    ensures CandidateOf(item, url, score).None?
  {
    BoundedIsKept(item, ItemId, ID_MAX);
  }

  // ---- the whole list

  function Logins(items: seq<Value>): seq<Value> {
    if items == [] then [] else (if IsLogin(items[0]) then [items[0]] else []) + Logins(items[1..])
  }

  /** The vault with its logins only. */
  function LoginsOnly(state: Value): Value {
    Object(map[Items := Array(Logins(ItemsOf(Some(state))))])
  }

  predicate AllShownAlike(items: seq<Value>) {
    forall i :: 0 <= i < |items| && IsLogin(items[i]) ==> ShownAlike(items[i])
  }

  lemma CandidatesConcat(item: Value, rest: seq<Value>, url: string, score: HostScore)
    ensures Candidates([item] + rest, url, score)
         == (if CandidateOf(item, url, score).Some? then [CandidateOf(item, url, score).value] else []) + Candidates(rest, url, score)
  {
    assert ([item] + rest)[1..] == rest;
  }

  lemma {:induction false} SameCandidates(items: seq<Value>, url: string, score: HostScore)
    requires AllShownAlike(items)
    ensures Candidates(IndexEntries(items), url, score) == Candidates(Logins(items), url, score)
  {
    if items != [] {
      var item := items[0];
      assert AllShownAlike(items[1..]) by { assert forall i :: 0 <= i < |items[1..]| ==> items[1..][i] == items[i + 1]; }
      SameCandidates(items[1..], url, score);
      assert [] + IndexEntries(items[1..]) == IndexEntries(items[1..]) && [] + Logins(items[1..]) == Logins(items[1..]);
      if LoginIndexEntry(item).Some? {
        EntryCompetesAlike(item, url, score);
        CandidatesConcat(LoginIndexEntry(item).value, IndexEntries(items[1..]), url, score);
        CandidatesConcat(item, Logins(items[1..]), url, score);
      } else if IsLogin(item) {
        UnlistedDoesNotCompete(item, url, score);
        CandidatesConcat(item, Logins(items[1..]), url, score);
      }
    }
  }

  /** For every URL and every way of scoring hosts, the locked vault lists exactly what the unlocked
      one lists of its logins, in the same order. */
  lemma LockedListIsTheLoginList(state: Value, url: string, score: HostScore)
    requires AllShownAlike(ItemsOf(Some(state))) && |IndexEntries(ItemsOf(Some(state)))| <= 1_500
    ensures ListSiteMatches(Some(LockedState(state)), url, score) == ListSiteMatches(Some(LoginsOnly(state)), url, score)
  {
    SameCandidates(ItemsOf(Some(state)), url, score);
  }

  /** Beyond the limit the index is a prefix: it never lists anything else. */
  lemma IndexIsAPrefix(state: Value)
    ensures |LoginIndexFromState(state)| <= 1_500
    ensures LoginIndexFromState(state) <= IndexEntries(ItemsOf(Some(state)))
    ensures LoginIndexFromState(state) == IndexEntries(ItemsOf(Some(state))) <==> |IndexEntries(ItemsOf(Some(state)))| <= 1_500
  {
  }

  // ---- no secrets

  const LISTED_KEYS: set<Key> := {ItemId, ItemType, ItemName, Username, SsoProvider, LastUsedAt, Websites}

  /** Two items that differ only in their secrets, and in nothing but the value of those. */
  predicate AlikeButForSecrets(a: Value, b: Value) {
    && (forall k :: k in LISTED_KEYS ==> Field(a, k) == Field(b, k))
    && BoundedString(a, Password, PASSWORD_MAX).Some? == BoundedString(b, Password, PASSWORD_MAX).Some?
    && Field(a, Otp).Some? == Field(b, Otp).Some?
    && (AsArray(Field(a, Passkeys)) == []) == (AsArray(Field(b, Passkeys)) == [])
  }

  lemma SameEntryField(a: Value, b: Value, k: Key)
    requires AlikeButForSecrets(a, b) && k in ENTRY_KEYS
    ensures EntryField(a, k) == EntryField(b, k)
  {
    if k in LISTED_KEYS { assert Field(a, k) == Field(b, k); }
  }

  /** Nothing about a password, one-time code or passkey reaches the index but whether there is one,
      and nothing of any other field. */
  lemma IndexKeepsNoSecret(a: Value, b: Value)
    requires AlikeButForSecrets(a, b)
    ensures LoginIndexEntry(a) == LoginIndexEntry(b)
  {
    assert Field(a, ItemId) == Field(b, ItemId) && Field(a, ItemType) == Field(b, ItemType);
    forall k | k in ENTRY_KEYS ensures EntryField(a, k) == EntryField(b, k) { SameEntryField(a, b, k); }
    SameEntryMap(a, b);
  }

  lemma SameEntryMap(a: Value, b: Value)
    requires forall k :: k in ENTRY_KEYS ==> EntryField(a, k) == EntryField(b, k)
    ensures EntryMap(a) == EntryMap(b)
  {
  }
}
