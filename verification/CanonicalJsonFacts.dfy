/** The canonical text is faithful, and so are the content hash and the additional data built on it. */
module CanonicalJsonFacts {
  import opened Common
  import opened JsonText
  import opened CanonicalJson

  // ---- the canonical tree means what the value means

  ghost predicate Functional(list: seq<Member>) {
    forall x, y :: x in list && y in list && x.key == y.key ==> x == y
  }

  lemma {:induction false} JsonMembersGet(list: seq<Member>, k: JsString)
    ensures k in JsonMembers(list) ==> exists m :: m in list && m.key == k && JsonMembers(list)[k] == JsonMeaning(m.value)
    ensures (exists m :: m in list && m.key == k) ==> k in JsonMembers(list)
  {
    if list != [] {
      JsonMembersGet(list[1..], k);
      assert list == [list[0]] + list[1..];
    }
  }

  /** Only the set of members matters. */
  lemma SameElementsSameMeaning(a: seq<Member>, b: seq<Member>)
    requires Elements(a) == Elements(b) && Functional(a)
    ensures JsonMembers(a) == JsonMembers(b)
  {
    forall m ensures m in a <==> m in b { assert m in a <==> m in Elements(a); assert m in b <==> m in Elements(b); }
    forall k ensures k in JsonMembers(a) <==> k in JsonMembers(b) {
      JsonMembersGet(a, k);
      JsonMembersGet(b, k);
    }
    forall k | k in JsonMembers(a) ensures JsonMembers(a)[k] == JsonMembers(b)[k] {
      JsonMembersGet(a, k);
      JsonMembersGet(b, k);
    }
  }

  /** Each canonical member comes from a property that is not skipped, and the other way round. */
  lemma {:induction false} MembersFromProperties(ps: seq<Property>, m: Member)
    ensures m in CanonicalMembers(ps) <==> exists i :: 0 <= i < |ps| && !Skipped(ps[i]) && m == Member(ps[i].key, Canonical(ps[i].value))
  {
    if ps != [] {
      MembersFromProperties(ps[1..], m);
      if i :| 0 <= i < |ps| && !Skipped(ps[i]) && m == Member(ps[i].key, Canonical(ps[i].value)) {
        if i > 0 { assert ps[1..][i - 1] == ps[i]; }
      }
      if i :| 0 <= i < |ps[1..]| && !Skipped(ps[1..][i]) && m == Member(ps[1..][i].key, Canonical(ps[1..][i].value)) {
        assert ps[1..][i] == ps[i + 1];
      }
    }
  }

  lemma {:induction false} CanonicalMembersUnique(ps: seq<Property>)
    requires UniqueKeys(ps)
    ensures UniqueMembers(CanonicalMembers(ps))
  {
    if ps != [] {
      CanonicalMembersUnique(ps[1..]);
      if !Skipped(ps[0]) {
        var head, rest := Member(ps[0].key, Canonical(ps[0].value)), CanonicalMembers(ps[1..]);
        forall j | 0 <= j < |rest| ensures rest[j].key != head.key {
          MembersFromProperties(ps[1..], rest[j]);
        }
        assert CanonicalMembers(ps) == [head] + rest;
      }
    }
  }

  lemma UniqueIsFunctional(list: seq<Member>)
    requires UniqueMembers(list)
    ensures Functional(list)
  {
  }

  lemma OrderKeepsMeaning(list: seq<Member>)
    requires UniqueMembers(list)
    ensures JsonMembers(Enumerated(Sorted(list))) == JsonMembers(list)
  {
    SortedIncreasing(list);
    EnumeratedElements(Sorted(list));
    UniqueIsFunctional(list);
    SameElementsSameMeaning(list, Enumerated(Sorted(list)));
  }

  lemma {:induction false} CanonicalMeans(v: Value)
    requires Proper(v)
    ensures JsonMeaning(Canonical(v)) == MeaningOf(v)
    decreases v
  {
    match v
    case Array(items) => CanonicalItemsMean(items);
    case Object(ps) =>
      CanonicalMembersMean(ps);
      CanonicalMembersUnique(ps);
      OrderKeepsMeaning(CanonicalMembers(ps));
    case _ =>
  }

  lemma {:induction false} CanonicalItemsMean(items: seq<Value>)
    requires forall i :: 0 <= i < |items| ==> Proper(items[i])
    ensures JsonItems(CanonicalItems(items)) == ItemMeanings(items)
    decreases items
  {
    if items != [] {
      CanonicalMeans(items[0]);
      CanonicalItemsMean(items[1..]);
      assert CanonicalItems(items)[1..] == CanonicalItems(items[1..]);
    }
  }

  lemma {:induction false} CanonicalMembersMean(ps: seq<Property>)
    requires forall i :: 0 <= i < |ps| ==> Proper(ps[i].value)
    ensures JsonMembers(CanonicalMembers(ps)) == MemberMeanings(ps)
    decreases ps
  {
    if ps != [] {
      CanonicalMembersMean(ps[1..]);
      if Skipped(ps[0]) {
        assert CanonicalMembers(ps) == CanonicalMembers(ps[1..]);
      } else {
        CanonicalMeans(ps[0].value);
        assert CanonicalMembers(ps)[1..] == CanonicalMembers(ps[1..]);
      }
    }
  }

  // ---- values with the same meaning have the same canonical tree

  lemma {:induction false} MemberMeaningsGet(ps: seq<Property>, k: JsString)
    ensures k in MemberMeanings(ps) ==>
      exists i :: 0 <= i < |ps| && !Skipped(ps[i]) && ps[i].key == k && MemberMeanings(ps)[k] == MeaningOf(ps[i].value)
  {
    if ps != [] && k in MemberMeanings(ps) {
      MemberMeaningsGet(ps[1..], k);
      if Skipped(ps[0]) || ps[0].key != k {
        var i :| 0 <= i < |ps[1..]| && !Skipped(ps[1..][i]) && ps[1..][i].key == k && MemberMeanings(ps[1..])[k] == MeaningOf(ps[1..][i].value);
        assert ps[1..][i] == ps[i + 1];
      }
    }
  }

  lemma {:induction false} MemberMeaningsHas(ps: seq<Property>, i: nat)
    requires UniqueKeys(ps) && i < |ps| && !Skipped(ps[i])
    ensures ps[i].key in MemberMeanings(ps) && MemberMeanings(ps)[ps[i].key] == MeaningOf(ps[i].value)
  {
    if i > 0 {
      assert ps[0].key != ps[i].key;
      MemberMeaningsHas(ps[1..], i - 1);
    }
  }

  lemma {:induction false} SameMeaningSameTree(a: Value, b: Value)
    requires Proper(a) && Proper(b) && MeaningOf(a) == MeaningOf(b)
    ensures Canonical(a) == Canonical(b)
    decreases a
  {
    match a
    case Array(items) => SameItems(items, b.items);
    case Object(ps) => SameObjects(a, b);
    case _ =>
  }

  lemma {:induction false} SameItems(a: seq<Value>, b: seq<Value>)
    requires forall i :: 0 <= i < |a| ==> Proper(a[i])
    requires forall i :: 0 <= i < |b| ==> Proper(b[i])
    requires ItemMeanings(a) == ItemMeanings(b)
    ensures CanonicalItems(a) == CanonicalItems(b)
    decreases a
  {
    if a != [] {
      assert b != [];
      assert ItemMeanings(a)[0] == MeaningOf(a[0]) && ItemMeanings(b)[0] == MeaningOf(b[0]);
      assert ItemMeanings(a)[1..] == ItemMeanings(a[1..]) && ItemMeanings(b)[1..] == ItemMeanings(b[1..]);
      SameMeaningSameTree(a[0], b[0]);
      SameItems(a[1..], b[1..]);
    }
  }

  lemma {:induction false} SameObjects(a: Value, b: Value)
    requires Proper(a) && Proper(b) && a.Object? && b.Object? && MeaningOf(a) == MeaningOf(b)
    ensures Canonical(a) == Canonical(b)
    decreases a, 0
  {
    var ma, mb := CanonicalMembers(a.properties), CanonicalMembers(b.properties);
    forall m ensures m in ma <==> m in mb {
      MembersFromProperties(a.properties, m);
      MembersFromProperties(b.properties, m);
      if i :| 0 <= i < |a.properties| && !Skipped(a.properties[i]) && m == Member(a.properties[i].key, Canonical(a.properties[i].value)) {
        var j := Counterpart(a.properties, b.properties, i);
        SameMeaningSameTree(a.properties[i].value, b.properties[j].value);
      }
      if j :| 0 <= j < |b.properties| && !Skipped(b.properties[j]) && m == Member(b.properties[j].key, Canonical(b.properties[j].value)) {
        var i := Counterpart(b.properties, a.properties, j);
        SameMeaningSameTree(a.properties[i].value, b.properties[j].value);
      }
    }
    assert Elements(ma) == Elements(mb);
    CanonicalMembersUnique(a.properties);
    CanonicalMembersUnique(b.properties);
    SortedIncreasing(ma);
    SortedIncreasing(mb);
    OneIncreasingOrder(Sorted(ma), Sorted(mb));
  }

  lemma Counterpart(a: seq<Property>, b: seq<Property>, i: nat) returns (j: nat)
    requires UniqueKeys(a) && i < |a| && !Skipped(a[i]) && MemberMeanings(a) == MemberMeanings(b)
    ensures j < |b| && !Skipped(b[j]) && b[j].key == a[i].key && MeaningOf(b[j].value) == MeaningOf(a[i].value)
  {
    MemberMeaningsHas(a, i);
    MemberMeaningsGet(b, a[i].key);
    j :| 0 <= j < |b| && !Skipped(b[j]) && b[j].key == a[i].key && MemberMeanings(b)[a[i].key] == MeaningOf(b[j].value);
  }

  // ---- values that are the same to JSON

  /** A member that reaches the text: not undefined, and not called `__proto__`. */
  predicate Counts(p: Property) {
    !p.value.Undefined? && p.key != [95, 95, 112, 114, 111, 116, 111, 95, 95]
  }

  lemma CountsExactlyWhen(p: Property)
    ensures Counts(p) <==> !Skipped(p)
  {
    assert PROTO == [95, 95, 112, 114, 111, 116, 111, 95, 95];
  }

  /** Equal up to the order of members, members that do not count, and undefined for null. */
  ghost predicate Same(a: Value, b: Value)
    decreases a
  {
    match a
    case Undefined => b.Undefined? || b.Null?
    case Null => b.Undefined? || b.Null?
    case Bool(x) => b == Bool(x)
    case Number(x) => b == Number(x)
    case Str(x) => b == Str(x)
    case Array(xs) => b.Array? && |xs| == |b.items| && forall i :: 0 <= i < |xs| ==> Same(xs[i], b.items[i])
    case Object(ps) => b.Object? && Matched(ps, b.properties, {})
  }

  /** Members by the names in `except` aside, every member that counts has a counterpart on the other side. */
  ghost predicate Matched(a: seq<Property>, b: seq<Property>, except: set<JsString>)
    decreases a, 2
  {
    && (forall i :: 0 <= i < |a| && Counts(a[i]) && a[i].key !in except ==> HasPartner(a[i], b))
    && (forall j :: 0 <= j < |b| && Counts(b[j]) && b[j].key !in except ==> IsPartner(a, b[j]))
  }

  ghost predicate HasPartner(p: Property, b: seq<Property>)
    decreases p
  {
    exists j :: 0 <= j < |b| && Counts(b[j]) && b[j].key == p.key && Same(p.value, b[j].value)
  }

  ghost predicate IsPartner(a: seq<Property>, q: Property)
    decreases a, 1
  {
    exists i :: 0 <= i < |a| && Counts(a[i]) && a[i].key == q.key && Same(a[i].value, q.value)
  }

  lemma {:induction false} ItemMeaningsAt(items: seq<Value>)
    ensures |ItemMeanings(items)| == |items| && forall i :: 0 <= i < |items| ==> ItemMeanings(items)[i] == MeaningOf(items[i])
  {
    if items != [] { ItemMeaningsAt(items[1..]); }
  }

  lemma {:induction false} SameMeansAlike(a: Value, b: Value)
    requires Proper(a) && Proper(b)
    ensures Same(a, b) <==> MeaningOf(a) == MeaningOf(b)
    decreases a
  {
    if a.Array? && b.Array? {
      ItemMeaningsAt(a.items);
      ItemMeaningsAt(b.items);
      forall i | 0 <= i < |a.items| && i < |b.items| ensures Same(a.items[i], b.items[i]) <==> MeaningOf(a.items[i]) == MeaningOf(b.items[i]) {
        SameMeansAlike(a.items[i], b.items[i]);
      }
      SameArrays(a, b);
    } else if a.Object? && b.Object? {
      var ps, qs := a.properties, b.properties;
      forall i, j | 0 <= i < |ps| && 0 <= j < |qs| ensures PairAgrees(ps[i], qs[j]) {
        SameMeansAlike(ps[i].value, qs[j].value);
      }
      MatchedMeansAlike(ps, qs, {});
      assert MemberMeanings(ps) - {} == MemberMeanings(ps) && MemberMeanings(qs) - {} == MemberMeanings(qs);
    }
  }

  lemma SameArrays(a: Value, b: Value)
    requires a.Array? && b.Array? && |ItemMeanings(a.items)| == |a.items| && |ItemMeanings(b.items)| == |b.items|
    requires forall i :: 0 <= i < |a.items| && i < |b.items| ==> (Same(a.items[i], b.items[i]) <==> ItemMeanings(a.items)[i] == ItemMeanings(b.items)[i])
    ensures Same(a, b) <==> MeaningOf(a) == MeaningOf(b)
  {
  }

  ghost predicate PairAgrees(p: Property, q: Property) {
    Same(p.value, q.value) <==> MeaningOf(p.value) == MeaningOf(q.value)
  }

  predicate MeansAt(ps: seq<Property>, p: Property) {
    p.key in MemberMeanings(ps) && MemberMeanings(ps)[p.key] == MeaningOf(p.value)
  }

  lemma MeansAtExactlyWhen(ps: seq<Property>, p: Property)
    requires UniqueKeys(ps)
    ensures MeansAt(ps, p) <==> exists i :: 0 <= i < |ps| && Counts(ps[i]) && ps[i].key == p.key && MeaningOf(ps[i].value) == MeaningOf(p.value)
  {
    forall q ensures Counts(q) <==> !Skipped(q) { CountsExactlyWhen(q); }
    MemberMeaningsGet(ps, p.key);
    if i :| 0 <= i < |ps| && Counts(ps[i]) && ps[i].key == p.key && MeaningOf(ps[i].value) == MeaningOf(p.value) {
      MemberMeaningsHas(ps, i);
    }
  }

  lemma MatchedMeansAlike(a: seq<Property>, b: seq<Property>, except: set<JsString>)
    requires UniqueKeys(a) && UniqueKeys(b)
    requires forall i, j :: 0 <= i < |a| && 0 <= j < |b| ==> PairAgrees(a[i], b[j])
    ensures Matched(a, b, except) <==> MemberMeanings(a) - except == MemberMeanings(b) - except
  {
    forall i | 0 <= i < |a| ensures HasPartner(a[i], b) <==> MeansAt(b, a[i]) { MeansAtExactlyWhen(b, a[i]); }
    forall j | 0 <= j < |b| ensures IsPartner(a, b[j]) <==> MeansAt(a, b[j]) { MeansAtExactlyWhen(a, b[j]); }
    AlikeExactlyWhen(a, b, except);
  }

  predicate Included(a: seq<Property>, b: seq<Property>, except: set<JsString>) {
    forall i :: 0 <= i < |a| && Counts(a[i]) && a[i].key !in except ==> MeansAt(b, a[i])
  }

  lemma AlikeExactlyWhen(a: seq<Property>, b: seq<Property>, except: set<JsString>)
    requires UniqueKeys(a) && UniqueKeys(b)
    ensures Included(a, b, except) && Included(b, a, except) <==> MemberMeanings(a) - except == MemberMeanings(b) - except
  {
    IncludedExactlyWhen(a, b, except);
    IncludedExactlyWhen(b, a, except);
    AgreeingMaps(MemberMeanings(a), MemberMeanings(b), except);
  }

  predicate AgreesWith(m: map<JsString, Meaning>, n: map<JsString, Meaning>, except: set<JsString>) {
    forall k :: k in m && k !in except ==> k in n && m[k] == n[k]
  }

  lemma AgreeingMaps(m: map<JsString, Meaning>, n: map<JsString, Meaning>, except: set<JsString>)
    ensures AgreesWith(m, n, except) && AgreesWith(n, m, except) <==> m - except == n - except
  {
    if m - except == n - except {
      forall k | k in m && k !in except ensures k in n && m[k] == n[k] { assert k in m - except && (m - except)[k] == m[k]; }
      forall k | k in n && k !in except ensures k in m && n[k] == m[k] { assert k in n - except && (n - except)[k] == n[k]; }
    }
  }

  lemma IncludedExactlyWhen(a: seq<Property>, b: seq<Property>, except: set<JsString>)
    requires UniqueKeys(a)
    ensures Included(a, b, except)
       <==> AgreesWith(MemberMeanings(a), MemberMeanings(b), except)
  {
    forall q ensures Counts(q) <==> !Skipped(q) { CountsExactlyWhen(q); }
    forall i | 0 <= i < |a| && Counts(a[i]) ensures MeansAt(a, a[i]) { MemberMeaningsHas(a, i); }
    forall k | k in MemberMeanings(a) ensures exists i :: 0 <= i < |a| && Counts(a[i]) && a[i].key == k && MeansAt(a, a[i]) {
      MemberMeaningsGet(a, k);
    }
  }

  // ---- main results

  lemma TextTellsMeaning(a: Value, b: Value)
    requires Proper(a) && Proper(b) && !a.Undefined? && !b.Undefined?
    ensures CanonicalText(a) == CanonicalText(b) <==> MeaningOf(a) == MeaningOf(b)
  {
    if MeaningOf(a) == MeaningOf(b) {
      SameMeaningSameTree(a, b);
    }
    if CanonicalText(a) == CanonicalText(b) {
      assert Text(Canonical(a)) + [] == Text(Canonical(b)) + [];
      TextInjective(Canonical(a), [], Canonical(b), []);
      CanonicalMeans(a);
      CanonicalMeans(b);
    }
  }

  /** Two values have the same canonical text if and only if they are the same to JSON; only the value
      undefined has none. */
  lemma CanonicalTextIsFaithful(a: Value, b: Value)
    requires Proper(a) && Proper(b)
    ensures CanonicalText(a) == CanonicalText(b) <==> Same(a, b) && (a.Undefined? <==> b.Undefined?)
    ensures CanonicalText(a).None? <==> a.Undefined?
  {
    if !a.Undefined? && !b.Undefined? {
      TextTellsMeaning(a, b);
      SameMeansAlike(a, b);
    }
  }

  /** Neither an undefined array element nor a `__proto__` member leaves a trace of its own. */
  lemma TwoBlindSpots(v: Value)
    requires Proper(v) && !v.Undefined?
    ensures CanonicalText(Array([Undefined])) == CanonicalText(Array([Null]))
    ensures CanonicalText(Object([Property(PROTO, v)])) == CanonicalText(Object([]))
  {
    TextTellsMeaning(Array([Undefined]), Array([Null]));
    assert ItemMeanings([Undefined]) == [MNull] == ItemMeanings([Null]) by {
      assert ItemMeanings([Undefined][1..]) == [] && ItemMeanings([Null][1..]) == [];
    }
    TextTellsMeaning(Object([Property(PROTO, v)]), Object([]));
    assert MemberMeanings([Property(PROTO, v)][1..]) == map[];
  }

  lemma Flat(c: CodeUnit, p: JsString, d: CodeUnit, q: JsString, e: CodeUnit)
    ensures [c] + (p + ([d] + q + [e])) == [c] + p + [d] + q + [e]
  {
  }

  /** The texts of RFC 8259. */
  lemma LiteralTexts()
    ensures Text(JNull) == Ascii("null") && Text(JBool(true)) == Ascii("true") && Text(JBool(false)) == Ascii("false")
    ensures Text(JArray([])) == Ascii("[]") && Text(JObject([])) == Ascii("{}")
  {
  }

  lemma ArrayText(a: Json, b: Json)
    ensures Text(JArray([a, b])) == ['[' as int] + Text(a) + [',' as int] + Text(b) + [']' as int]
  {
    var items := [a, b];
    assert items[1..] == [b] && [b][1..] == [];
    assert ItemsAfter([b]) == [COMMA] + Text(b) + ItemsAfter([]);
    Flat(OPEN_BRACKET, Text(a), COMMA, Text(b), CLOSE_BRACKET);
  }

  lemma ObjectText(m: Member, n: Member)
    ensures Text(JObject([m, n])) == ['{' as int] + MemberText(m) + [',' as int] + MemberText(n) + ['}' as int]
    ensures MemberText(m) == Text(JString(m.key)) + [':' as int] + Text(m.value)
  {
    var members := [m, n];
    assert members[1..] == [n] && [n][1..] == [];
    assert MembersAfter([n]) == [COMMA] + MemberText(n) + MembersAfter([]);
    Flat(OPEN_BRACE, MemberText(m), COMMA, MemberText(n), CLOSE_BRACE);
  }

  // ---- src/desktop/sync-crypto.ts: recordHashPayload, hashPlainRecord

  const UPDATED_AT := Ascii("updatedAt")

  function Payload(ps: seq<Property>): seq<Property> {
    if ps == [] then [] else (if ps[0].key == UPDATED_AT then [] else [ps[0]]) + Payload(ps[1..])
  }

  lemma {:induction false} PayloadProper(ps: seq<Property>)
    requires Proper(Object(ps))
    ensures Proper(Object(Payload(ps)))
    ensures forall p :: p in Payload(ps) ==> p in ps
  {
    if ps != [] {
      var tail := ps[1..];
      assert Proper(Object(tail)) by { assert forall i :: 0 <= i < |tail| ==> tail[i] == ps[i + 1]; }
      PayloadProper(tail);
      forall p | p in Payload(tail) ensures p.key != ps[0].key && Proper(p.value) {
        var i :| 0 <= i < |tail| && tail[i] == p;
        assert ps[i + 1] == p;
      }
      var whole := Payload(ps);
      if ps[0].key != UPDATED_AT { assert whole == [ps[0]] + Payload(tail); }
    }
  }

  lemma {:induction false} PayloadMeanings(ps: seq<Property>)
    ensures MemberMeanings(Payload(ps)) == MemberMeanings(ps) - {UPDATED_AT}
  {
    if ps != [] {
      PayloadMeanings(ps[1..]);
      if ps[0].key != UPDATED_AT { assert Payload(ps)[1..] == Payload(ps[1..]); }
      else { assert Payload(ps) == Payload(ps[1..]); }
    }
  }

  /** The text that is hashed: two records share it exactly when they agree on every member that
      counts but `updatedAt`. */
  lemma HashedTextIsFaithful(a: seq<Property>, b: seq<Property>)
    requires Proper(Object(a)) && Proper(Object(b))
    ensures CanonicalText(Object(Payload(a))) == CanonicalText(Object(Payload(b)))
       <==> Matched(a, b, {[117, 112, 100, 97, 116, 101, 100, 65, 116]})
  {
    PayloadProper(a);
    PayloadProper(b);
    TextTellsMeaning(Object(Payload(a)), Object(Payload(b)));
    PayloadMeanings(a);
    PayloadMeanings(b);
    assert UPDATED_AT == [117, 112, 100, 97, 116, 101, 100, 65, 116];
    forall i, j | 0 <= i < |a| && 0 <= j < |b| ensures PairAgrees(a[i], b[j]) {
      SameMeansAlike(a[i].value, b[j].value);
    }
    MatchedMeansAlike(a, b, {UPDATED_AT});
  }

  // ---- src/desktop/sync-crypto.ts: aadFor

  function AadProperties(identityId: JsString, recordId: JsString, revision: int, schemaVersion: int): seq<Property> {
    [Property(Ascii("identityId"), Str(identityId)), Property(Ascii("recordId"), Str(recordId)),
     Property(Ascii("revision"), Number(revision)), Property(Ascii("schemaVersion"), Number(schemaVersion))]
  }

  lemma AadProper(identityId: JsString, recordId: JsString, revision: int, schemaVersion: int)
    ensures Proper(Object(AadProperties(identityId, recordId, revision, schemaVersion)))
    ensures forall p :: p in AadProperties(identityId, recordId, revision, schemaVersion) ==> !Skipped(p)
  {
    var ps := AadProperties(identityId, recordId, revision, schemaVersion);
    assert |ps[0].key| == 10 && |ps[1].key| == 8 && |ps[2].key| == 8 && |ps[3].key| == 13 && |PROTO| == 9;
    assert ps[1].key[2] != ps[2].key[2];
  }

  /** The additional data tell apart any two sealed records: symbolic additional data lose nothing. */
  lemma AadIsFaithful(i: JsString, r: JsString, v: int, s: int, i': JsString, r': JsString, v': int, s': int)
    ensures CanonicalText(Object(AadProperties(i, r, v, s))) == CanonicalText(Object(AadProperties(i', r', v', s')))
       <==> i == i' && r == r' && v == v' && s == s'
  {
    var a, b := AadProperties(i, r, v, s), AadProperties(i', r', v', s');
    AadProper(i, r, v, s);
    AadProper(i', r', v', s');
    TextTellsMeaning(Object(a), Object(b));
    forall k | 0 <= k < 4 ensures MemberMeanings(a) == MemberMeanings(b) ==> MeaningOf(a[k].value) == MeaningOf(b[k].value) {
      MemberMeaningsHas(a, k);
      MemberMeaningsHas(b, k);
      assert a[k].key == b[k].key;
    }
    if MemberMeanings(a) == MemberMeanings(b) {
      assert MeaningOf(a[0].value) == MeaningOf(b[0].value);
      assert MeaningOf(a[1].value) == MeaningOf(b[1].value);
      assert MeaningOf(a[2].value) == MeaningOf(b[2].value);
      assert MeaningOf(a[3].value) == MeaningOf(b[3].value);
    }
  }
}
