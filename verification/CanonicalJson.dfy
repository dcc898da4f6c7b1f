/** `canonicalJson`: two values share their canonical text exactly when they mean the same, that is,
    up to the order of keys and the members that JSON has no place for. */
module CanonicalJson {
  import opened Common
  import opened JsonText
  import opened Lexicographic

  datatype Value = Undefined | Null | Bool(b: bool) | Number(n: int) | Str(s: JsString) | Array(items: seq<Value>) | Object(properties: seq<Property>)

  /** An own property; `properties` are in order of creation. */
  datatype Property = Property(key: JsString, value: Value)

  /** A JavaScript object has one property for each key. */
  predicate Proper(v: Value)
    decreases v
  {
    match v
    case Array(items) => forall i :: 0 <= i < |items| ==> Proper(items[i])
    case Object(ps) => UniqueKeys(ps) && forall i :: 0 <= i < |ps| ==> Proper(ps[i].value)
    case _ => true
  }

  predicate UniqueKeys(ps: seq<Property>) {
    forall i, j :: 0 <= i < j < |ps| ==> ps[i].key != ps[j].key
  }

  // ---- src/shared/canonical-json.ts

  function Ascii(s: string): JsString
    requires forall i :: 0 <= i < |s| ==> s[i] < '\U{0080}'
  {
    seq(|s|, i requires 0 <= i < |s| => s[i] as int)
  }

  const PROTO := Ascii("__proto__")

  /** `sort()` orders by code units. */
  function Insert(m: Member, list: seq<Member>): seq<Member> {
    if list == [] || LexLess(m.key, list[0].key) then [m] + list else [list[0]] + Insert(m, list[1..])
  }

  function Sorted(list: seq<Member>): seq<Member> {
    if list == [] then [] else Insert(list[0], Sorted(list[1..]))
  }

  /** Keys that objects enumerate first, by value. */
  predicate IsIndex(k: JsString) {
    k != [] && (forall i :: 0 <= i < |k| ==> IsDigit(k[i])) && (k == [ZERO] || k[0] != ZERO) && DigitsValue(k) < 0xFFFF_FFFF
  }

  function InsertIndex(m: Member, list: seq<Member>): seq<Member> {
    if list == [] || DigitsValue(m.key) < DigitsValue(list[0].key) then [m] + list else [list[0]] + InsertIndex(m, list[1..])
  }

  function IndexMembers(list: seq<Member>): seq<Member> {
    if list == [] then [] else if IsIndex(list[0].key) then InsertIndex(list[0], IndexMembers(list[1..])) else IndexMembers(list[1..])
  }

  function NamedMembers(list: seq<Member>): seq<Member> {
    if list == [] then [] else if IsIndex(list[0].key) then NamedMembers(list[1..]) else [list[0]] + NamedMembers(list[1..])
  }

  /** The order in which an object enumerates members that were created in the given order. */
  function Enumerated(list: seq<Member>): seq<Member> {
    IndexMembers(list) + NamedMembers(list)
  }

  /** Assigning to `__proto__` creates no own property. */
  predicate Skipped(p: Property) {
    p.value.Undefined? || p.key == PROTO
  }

  /** What `JSON.stringify` finds in the sorted copy. It prints an undefined array element as null. */
  function Canonical(v: Value): Json
    decreases v
  {
    match v
    case Undefined => JNull
    case Null => JNull
    case Bool(b) => JBool(b)
    case Number(n) => JNumber(n)
    case Str(s) => JString(s)
    case Array(items) => JArray(CanonicalItems(items))
    case Object(ps) => JObject(Enumerated(Sorted(CanonicalMembers(ps))))
  }

  function CanonicalItems(items: seq<Value>): seq<Json>
    decreases items
  {
    if items == [] then [] else [Canonical(items[0])] + CanonicalItems(items[1..])
  }

  function CanonicalMembers(ps: seq<Property>): seq<Member>
    decreases ps
  {
    if ps == [] then []
    else (if Skipped(ps[0]) then [] else [Member(ps[0].key, Canonical(ps[0].value))]) + CanonicalMembers(ps[1..])
  }

  /** `canonicalJson`: None is the value undefined. */
  function CanonicalText(v: Value): Option<JsString> {
    if v.Undefined? then None else Some(Text(Canonical(v)))
  }

  // ---- what a value means

  datatype Meaning = MNull | MBool(b: bool) | MNumber(n: int) | MString(s: JsString) | MArray(items: seq<Meaning>) | MObject(members: map<JsString, Meaning>)

  function MeaningOf(v: Value): Meaning
    decreases v
  {
    match v
    case Undefined => MNull
    case Null => MNull
    case Bool(b) => MBool(b)
    case Number(n) => MNumber(n)
    case Str(s) => MString(s)
    case Array(items) => MArray(ItemMeanings(items))
    case Object(ps) => MObject(MemberMeanings(ps))
  }

  function ItemMeanings(items: seq<Value>): seq<Meaning>
    decreases items
  {
    if items == [] then [] else [MeaningOf(items[0])] + ItemMeanings(items[1..])
  }

  function MemberMeanings(ps: seq<Property>): map<JsString, Meaning>
    decreases ps
  {
    if ps == [] then map[]
    else if Skipped(ps[0]) then MemberMeanings(ps[1..])
    else MemberMeanings(ps[1..])[ps[0].key := MeaningOf(ps[0].value)]
  }

  function JsonMeaning(v: Json): Meaning
    decreases v
  {
    match v
    case JNull => MNull
    case JBool(b) => MBool(b)
    case JNumber(n) => MNumber(n)
    case JString(s) => MString(s)
    case JArray(items) => MArray(JsonItems(items))
    case JObject(ms) => MObject(JsonMembers(ms))
  }

  function JsonItems(items: seq<Json>): seq<Meaning>
    decreases items
  {
    if items == [] then [] else [JsonMeaning(items[0])] + JsonItems(items[1..])
  }

  function JsonMembers(ms: seq<Member>): map<JsString, Meaning>
    decreases ms
  {
    if ms == [] then map[] else JsonMembers(ms[1..])[ms[0].key := JsonMeaning(ms[0].value)]
  }

  // ---- the order of keys

  /** Strictly increasing keys. */
  predicate Increasing(list: seq<Member>) {
    forall i, j :: 0 <= i < j < |list| ==> LexLess(list[i].key, list[j].key)
  }

  predicate NoKey(list: seq<Member>, k: JsString) {
    forall m :: m in list ==> m.key != k
  }

  lemma IncreasingCons(m: Member, list: seq<Member>)
    requires Increasing(list) && forall x :: x in list ==> LexLess(m.key, x.key)
    ensures Increasing([m] + list)
  {
    var all := [m] + list;
    forall i, j | 0 <= i < j < |all| ensures LexLess(all[i].key, all[j].key) {
      assert all[j] == list[j - 1] && list[j - 1] in list;
    }
  }

  lemma {:induction false} InsertIncreasing(m: Member, list: seq<Member>)
    requires Increasing(list) && NoKey(list, m.key)
    ensures Increasing(Insert(m, list)) && Elements(Insert(m, list)) == {m} + Elements(list)
  {
    if list == [] {
    } else if LexLess(m.key, list[0].key) {
      forall x | x in list ensures LexLess(m.key, x.key) {
        var i :| 0 <= i < |list| && list[i] == x;
        if i > 0 { LexTransitive(m.key, list[0].key, x.key); }
      }
      IncreasingCons(m, list);
    } else {
      LexTotal(m.key, list[0].key);
      assert list[0] in list;
      InsertIncreasing(m, list[1..]);
      forall x | x in Insert(m, list[1..]) ensures LexLess(list[0].key, x.key) {
        assert x in Elements(Insert(m, list[1..]));
        if x != m {
          var i :| 0 <= i < |list[1..]| && list[1..][i] == x;
          assert list[i + 1] == x;
        }
      }
      IncreasingCons(list[0], Insert(m, list[1..]));
      assert list == [list[0]] + list[1..];
      assert Elements(list) == {list[0]} + Elements(list[1..]);
      assert Elements(Insert(m, list)) == {list[0]} + Elements(Insert(m, list[1..]));
    }
  }

  predicate UniqueMembers(list: seq<Member>) {
    forall i, j :: 0 <= i < j < |list| ==> list[i].key != list[j].key
  }

  lemma {:induction false} SortedIncreasing(list: seq<Member>)
    requires UniqueMembers(list)
    ensures Increasing(Sorted(list)) && Elements(Sorted(list)) == Elements(list)
  {
    if list != [] {
      SortedIncreasing(list[1..]);
      forall m | m in Sorted(list[1..]) ensures m.key != list[0].key {
        assert m in Elements(Sorted(list[1..]));
        var i :| 0 <= i < |list[1..]| && list[1..][i] == m;
        assert list[i + 1] == m;
      }
      InsertIncreasing(list[0], Sorted(list[1..]));
      assert Elements(list) == {list[0]} + Elements(list[1..]);
    }
  }

  lemma HeadIsElement(list: seq<Member>)
    ensures list != [] ==> list[0] in Elements(list)
  {
  }

  /** Members determine their increasing order. */
  lemma {:induction false} OneIncreasingOrder(a: seq<Member>, b: seq<Member>)
    requires Increasing(a) && Increasing(b) && Elements(a) == Elements(b)
    ensures a == b
  {
    if a == [] {
      HeadIsElement(b);
    } else {
      assert a[0] in Elements(a) && a[0] in b;
      FirstIsLeast(b, a[0]);
      assert b[0] in Elements(b) && b[0] in a;
      FirstIsLeast(a, b[0]);
      LexTotal(a[0].key, b[0].key);
      assert a[0] == b[0];
      TailElements(a);
      TailElements(b);
      OneIncreasingOrder(a[1..], b[1..]);
      assert a == [a[0]] + a[1..] && b == [b[0]] + b[1..];
    }
  }

  lemma FirstIsLeast(list: seq<Member>, m: Member)
    requires Increasing(list) && m in list
    ensures m == list[0] || LexLess(list[0].key, m.key)
  {
  }

  lemma TailElements(list: seq<Member>)
    requires Increasing(list) && list != []
    ensures Increasing(list[1..]) && Elements(list[1..]) == Elements(list) - {list[0]}
  {
    forall m | m in list[1..] ensures m != list[0] && m in list {
      var i :| 0 <= i < |list[1..]| && list[1..][i] == m;
      assert list[i + 1] == m;
      LexTotal(m.key, m.key);
    }
    forall m | m in list && m != list[0] ensures m in list[1..] {
      var i :| 0 <= i < |list| && list[i] == m;
      assert list[1..][i - 1] == m;
    }
  }

  lemma {:induction false} InsertIndexElements(m: Member, list: seq<Member>)
    ensures Elements(InsertIndex(m, list)) == {m} + Elements(list)
  {
    if list != [] && !(DigitsValue(m.key) < DigitsValue(list[0].key)) {
      InsertIndexElements(m, list[1..]);
      assert Elements(InsertIndex(m, list)) == {list[0]} + Elements(InsertIndex(m, list[1..]));
      assert Elements(list) == {list[0]} + Elements(list[1..]);
    }
  }

  lemma {:induction false} EnumeratedElements(list: seq<Member>)
    ensures Elements(Enumerated(list)) == Elements(list)
  {
    assert Elements(Enumerated(list)) == Elements(IndexMembers(list)) + Elements(NamedMembers(list));
    if list != [] {
      EnumeratedElements(list[1..]);
      assert Elements(Enumerated(list[1..])) == Elements(IndexMembers(list[1..])) + Elements(NamedMembers(list[1..]));
      assert Elements(list) == {list[0]} + Elements(list[1..]);
      if IsIndex(list[0].key) {
        InsertIndexElements(list[0], IndexMembers(list[1..]));
      } else {
        assert Elements(NamedMembers(list)) == {list[0]} + Elements(NamedMembers(list[1..]));
      }
    }
  }

  /** Indices first, by value; then the other keys, by code units. */
  predicate ComesFirst(a: Member, b: Member) {
    if IsIndex(a.key) then !IsIndex(b.key) || DigitsValue(a.key) <= DigitsValue(b.key)
    else !IsIndex(b.key) && LexLess(a.key, b.key)
  }

  predicate InPrintOrder(list: seq<Member>) {
    forall i, j :: 0 <= i < j < |list| ==> ComesFirst(list[i], list[j])
  }

  lemma PrintOrderCons(m: Member, list: seq<Member>)
    requires InPrintOrder(list) && forall x :: x in list ==> ComesFirst(m, x)
    ensures InPrintOrder([m] + list)
  {
    var all := [m] + list;
    forall i, j | 0 <= i < j < |all| ensures ComesFirst(all[i], all[j]) {
      assert all[j] == list[j - 1] && list[j - 1] in list;
    }
  }

  predicate AllIndices(list: seq<Member>) {
    forall x :: x in list ==> IsIndex(x.key)
  }

  lemma {:induction false} InsertIndexOrder(m: Member, list: seq<Member>)
    requires IsIndex(m.key) && AllIndices(list) && InPrintOrder(list)
    ensures AllIndices(InsertIndex(m, list)) && InPrintOrder(InsertIndex(m, list))
  {
    InsertIndexElements(m, list);
    forall x | x in InsertIndex(m, list) ensures IsIndex(x.key) { assert x in Elements(InsertIndex(m, list)); }
    if list == [] {
    } else if DigitsValue(m.key) < DigitsValue(list[0].key) {
      forall x | x in list ensures ComesFirst(m, x) {
        var i :| 0 <= i < |list| && list[i] == x;
        assert i > 0 ==> ComesFirst(list[0], list[i]);
      }
      PrintOrderCons(m, list);
    } else {
      InsertIndexOrder(m, list[1..]);
      InsertIndexElements(m, list[1..]);
      forall x | x in InsertIndex(m, list[1..]) ensures ComesFirst(list[0], x) {
        assert x in Elements(InsertIndex(m, list[1..]));
        if x != m {
          var i :| 0 <= i < |list[1..]| && list[1..][i] == x;
          assert ComesFirst(list[0], list[i + 1]);
        }
      }
      PrintOrderCons(list[0], InsertIndex(m, list[1..]));
    }
  }

  lemma {:induction false} IndexMembersOrder(list: seq<Member>)
    ensures AllIndices(IndexMembers(list)) && InPrintOrder(IndexMembers(list))
  {
    if list != [] {
      IndexMembersOrder(list[1..]);
      if IsIndex(list[0].key) { InsertIndexOrder(list[0], IndexMembers(list[1..])); }
    }
  }

  lemma {:induction false} NamedMembersOrder(list: seq<Member>)
    requires Increasing(list)
    ensures InPrintOrder(NamedMembers(list)) && forall x :: x in NamedMembers(list) ==> !IsIndex(x.key) && x in list
  {
    if list != [] {
      TailElements(list);
      NamedMembersOrder(list[1..]);
      if !IsIndex(list[0].key) {
        forall x | x in NamedMembers(list[1..]) ensures ComesFirst(list[0], x) {
          var i :| 0 <= i < |list[1..]| && list[1..][i] == x;
          assert list[i + 1] == x;
        }
        PrintOrderCons(list[0], NamedMembers(list[1..]));
      }
    }
  }

  /** The members of an object are printed with the indices first, by value, then the other keys by
      their code units, whatever the order they were created in. */
  lemma MembersInPrintOrder(list: seq<Member>)
    requires UniqueMembers(list)
    ensures InPrintOrder(Enumerated(Sorted(list))) && Elements(Enumerated(Sorted(list))) == Elements(list)
  {
    SortedIncreasing(list);
    EnumeratedElements(Sorted(list));
    IndexMembersOrder(Sorted(list));
    NamedMembersOrder(Sorted(list));
    var a, b := IndexMembers(Sorted(list)), NamedMembers(Sorted(list));
    forall i, j | 0 <= i < j < |a + b| ensures ComesFirst((a + b)[i], (a + b)[j]) {
      if i < |a| { assert a[i] in a; }
      if j >= |a| { assert b[j - |a|] in b; }
    }
  }
}
