/** Which logins are listed for a site, in what order, and with what. */
module SiteListFacts {
  import opened Common
  import opened Lexicographic
  import opened LockedIndex
  import LockedIndexFacts
  import opened Sublists

  // ---- what an item holds

  /** The object holds `x` under the key. */
  predicate Has(v: Value, k: Key, x: Value) {
    v.Object? && k in v.fields && v.fields[k] == x
  }

  predicate HasText(v: Value, k: Key, s: string) {
    s != "" && Has(v, k, Str(s))
  }

  ghost predicate HasSomeText(v: Value, k: Key) {
    exists s :: HasText(v, k, s)
  }

  /** The text under the key, if there is one. */
  ghost predicate ShowsText(v: Value, k: Key, shown: Option<string>) {
    if shown.Some? then HasText(v, k, shown.value) else !HasSomeText(v, k)
  }

  ghost predicate HasArray(v: Value, k: Key) {
    exists values :: Has(v, k, Array(values))
  }

  function Text(v: Value): Option<string> {
    if v.Str? && v.s != "" then Some(v.s) else None
  }

  /** The texts of the item's list of websites, in order. */
  ghost predicate ShowsSites(item: Value, sites: seq<string>) {
    if HasArray(item, Websites)
    then exists values, at :: Has(item, Websites, Array(values)) && Picks(values, Text, sites, at)
    else sites == []
  }

  predicate NamesSite(item: Value, site: string) {
    site != "" && item.Object? && Websites in item.fields && item.fields[Websites].Array? && Str(site) in item.fields[Websites].items
  }

  /** What the listed value shows of the item. */
  ghost predicate Shows(item: Value, m: SiteMatch) {
    && HasText(item, ItemId, m.itemId)
    && (if HasSomeText(item, ItemName) then HasText(item, ItemName, m.itemName) else m.itemName == "Untitled")
    && ShowsText(item, Username, m.username) && ShowsText(item, SsoProvider, m.ssoProvider) && ShowsText(item, LastUsedAt, m.lastUsedAt)
    && ShowsSites(item, m.websites)
    && m.hasPassword == (Has(item, HasPassword, Bool(true)) || HasSomeText(item, Password))
    && m.hasOtp == (Has(item, HasOtp, Bool(true)) || exists x :: Has(item, Otp, x))
    && m.hasPasskey == (Has(item, HasPasskey, Bool(true)) || exists values :: values != [] && Has(item, Passkeys, Array(values)))
  }

  // ---- which items are listed, and how they rank

  ghost predicate Fits(item: Value, url: string, score: HostScore) {
    exists site :: NamesSite(item, site) && score(site, url).Some?
  }

  ghost predicate Listed(item: Value, url: string, score: HostScore) {
    HasSomeText(item, ItemId) && Fits(item, url, score)
  }

  /** The best score of a website of the item. */
  ghost predicate BestFit(item: Value, url: string, score: HostScore, best: int) {
    && (exists site :: NamesSite(item, site) && score(site, url) == Some(best))
    && (forall site :: NamesSite(item, site) && score(site, url).Some? ==> score(site, url).value <= best)
  }

  predicate LowerOf(s: string, lower: string) {
    |lower| == |s| && forall i :: 0 <= i < |s| ==> lower[i] == if 'A' <= s[i] <= 'Z' then s[i] + (32 as char) else s[i]
  }

  /** The name an item is sorted by. */
  ghost predicate SortName(item: Value, name: string) {
    if HasSomeText(item, ItemName) then exists s :: HasText(item, ItemName, s) && LowerOf(s, name) else name == ""
  }

  ghost predicate Ranked(item: Value, url: string, score: HostScore, best: int, name: string) {
    BestFit(item, url, score, best) && SortName(item, name)
  }

  /** Names compare by their first difference; a shorter name comes before its continuations. */
  ghost predicate NameBefore(a: string, b: string) {
    exists k: nat :: k <= |a| && k < |b| && a[..k] == b[..k] && (k == |a| || a[k] < b[k])
  }

  /** A better fit, or an equal one with an earlier name. */
  ghost predicate RanksBefore(x: Value, y: Value, url: string, score: HostScore) {
    exists best, name, best', name' ::
      Ranked(x, url, score, best, name) && Ranked(y, url, score, best', name') && (best > best' || (best == best' && NameBefore(name, name')))
  }

  ghost predicate RanksAlike(x: Value, y: Value, url: string, score: HostScore) {
    exists best, name :: Ranked(x, url, score, best, name) && Ranked(y, url, score, best, name)
  }

  // ---- one item

  lemma StringFieldShows(item: Value, k: Key)
    ensures ShowsText(item, k, StringField(item, k))
    ensures StringField(item, k).Some? <==> HasSomeText(item, k)
  {
    var s := StringField(item, k);
    if s.Some? { assert HasText(item, k, s.value); }
  }

  lemma {:induction false} TextsPicked(values: seq<Value>) returns (at: seq<nat>)
    ensures Picks(values, Text, NonEmptyStrings(values), at)
  {
    at := [];
    if values != [] {
      at := TextsPicked(values[1..]);
      at := PicksFirst(values, Text, NonEmptyStrings(values[1..]), at);
    }
  }

  lemma SitesAreShown(item: Value)
    ensures ShowsSites(item, ArrayStrings(item, Websites))
    ensures forall site :: site in ArrayStrings(item, Websites) <==> NamesSite(item, site)
  {
    var values := AsArray(Field(item, Websites));
    var at := TextsPicked(values);
    assert HasArray(item, Websites) ==> Has(item, Websites, Array(values));
    forall site ensures site in ArrayStrings(item, Websites) <==> NamesSite(item, site) {
      PicksIn(values, Text, NonEmptyStrings(values), at, site);
      if NamesSite(item, site) { assert Text(Str(site)) == Some(site); }
      if x :| x in values && Text(x) == Some(site) { assert x == Str(site); }
    }
  }

  lemma {:induction false} BestIsBest(sites: seq<string>, url: string, score: HostScore)
    ensures var best := Best(sites, url, score);
      && (best.Some? <==> exists site :: site in sites && score(site, url).Some?)
      && (best.Some? ==> exists site :: site in sites && score(site, url) == best)
      && (best.Some? ==> forall site :: site in sites && score(site, url).Some? ==> score(site, url).value <= best.value)
  {
    if sites != [] {
      BestIsBest(sites[1..], url, score);
      assert sites[0] in sites && forall site :: site in sites <==> site == sites[0] || site in sites[1..];
    }
  }

  lemma FitIsBest(item: Value, url: string, score: HostScore)
    ensures var fit := ItemSiteScore(item, url, score);
      (fit.Some? <==> Fits(item, url, score)) && (fit.Some? ==> BestFit(item, url, score, fit.value))
  {
    SitesAreShown(item);
    BestIsBest(ArrayStrings(item, Websites), url, score);
  }

  lemma ValueShows(item: Value)
    ensures var value := SiteMatchValue(item);
      (value.Some? <==> HasSomeText(item, ItemId)) && (value.Some? ==> Shows(item, value.value))
  {
    StringFieldShows(item, ItemId);
    StringFieldShows(item, ItemName);
    StringFieldShows(item, Username);
    StringFieldShows(item, SsoProvider);
    StringFieldShows(item, LastUsedAt);
    StringFieldShows(item, Password);
    SitesAreShown(item);
    var passkeys := AsArray(Field(item, Passkeys));
    assert passkeys != [] ==> Has(item, Passkeys, Array(passkeys));
    assert Field(item, Otp).Some? ==> Has(item, Otp, Field(item, Otp).value);
  }

  lemma NameIsSortName(item: Value)
    ensures SortName(item, Lower(StringField(item, ItemName).GetOr("")))
  {
    StringFieldShows(item, ItemName);
    var s := StringField(item, ItemName).GetOr("");
    assert LowerOf(s, Lower(s));
  }

  lemma CandidateIsRanked(item: Value, url: string, score: HostScore)
    ensures var c := CandidateOf(item, url, score);
      && (c.Some? <==> Listed(item, url, score))
      && (c.Some? ==> Shows(item, c.value.value) && Ranked(item, url, score, c.value.score, c.value.name))
  {
    FitIsBest(item, url, score);
    ValueShows(item);
    NameIsSortName(item);
  }

  // ---- the stable sort

  lemma NameTotal(a: string, b: string)
    ensures a == b || LexLess(Codes(a), Codes(b)) || LexLess(Codes(b), Codes(a))
    ensures !(LexLess(Codes(a), Codes(b)) && LexLess(Codes(b), Codes(a))) && !LexLess(Codes(a), Codes(a))
  {
    LexTotal(Codes(a), Codes(b));
    LexTotal(Codes(a), Codes(a));
    if Codes(a) == Codes(b) {
      forall i | 0 <= i < |a| ensures a[i] == b[i] { assert Codes(a)[i] == Codes(b)[i]; }
    }
  }

  lemma NameOrder(a: string, b: string)
    ensures LexLess(Codes(a), Codes(b)) ==> NameBefore(a, b)
  {
    LexLessExactlyWhen(Codes(a), Codes(b));
    if k: nat :| SmallerAt(Codes(a), Codes(b), k) {
      forall i | 0 <= i < k ensures a[..k][i] == b[..k][i] {
        assert Codes(a)[..k][i] == Codes(b)[..k][i];
      }
      assert a[..k] == b[..k];
    }
  }

  predicate Ties(a: Candidate, b: Candidate) {
    a.score == b.score && a.name == b.name
  }

  lemma BeforeTotal(a: Candidate, b: Candidate)
    ensures Before(a, b) || Before(b, a) || Ties(a, b)
    ensures !(Before(a, b) && Before(b, a)) && (Ties(a, b) ==> !Before(a, b))
  {
    NameTotal(a.name, b.name);
  }

  lemma BeforeTransitive(a: Candidate, b: Candidate, c: Candidate)
    requires Before(a, b) && !Before(c, b)
    ensures Before(a, c)
  {
    NameTotal(a.name, b.name);
    NameTotal(b.name, c.name);
    NameTotal(a.name, c.name);
    if a.score == b.score == c.score && LexLess(Codes(a.name), Codes(b.name)) && LexLess(Codes(b.name), Codes(c.name)) {
      LexTransitive(Codes(a.name), Codes(b.name), Codes(c.name));
    }
  }

  predicate Ordered(list: seq<Candidate>) {
    forall i, j :: 0 <= i < j < |list| ==> !Before(list[j], list[i])
  }

  /** Inserting puts the candidate behind all that it does not come before. */
  lemma {:induction false} InsertPlace(sorted: seq<Candidate>, c: Candidate) returns (q: nat)
    requires Ordered(sorted)
    ensures q <= |sorted| && InsertInto(sorted, c) == sorted[..q] + [c] + sorted[q..]
    ensures (forall i :: 0 <= i < q ==> !Before(c, sorted[i])) && (forall i :: q <= i < |sorted| ==> Before(c, sorted[i]))
  {
    q := |sorted|;
    if sorted != [] {
      var init, last := sorted[..|sorted| - 1], sorted[|sorted| - 1];
      if Before(c, last) {
        q := InsertPlace(init, c);
        assert InsertInto(sorted, c) == init[..q] + [c] + init[q..] + [last];
        assert init[q..] + [last] == sorted[q..] && init[..q] == sorted[..q];
        forall i | q <= i < |sorted| ensures Before(c, sorted[i]) { if i < |init| { assert init[i] == sorted[i]; } }
      } else {
        forall i | 0 <= i < q ensures !Before(c, sorted[i]) {
          if Before(c, sorted[i]) && i < q - 1 { BeforeTransitive(c, sorted[i], last); }
        }
        assert sorted[..q] + [c] + sorted[q..] == sorted + [c];
      }
    }
  }

  /** `p` tells for each entry of `sorted` which entry of `list` it is; entries that tie keep their order. */
  predicate StablySorted(list: seq<Candidate>, sorted: seq<Candidate>, p: seq<nat>) {
    && |p| == |list| == |sorted| && Distinct(p) && (forall i: nat :: i < |list| ==> i in p)
    && (forall j :: 0 <= j < |p| ==> p[j] < |list| && sorted[j] == list[p[j]])
    && (forall i, j :: 0 <= i < j < |p| ==> Before(sorted[i], sorted[j]) || (Ties(sorted[i], sorted[j]) && p[i] < p[j]))
  }

  /** The list is a permutation of the candidates, ordered by score and name, and keeps candidates
      that tie in vault order. */
  lemma {:induction false} SortIsStable(list: seq<Candidate>) returns (p: seq<nat>)
    ensures StablySorted(list, SortedBy(list), p)
  {
    p := [];
    if list != [] {
      var n: nat := |list| - 1;
      p := SortIsStable(list[..n]);
      var sorted := SortedBy(list[..n]);
      forall i, j | 0 <= i < j < |sorted| ensures !Before(sorted[j], sorted[i]) { BeforeTotal(sorted[i], sorted[j]); }
      var q := InsertPlace(sorted, list[n]);
      p := InsertSorted(list, sorted, p, q);
    }
  }

  lemma InsertSorted(list: seq<Candidate>, sorted: seq<Candidate>, p: seq<nat>, q: nat) returns (p': seq<nat>)
    requires list != [] && q <= |sorted| && StablySorted(list[..|list| - 1], sorted, p)
    requires forall i :: 0 <= i < q ==> !Before(list[|list| - 1], sorted[i])
    requires forall i :: q <= i < |sorted| ==> Before(list[|list| - 1], sorted[i])
    ensures StablySorted(list, sorted[..q] + [list[|list| - 1]] + sorted[q..], p')
  {
    var n: nat, c := |list| - 1, list[|list| - 1];
    p' := p[..q] + [n] + p[q..];
    var all := sorted[..q] + [c] + sorted[q..];
    InsertNumber(p, n, q);
    forall j | 0 <= j < |p'| ensures p'[j] < |list| && all[j] == list[p'[j]] {
      if j != q {
        var i := if j < q then j else j - 1;
        assert p'[j] == p[i] && all[j] == sorted[i] && list[..n][p[i]] == list[p[i]];
      }
    }
    forall i, j | 0 <= i < j < |p'| ensures Before(all[i], all[j]) || (Ties(all[i], all[j]) && p'[i] < p'[j]) {
      InsertedOrder(list, sorted, p, q, i, j);
    }
  }

  lemma InsertedOrder(list: seq<Candidate>, sorted: seq<Candidate>, p: seq<nat>, q: nat, i: nat, j: nat)
    requires list != [] && q <= |sorted| && StablySorted(list[..|list| - 1], sorted, p) && i < j <= |p|
    requires forall i :: 0 <= i < q ==> !Before(list[|list| - 1], sorted[i])
    requires forall i :: q <= i < |sorted| ==> Before(list[|list| - 1], sorted[i])
    ensures var all, p' := sorted[..q] + [list[|list| - 1]] + sorted[q..], p[..q] + [|list| - 1] + p[q..];
      Before(all[i], all[j]) || (Ties(all[i], all[j]) && p'[i] < p'[j])
  {
    if j == q { BeforeTotal(sorted[i], list[|list| - 1]); }
  }

  /** The next number, put in anywhere. */
  lemma InsertNumber(p: seq<nat>, n: nat, q: nat)
    requires |p| == n && q <= n && Distinct(p) && (forall i: nat :: i < n ==> i in p) && forall j :: 0 <= j < n ==> p[j] < n
    ensures Distinct(p[..q] + [n] + p[q..]) && forall i: nat :: i < n + 1 ==> i in p[..q] + [n] + p[q..]
  {
    var p' := p[..q] + [n] + p[q..];
    forall i: nat | i < n + 1 ensures i in p' {
      if i == n { assert p'[q] == n; } else {
        assert i in p;
        var j :| 0 <= j < |p| && p[j] == i;
        assert p'[if j < q then j else j + 1] == i;
      }
    }
  }

  // ---- the list

  /** The state's items. */
  ghost predicate VaultItems(state: Option<Value>, items: seq<Value>) {
    if state.Some? && HasArray(state.value, Items) then Has(state.value, Items, Array(items)) else items == []
  }

  lemma {:induction false} CandidatesPicked(items: seq<Value>, url: string, score: HostScore) returns (at: seq<nat>)
    ensures Picks(items, item => CandidateOf(item, url, score), Candidates(items, url, score), at)
  {
    at := [];
    if items != [] {
      at := CandidatesPicked(items[1..], url, score);
      at := PicksFirst(items, item => CandidateOf(item, url, score), Candidates(items[1..], url, score), at);
    }
  }

  lemma CandidatesRank(a: Candidate, b: Candidate, x: Value, y: Value, url: string, score: HostScore)
    requires Ranked(x, url, score, a.score, a.name) && Ranked(y, url, score, b.score, b.name)
    ensures Before(a, b) ==> RanksBefore(x, y, url, score)
    ensures Ties(a, b) ==> RanksAlike(x, y, url, score)
  {
    NameOrder(a.name, b.name);
  }

  /** The entry at each place shows the item with the number in `order`. */
  ghost predicate ShowsInOrder(list: seq<SiteMatch>, items: seq<Value>, order: seq<nat>) {
    |order| == |list| && Distinct(order) && forall j :: 0 <= j < |list| ==> order[j] < |items| && Shows(items[order[j]], list[j])
  }

  ghost predicate RankedInOrder(items: seq<Value>, order: seq<nat>, url: string, score: HostScore)
    requires forall j :: 0 <= j < |order| ==> order[j] < |items|
  {
    forall j, k :: 0 <= j < k < |order| ==>
      RanksBefore(items[order[j]], items[order[k]], url, score)
      || (RanksAlike(items[order[j]], items[order[k]], url, score) && order[j] < order[k])
  }

  /** The sorted candidates are those of the items with the numbers in `order`. */
  predicate Entries(items: seq<Value>, url: string, score: HostScore, sorted: seq<Candidate>, order: seq<nat>) {
    |order| == |sorted| && forall j :: 0 <= j < |order| ==> order[j] < |items| && CandidateOf(items[order[j]], url, score) == Some(sorted[j])
  }

  lemma ComposedEntries(items: seq<Value>, url: string, score: HostScore, list: seq<Candidate>, sorted: seq<Candidate>, at: seq<nat>, p: seq<nat>)
    requires Picks(items, item => CandidateOf(item, url, score), list, at) && StablySorted(list, sorted, p)
    ensures Entries(items, url, score, sorted, Composed(at, p))
    ensures var order := Composed(at, p);
      Distinct(order) && forall j, k :: 0 <= j < |p| && 0 <= k < |p| && p[j] < p[k] ==> order[j] < order[k]
    ensures forall i: nat :: i < |items| ==> (i in Composed(at, p) <==> CandidateOf(items[i], url, score).Some?)
  {
    InComposed(at, p);
    forall j | 0 <= j < |p| ensures at[p[j]] < |items| && CandidateOf(items[at[p[j]]], url, score) == Some(sorted[j]) {
      assert list[p[j]] == sorted[j];
    }
  }

  lemma SortedEntries(items: seq<Value>, url: string, score: HostScore) returns (p: seq<nat>, order: seq<nat>)
    ensures StablySorted(Candidates(items, url, score), SortedBy(Candidates(items, url, score)), p)
    ensures Entries(items, url, score, SortedBy(Candidates(items, url, score)), order)
    ensures |order| == |p| && Distinct(order) && forall j, k :: 0 <= j < |p| && 0 <= k < |p| && p[j] < p[k] ==> order[j] < order[k]
    ensures forall i: nat :: i < |items| ==> (i in order <==> CandidateOf(items[i], url, score).Some?)
  {
    var at := CandidatesPicked(items, url, score);
    p := SortIsStable(Candidates(items, url, score));
    order := Composed(at, p);
    ComposedEntries(items, url, score, Candidates(items, url, score), SortedBy(Candidates(items, url, score)), at, p);
  }

  lemma EntriesShow(items: seq<Value>, url: string, score: HostScore, sorted: seq<Candidate>, order: seq<nat>)
    requires Entries(items, url, score, sorted, order) && Distinct(order)
    ensures ShowsInOrder(MatchesOf(sorted), items, order)
  {
    forall j | 0 <= j < |order| ensures Shows(items[order[j]], sorted[j].value) {
      CandidateIsRanked(items[order[j]], url, score);
    }
  }

  lemma EntryRanks(items: seq<Value>, url: string, score: HostScore, sorted: seq<Candidate>, order: seq<nat>, j: nat, k: nat)
    requires Entries(items, url, score, sorted, order) && j < |order| && k < |order|
    ensures Before(sorted[j], sorted[k]) ==> RanksBefore(items[order[j]], items[order[k]], url, score)
    ensures Ties(sorted[j], sorted[k]) ==> RanksAlike(items[order[j]], items[order[k]], url, score)
  {
    CandidateIsRanked(items[order[j]], url, score);
    CandidateIsRanked(items[order[k]], url, score);
    CandidatesRank(sorted[j], sorted[k], items[order[j]], items[order[k]], url, score);
  }

  /** An item is listed if and only if it has an identifier and some website of it fits, once, with
      its own name, user name, websites, provider, last use and flags. The list is ordered by the
      best fit of the items' websites, then by name; what ranks alike stays in vault order. */
  lemma ListShowsWhatFits(state: Option<Value>, items: seq<Value>, url: string, score: HostScore) returns (order: seq<nat>)
    requires VaultItems(state, items)
    ensures ShowsInOrder(ListSiteMatches(state, url, score), items, order)
    ensures forall i: nat :: i < |items| ==> (i in order <==> Listed(items[i], url, score))
    ensures RankedInOrder(items, order, url, score)
  {
    var p;
    p, order := SortedEntries(items, url, score);
    var sorted := SortedBy(Candidates(items, url, score));
    assert ShowsInOrder(ListSiteMatches(state, url, score), items, order) by {
      assert ItemsOf(state) == items;
      EntriesShow(items, url, score, sorted, order);
    }
    forall i: nat | i < |items| ensures i in order <==> Listed(items[i], url, score) {
      CandidateIsRanked(items[i], url, score);
    }
    forall j, k | 0 <= j < k < |order|
      ensures RanksBefore(items[order[j]], items[order[k]], url, score)
           || (RanksAlike(items[order[j]], items[order[k]], url, score) && order[j] < order[k])
    {
      EntryRanks(items, url, score, sorted, order, j, k);
    }
  }

  function Composed(at: seq<nat>, p: seq<nat>): (order: seq<nat>)
    requires forall j :: 0 <= j < |p| ==> p[j] < |at|
    ensures |order| == |p| && forall j :: 0 <= j < |p| ==> order[j] == at[p[j]]
  {
    seq(|p|, j requires 0 <= j < |p| => at[p[j]])
  }

  /** A permutation of increasing places names each of them once. */
  lemma InComposed(at: seq<nat>, p: seq<nat>)
    requires Increasing(at) && Distinct(p) && (forall j :: 0 <= j < |p| ==> p[j] < |at|) && forall i: nat :: i < |at| ==> i in p
    ensures Distinct(Composed(at, p))
    ensures forall i :: i in Composed(at, p) <==> i in at
  {
    forall i | i in at ensures i in Composed(at, p) {
      var j: nat :| j < |at| && at[j] == i;
      assert j in p;
      var k :| 0 <= k < |p| && p[k] == j;
      assert Composed(at, p)[k] == i;
    }
  }

  // ---- what the index of a locked vault keeps of an item

  /** `t` is `s` without the white space around it. */
  ghost predicate Trims(s: string, t: string) {
    exists a, b :: s == a + t + b && AllWhite(a) && AllWhite(b) && Trimmed(t)
  }

  predicate AllWhite(s: string) {
    forall i :: 0 <= i < |s| ==> IsWhitespace(s[i])
  }

  lemma {:induction false} TrimIs(s: string, t: string, a: string, b: string)
    requires s == a + t + b && AllWhite(a) && AllWhite(b) && Trimmed(t)
    ensures RustTrim(s) == t
    decreases |a| + |b|
  {
    if a != "" {
      assert s[1..] == a[1..] + t + b && s[0] == a[0];
      TrimIs(s[1..], t, a[1..], b);
    } else if t == "" && b != "" {
      assert s == b && s[1..] == "" + t + b[1..];
      TrimIs(s[1..], t, "", b[1..]);
    } else if b != "" {
      assert s[0] == t[0] && s[|s| - 1] == b[|b| - 1] && s[..|s| - 1] == "" + t + b[..|b| - 1];
      TrimIs(s[..|s| - 1], t, "", b[..|b| - 1]);
    } else {
      assert s == t;
      RustTrimTrims(s);
    }
  }

  lemma {:induction false} TrimSplits(s: string) returns (a: string, b: string)
    ensures s == a + RustTrim(s) + b && AllWhite(a) && AllWhite(b)
  {
    a, b := "", "";
    if s != "" && IsWhitespace(s[0]) {
      a, b := TrimSplits(s[1..]);
      a := [s[0]] + a;
    } else if s != "" && IsWhitespace(s[|s| - 1]) {
      a, b := TrimSplits(s[..|s| - 1]);
      b := b + [s[|s| - 1]];
    }
  }

  lemma TrimmedExactlyWhen(s: string, t: string)
    ensures RustTrim(s) == t <==> Trims(s, t)
  {
    var a, b := TrimSplits(s);
    RustTrimTrims(s);
    if Trims(s, t) {
      var a, b :| s == a + t + b && AllWhite(a) && AllWhite(b) && Trimmed(t);
      TrimIs(s, t, a, b);
    }
  }

  /** The item's text under the key, trimmed, is `t`: not empty and of at most `max` bytes. */
  ghost predicate Keeps(item: Value, k: Key, max: nat, t: string) {
    t != "" && ByteLength(t) <= max && exists s :: Has(item, k, Str(s)) && Trims(s, t)
  }

  lemma BoundedKeeps(item: Value, k: Key, max: nat, t: string)
    ensures BoundedString(item, k, max) == Some(t) <==> Keeps(item, k, max, t)
  {
    var s := AsStr(Field(item, k));
    if s.Some? {
      TrimmedExactlyWhen(s.value, t);
      assert Has(item, k, Str(s.value));
    }
  }

  /** The first `count` of a list, or all of it. */
  predicate FirstOf<T(==)>(all: seq<T>, count: nat, first: seq<T>) {
    first <= all && |first| == if |all| < count then |all| else count
  }

  /** A website as the index keeps it. */
  function Site(v: Value): Option<string> {
    if v.Str? && RustTrim(v.s) != "" && ByteLength(RustTrim(v.s)) <= 4096 then Some(RustTrim(v.s)) else None
  }

  lemma {:induction false} SitesPicked(values: seq<Value>) returns (at: seq<nat>)
    ensures Picks(values, Site, BoundedStrings(values, WEBSITE_MAX), at)
  {
    at := [];
    if values != [] {
      at := SitesPicked(values[1..]);
      at := PicksFirst(values, Site, BoundedStrings(values[1..], WEBSITE_MAX), at);
    }
  }

  /** The entry's websites: the first 32 of those the item lists, or no list if there are none. */
  ghost predicate KeepsSites(item: Value, entry: Value) {
    exists values, kept, at, sites :: ListedSites(item, values) && Picks(values, Site, kept, at) && FirstOf(kept, 32, sites) && ShownAs(entry, sites)
  }

  ghost predicate ListedSites(item: Value, values: seq<Value>) {
    if HasArray(item, Websites) then Has(item, Websites, Array(values)) else values == []
  }

  predicate ShownAs(entry: Value, sites: seq<string>) {
    if sites == [] then !HasKey(entry, Websites) else Has(entry, Websites, Array(Strs(sites)))
  }

  predicate HasKey(v: Value, k: Key) {
    v.Object? && k in v.fields
  }

  lemma EntryKeepsSites(item: Value)
    requires LoginIndexEntry(item).Some?
    ensures KeepsSites(item, LoginIndexEntry(item).value)
  {
    var values := AsArray(Field(item, Websites));
    var at := SitesPicked(values);
    var kept := BoundedStrings(values, WEBSITE_MAX);
    assert ListedSites(item, values) by { assert HasArray(item, Websites) ==> Has(item, Websites, Array(values)); }
    assert ShownAs(LoginIndexEntry(item).value, Take(kept, 32)) by { LockedIndexFacts.EntryHolds(item, Websites); }
    assert FirstOf(kept, 32, Take(kept, 32));
  }

  lemma TextIsKept(item: Value, k: Key, max: nat, t: string)
    requires LoginIndexEntry(item).Some? && EntryField(item, k) == StrOf(BoundedString(item, k, max)) && k in ENTRY_KEYS
    ensures Has(LoginIndexEntry(item).value, k, Str(t)) <==> Keeps(item, k, max, t)
  {
    LockedIndexFacts.EntryHolds(item, k);
    BoundedKeeps(item, k, max, t);
  }

  /** The flags tell whether there is a password within bounds, a one-time code and a passkey. */
  lemma EntryKeepsFlags(item: Value, x: Value)
    requires LoginIndexEntry(item).Some?
    ensures var e := LoginIndexEntry(item).value;
      && (Has(e, HasPassword, x) <==> x == Bool(exists t :: Keeps(item, Password, 100_000, t)))
      && (Has(e, HasOtp, x) <==> x == Bool(HasKey(item, Otp)))
      && (Has(e, HasPasskey, x) <==> x == Bool(exists values :: values != [] && Has(item, Passkeys, Array(values))))
  {
    LockedIndexFacts.EntryHolds(item, HasPassword);
    LockedIndexFacts.EntryHolds(item, HasOtp);
    LockedIndexFacts.EntryHolds(item, HasPasskey);
    var password := BoundedString(item, Password, PASSWORD_MAX);
    forall t ensures password == Some(t) <==> Keeps(item, Password, 100_000, t) { BoundedKeeps(item, Password, PASSWORD_MAX, t); }
    assert password.Some? ==> Keeps(item, Password, 100_000, password.value);
    var passkeys := AsArray(Field(item, Passkeys));
    assert passkeys != [] ==> Has(item, Passkeys, Array(passkeys));
  }

  /** An item gets an entry if and only if its type, if it has one, is that of logins, and its
      identifier is usable. The entry then holds exactly its texts, trimmed and within bounds. */
  lemma IndexedExactlyWhen(item: Value)
    ensures LoginIndexEntry(item).Some?
       <==> (forall kind :: Has(item, ItemType, Str(kind)) ==> kind == "login") && exists id :: Keeps(item, ItemId, 256, id)
  {
    var id := BoundedString(item, ItemId, ID_MAX);
    forall t ensures id == Some(t) <==> Keeps(item, ItemId, 256, t) { BoundedKeeps(item, ItemId, ID_MAX, t); }
    assert id.Some? ==> Keeps(item, ItemId, 256, id.value);
    var kind := AsStr(Field(item, ItemType));
    assert kind.Some? ==> Has(item, ItemType, Str(kind.value));
  }

  lemma EntryKeepsTexts(item: Value, t: string)
    requires LoginIndexEntry(item).Some?
    ensures var e := LoginIndexEntry(item).value;
      && (Has(e, ItemId, Str(t)) <==> Keeps(item, ItemId, 256, t))
      && (Has(e, ItemName, Str(t)) <==> Keeps(item, ItemName, 256, t))
      && (Has(e, Username, Str(t)) <==> Keeps(item, Username, 320, t))
      && (Has(e, SsoProvider, Str(t)) <==> Keeps(item, SsoProvider, 64, t))
      && (Has(e, LastUsedAt, Str(t)) <==> Keeps(item, LastUsedAt, 64, t))
      && (Has(e, ItemType, Str(t)) <==> t == "login")
      && forall k :: HasKey(e, k) ==> k in {ItemId, ItemType, ItemName, Username, SsoProvider, LastUsedAt, Websites, HasPassword, HasOtp, HasPasskey}
  {
    TextIsKept(item, ItemId, 256, t);
    TextIsKept(item, ItemName, 256, t);
    TextIsKept(item, Username, 320, t);
    TextIsKept(item, SsoProvider, 64, t);
    TextIsKept(item, LastUsedAt, 64, t);
    LockedIndexFacts.EntryHolds(item, ItemType);
  }
}
