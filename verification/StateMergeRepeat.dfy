/** Merging again, and merging passkey records. */
module StateMergeRepeat {
  import opened Common
  import opened Arithmetic
  import opened OrderedMap
  import opened StateMerge
  import opened Sublists
  import opened StateMergeFacts

  // ---- merging the result with the same file again

  /** Laying the local list never removes or reorders what was kept, and never makes it older. */
  ghost predicate Extends(kept: ItemMap, m: ItemMap) {
    && |kept| <= |m|
    && forall i :: 0 <= i < |kept| ==> m[i].key == kept[i].key && m[i].value.updatedAt >= kept[i].value.updatedAt
  }

  lemma {:induction false} PutAt(m: ItemMap, i: nat, x: Item)
    requires Keyed(m) && i < |m|
    ensures Put(m, m[i].key, x) == m[i := Entry(m[i].key, x)]
  {
    if i > 0 {
      assert m[0].key != m[i].key;
      PutAt(m[1..], i - 1, x);
      assert m[i := Entry(m[i].key, x)] == [m[0]] + m[1..][i - 1 := Entry(m[i].key, x)];
    } else {
      assert m[0 := Entry(m[0].key, x)] == [Entry(m[0].key, x)] + m[1..];
    }
  }

  lemma {:induction false} DropAfter(m: ItemMap, n: nat, id: string)
    requires n <= |m| && forall i :: 0 <= i < n ==> m[i].key != id
    ensures n <= |Drop(m, id)| && Drop(m, id)[..n] == m[..n]
  {
    if n > 0 {
      DropAfter(m[1..], n - 1, id);
      assert Drop(m, id) == [m[0]] + Drop(m[1..], id);
      assert Drop(m, id)[..n] == [m[0]] + Drop(m[1..], id)[..n - 1];
      assert m[..n] == [m[0]] + m[1..][..n - 1];
    }
  }

  /** A covered local copy faces a copy that was kept from the file. */
  predicate Clashes(kept: ItemMap, y: Item, d: Deletions) {
    Gone(y, d) && Get(kept, y.id).Some?
  }

  lemma LayOneExtends(kept: ItemMap, m: ItemMap, x: Item, d: Deletions)
    requires OwnKeys(kept) && OwnKeys(m) && Uncovered(m, d) && Extends(kept, m) && !Clashes(kept, x, d)
    ensures Extends(kept, LayOne(m, x, d))
  {
    if Gone(x, d) {
      GetMissing(kept, x.id);
      DropAfter(m, |kept|, x.id);
      assert forall i :: 0 <= i < |kept| ==> Drop(m, x.id)[i] == Drop(m, x.id)[..|kept|][i] == m[..|kept|][i] == m[i];
    } else if Get(m, x.id).None? {
      PutNew(m, x.id, x);
    } else {
      var i := GetFound(m, x.id);
      PutAt(m, i, x);
    }
  }

  lemma {:induction false} LayLocalExtends(kept: ItemMap, local: seq<Item>, d: Deletions)
    requires OwnKeys(kept) && Uncovered(kept, d) && forall y :: y in local ==> !Clashes(kept, y, d)
    ensures Extends(kept, LayLocal(kept, local, d))
  {
    if local != [] {
      var n := |local| - 1;
      assert local[n] in local;
      forall y | y in local[..n] ensures !Clashes(kept, y, d) { assert y in local; }
      LayLocalExtends(kept, local[..n], d);
      LayLocalGet(kept, local[..n], d, "");
      LayOneExtends(kept, LayLocal(kept, local[..n], d), local[n], d);
    }
  }

  /** The first `i` entries of the merged list, then what was kept behind them. */
  function Relaid(kept: ItemMap, m: ItemMap, i: nat): ItemMap
    requires i <= |m|
  {
    if i <= |kept| then m[..i] + kept[i..] else m[..i]
  }

  lemma LayLocalStep(kept: ItemMap, list: seq<Item>, d: Deletions, i: nat)
    requires i < |list|
    ensures LayLocal(kept, list[..i + 1], d) == LayOne(LayLocal(kept, list[..i], d), list[i], d)
  {
    assert list[..i + 1][..i] == list[..i];
  }

  lemma RelayStart(kept: ItemMap, m: ItemMap, d: Deletions)
    ensures LayLocal(kept, Values(m)[..0], d) == Relaid(kept, m, 0)
  {
    assert m[..0] + kept[0..] == kept;
  }

  /** Laying the merged list over what was kept rebuilds the merged list. */
  lemma {:induction false} Relay(kept: ItemMap, m: ItemMap, d: Deletions, j: nat)
    requires OwnKeys(kept) && OwnKeys(m) && Uncovered(m, d) && Extends(kept, m) && j <= |m|
    ensures LayLocal(kept, Values(m)[..j], d) == Relaid(kept, m, j)
  {
    if j == 0 {
      RelayStart(kept, m, d);
    } else {
      var i := j - 1;
      Relay(kept, m, d, i);
      RelayOne(kept, m, d, i);
      assert LayLocal(kept, Values(m)[..i + 1], d) == Relaid(kept, m, i + 1) by { LayLocalStep(kept, Values(m), d, i); }
    }
  }

  lemma RelayOne(kept: ItemMap, m: ItemMap, d: Deletions, i: nat)
    requires OwnKeys(kept) && OwnKeys(m) && Uncovered(m, d) && Extends(kept, m) && i < |m|
    ensures LayOne(Relaid(kept, m, i), m[i].value, d) == Relaid(kept, m, i + 1)
  {
    assert m[i] in m;
    if i < |kept| { RelayOver(kept, m, i); } else { RelayBehind(kept, m, i); }
  }

  lemma RelayOver(kept: ItemMap, m: ItemMap, i: nat)
    requires OwnKeys(kept) && OwnKeys(m) && Extends(kept, m) && i < |kept|
    ensures Get(Relaid(kept, m, i), m[i].key) == Some(kept[i].value)
    ensures Put(Relaid(kept, m, i), m[i].key, m[i].value) == Relaid(kept, m, i + 1)
  {
    var before := Relaid(kept, m, i);
    forall a | 0 <= a < |kept| ensures before[a].key == kept[a].key {}
    GetAt(before, i);
    PutAt(before, i, m[i].value);
    assert before[i := m[i]] == m[..i + 1] + kept[i + 1..];
  }

  lemma RelayBehind(kept: ItemMap, m: ItemMap, i: nat)
    requires OwnKeys(kept) && OwnKeys(m) && Extends(kept, m) && |kept| <= i < |m|
    ensures Get(Relaid(kept, m, i), m[i].key).None?
    ensures Put(Relaid(kept, m, i), m[i].key, m[i].value) == Relaid(kept, m, i + 1)
  {
    var before := m[..i];
    assert Relaid(kept, m, i) == before;
    GetMissing(before, m[i].key);
    PutNew(before, m[i].key, m[i].value);
    assert before + [m[i]] == m[..i + 1];
  }

  /** No local copy is covered while the file holds a copy of the same identifier that is not. */
  predicate NoClash(native: seq<Option<Item>>, local: seq<Item>, d: Deletions) {
    forall y :: y in local ==> !Clashes(KeepNative(native, d), y, d)
  }

  /** Merging the result with the same file again changes nothing if there is no such clash. */
  lemma RemergeIsFixed(native: seq<Option<Item>>, local: seq<Item>, d: Deletions)
    requires NoClash(native, local, d)
    ensures MergedItems(Some(native), MergedItems(Some(native), local, d), d) == MergedItems(Some(native), local, d)
  {
    var kept := KeepNative(native, d);
    var m := LayLocal(kept, local, d);
    KeepNativeGet(native, d, "");
    LayLocalGet(kept, local, d, "");
    LayLocalExtends(kept, local, d);
    Relay(kept, m, d, |m|);
    assert Values(m)[..|m|] == Values(m) && m[..|m|] == m;
    assert |m| == |kept| ==> m[..|m|] + kept[|m|..] == m;
  }

  /** With one local copy of each identifier that is the exact condition. */
  lemma RemergeIsFixedExactlyWhen(native: seq<Option<Item>>, local: seq<Item>, d: Deletions)
    requires UniqueIds(local)
    ensures MergedItems(Some(native), MergedItems(Some(native), local, d), d) == MergedItems(Some(native), local, d) <==> NoClash(native, local, d)
  {
    if NoClash(native, local, d) {
      RemergeIsFixed(native, local, d);
    } else {
      var y :| y in local && Clashes(KeepNative(native, d), y, d);
      ClashComesBack(native, local, d, y);
    }
  }

  /** The first merge drops the file's copy, and the second brings it back. */
  lemma ClashComesBack(native: seq<Option<Item>>, local: seq<Item>, d: Deletions, y: Item)
    requires UniqueIds(local) && y in local && Clashes(KeepNative(native, d), y, d)
    ensures var once := MergedItems(Some(native), local, d);
      exists x: Item :: x.id == y.id && !Gone(x, d) && x !in once && x in MergedItems(Some(native), once, d)
  {
    var once := MergedItems(Some(native), local, d);
    KeepNativeGet(native, d, y.id);
    LastKeptIsKept(native, d, y.id);
    var x := LastKept(native, d, y.id).value;
    SoleCopy(local, y);
    OnlyCopyCandidates(Some(x), local, d, y);
    assert Newest([]) == None;
    forall z | z in once ensures z.id != y.id {
      MergeItemsPointwise(native, local, d, z);
    }
    MergeItemsPointwise(native, once, d, x);
    NoCopyCandidates(Some(x), once, d, x.id);
    NewestOfTwo(x, x);
  }

  /** Saving what was just saved changes no item. */
  lemma SavingTwiceIsStable(items: seq<Item>, d: Deletions)
    requires UniqueIds(items) && forall x :: x in items ==> !Gone(x, d)
    ensures MergedItems(Some(Somes(items)), items, d) == items
  {
    KeepAll(items, d);
    var kept := KeepNative(Somes(items), d);
    KeepNativeGet(Somes(items), d, "");
    Relay(kept, kept, d, |kept|);
    assert Values(kept) == items;
    assert items[..|items|] == items && kept[..|kept|] == kept && kept[..|kept|] + kept[|kept|..] == kept;
  }

  lemma {:induction false} KeepAll(items: seq<Item>, d: Deletions)
    requires UniqueIds(items) && forall x :: x in items ==> !Gone(x, d)
    ensures var kept := KeepNative(Somes(items), d);
      |kept| == |items| && forall i :: 0 <= i < |items| ==> kept[i] == Entry(items[i].id, items[i])
  {
    if items != [] {
      var n := |items| - 1;
      assert Somes(items)[..n] == Somes(items[..n]);
      forall x | x in items[..n] ensures !Gone(x, d) { assert x in items; }
      KeepAll(items[..n], d);
      var kept := KeepNative(Somes(items[..n]), d);
      assert items[n] in items;
      GetMissing(kept, items[n].id);
      PutNew(kept, items[n].id, items[n]);
    }
  }

  // ---- two consequences worth knowing

  /** An item deleted, then saved again by someone else, is lost to a save that still holds the copy
      from before the deletion. */
  lemma CoveredCopyDropsNewer()
    ensures MergedItems(Some([Some(Item("a", 3, "restored"))]), [Item("a", 1, "stale")], map["a" := 2]) == []
  {
    var stale, restored := Item("a", 1, "stale"), Item("a", 3, "restored");
    var d: Deletions := map["a" := 2];
    assert KeepNative([Some(restored)], d) == [Entry("a", restored)] by {
      assert [Some(restored)][..0] == [] && KeepNative([Some(restored)][..0], d) == [];
    }
    assert LayLocal([Entry("a", restored)], [stale], d) == [] by {
      assert [stale][..0] == [];
      assert LayLocal([Entry("a", restored)], [stale][..0], d) == [Entry("a", restored)];
    }
  }

  /** Clearing the marker of an item has no effect once the marker is in the file: the save joins it
      back, so a copy with the clock reading of the deletion is still dropped. */
  lemma ClearedMarkerReturns(file: Option<Native>, s: State, itemId: string)
    ensures TimeOf(Merged(ClearDeleteMarkers(s, itemId), file).deletedItemIds, itemId) == MarkedIn(file, itemId)
    ensures forall id :: id != itemId ==> TimeOf(ClearDeleteMarkers(s, itemId).deletedItemIds, id) == TimeOf(s.deletedItemIds, id)
  {
    MergedMarker(ClearDeleteMarkers(s, itemId), file, itemId);
  }

  // ---- passkey records

  /** The last copy of a record in the file that no deletion covers. */
  function LastRec(list: seq<Rec>, d: Deletions, id: string): Option<Rec> {
    if list == [] then None
    else
      var r := list[|list| - 1];
      if r.id == id && !GoneRec(r, d) then Some(r) else LastRec(list[..|list| - 1], d, id)
  }

  /** The last local copy decides, whatever its stamp; without one, the file's copy stays. */
  function LastWord(kept: Option<Rec>, local: seq<Rec>, d: Deletions, id: string): Option<Rec> {
    if local == [] then kept
    else
      var r := local[|local| - 1];
      if r.id == id then (if GoneRec(r, d) then None else Some(r)) else LastWord(kept, local[..|local| - 1], d, id)
  }

  function RecMapOf(native: seq<Rec>, local: seq<Rec>, d: Deletions): RecMap {
    LayRecs(KeepRecs(native, d), Anonymous(native), local, d)
  }

  lemma {:induction false} KeepRecsGet(list: seq<Rec>, d: Deletions, id: string)
    requires id != ""
    ensures Keyed(KeepRecs(list, d)) && Get(KeepRecs(list, d), Named(id)) == LastRec(list, d, id)
  {
    if list != [] {
      var n := |list| - 1;
      KeepRecsGet(list[..n], d, id);
      var m, r, index := KeepRecs(list[..n], d), list[n], Anonymous(list[..n]);
      PutKeyed(m, NativeRecord(index), r);
      PutKeyed(m, Named(r.id), r);
      GetPut(m, NativeRecord(index), r, Named(id));
      GetPut(m, Named(r.id), r, Named(id));
    }
  }

  lemma LayRecsStep(m: RecMap, start: nat, list: seq<Rec>, d: Deletions)
    requires list != []
    ensures var n := |list| - 1;
      LayRecs(m, start, list, d) == LayRec(LayRecs(m, start, list[..n], d), list[n], start + Anonymous(list[..n]), d)
  {
  }

  lemma LayRecGet(m: RecMap, r: Rec, index: nat, d: Deletions, id: string)
    requires Keyed(m) && id != ""
    ensures Keyed(LayRec(m, r, index, d))
    ensures Get(LayRec(m, r, index, d), Named(id)) == if r.id != id then Get(m, Named(id)) else if GoneRec(r, d) then None else Some(r)
  {
    PutKeyed(m, LocalRecord(index), r);
    PutKeyed(m, Named(r.id), r);
    DropKeyed(m, Named(r.id));
    GetPut(m, LocalRecord(index), r, Named(id));
    GetPut(m, Named(r.id), r, Named(id));
    GetDrop(m, Named(r.id), Named(id));
  }

  lemma {:induction false} RecMapGet(native: seq<Rec>, local: seq<Rec>, d: Deletions, id: string)
    requires id != ""
    ensures Keyed(RecMapOf(native, local, d))
    ensures Get(RecMapOf(native, local, d), Named(id)) == LastWord(LastRec(native, d, id), local, d, id)
  {
    if local == [] {
      KeepRecsGet(native, d, id);
    } else {
      var n := |local| - 1;
      RecMapGet(native, local[..n], d, id);
      LayRecsStep(KeepRecs(native, d), Anonymous(native), local, d);
      LayRecGet(RecMapOf(native, local[..n], d), local[n], Anonymous(native) + Anonymous(local[..n]), d, id);
    }
  }

  // ---- deleted passkeys stay deleted

  predicate NoneGone(m: RecMap, d: Deletions) {
    Keyed(m) && forall e :: e in m ==> e.value.id == "" || !GoneRec(e.value, d)
  }

  lemma {:induction false} KeepRecsLive(list: seq<Rec>, d: Deletions)
    ensures NoneGone(KeepRecs(list, d), d)
  {
    if list != [] {
      var n := |list| - 1;
      KeepRecsLive(list[..n], d);
      PutKeyed(KeepRecs(list[..n], d), NativeRecord(Anonymous(list[..n])), list[n]);
      PutKeyed(KeepRecs(list[..n], d), Named(list[n].id), list[n]);
    }
  }

  lemma LayRecLive(m: RecMap, r: Rec, index: nat, d: Deletions)
    requires NoneGone(m, d)
    ensures NoneGone(LayRec(m, r, index, d), d)
  {
    PutKeyed(m, LocalRecord(index), r);
    PutKeyed(m, Named(r.id), r);
    DropKeyed(m, Named(r.id));
  }

  lemma {:induction false} LayRecsLive(m: RecMap, start: nat, local: seq<Rec>, d: Deletions)
    requires NoneGone(m, d)
    ensures NoneGone(LayRecs(m, start, local, d), d)
  {
    if local != [] {
      var n := |local| - 1;
      LayRecsLive(m, start, local[..n], d);
      LayRecsStep(m, start, local, d);
      LayRecLive(LayRecs(m, start, local[..n], d), local[n], start + Anonymous(local[..n]), d);
    }
  }

  /** No merged record with an identifier is covered by a deletion. */
  lemma MergedRecsLive(native: seq<Rec>, local: seq<Rec>, d: Deletions, r: Rec)
    requires r in MergedRecs(Some(native), local, d) && r.id != ""
    ensures !GoneRec(r, d)
  {
    KeepRecsLive(native, d);
    LayRecsLive(KeepRecs(native, d), Anonymous(native), local, d);
    var m := RecMapOf(native, local, d);
    var i :| 0 <= i < |m| && Values(m)[i] == r;
    assert m[i] in m;
  }

  lemma {:induction false} MarkPasskeysMarks(d: Deletions, list: seq<Rec>, itemId: string, now: Time, r: Rec)
    requires r in list && r.owner == itemId && r.id != ""
    ensures TimeOf(MarkPasskeys(d, list, itemId, now), r.id) == now
    decreases |list|
  {
    var next := if list[0].owner == itemId && list[0].id != "" then d[list[0].id := now] else d;
    if list[0] == r {
      MarkKeepsNow(next, list[1..], itemId, now, r.id);
    } else {
      MarkPasskeysMarks(next, list[1..], itemId, now, r);
    }
  }

  lemma {:induction false} MarkKeepsNow(d: Deletions, list: seq<Rec>, itemId: string, now: Time, id: string)
    requires TimeOf(d, id) == now
    ensures TimeOf(MarkPasskeys(d, list, itemId, now), id) == now
    decreases |list|
  {
    if list != [] {
      MarkKeepsNow(if list[0].owner == itemId && list[0].id != "" then d[list[0].id := now] else d, list[1..], itemId, now, id);
    }
  }

  function PasskeyMarkedIn(file: Option<Native>, id: string): Time {
    if file.None? then 0 else TimeOf(file.value.deletedSitePasskeyIds, id)
  }

  predicate PasskeyMarkedBy(file: Option<Native>, saves: seq<State>, id: string, t: Time) {
    PasskeyMarkedIn(file, id) >= t || exists k :: 0 <= k < |saves| && TimeOf(saves[k].deletedSitePasskeyIds, id) >= t
  }

  predicate HoldsRecordBy(list: seq<Rec>, id: string, t: Time) {
    exists r :: r in list && r.id == id && StampOf(r) <= t
  }

  lemma MergedPasskeyMarker(s: State, file: Option<Native>, id: string)
    ensures TimeOf(Merged(s, file).deletedSitePasskeyIds, id) == Max(PasskeyMarkedIn(file, id), TimeOf(s.deletedSitePasskeyIds, id))
  {
  }

  lemma NoCoveredPasskeyIsWritten(s: State, file: Native, r: Rec)
    requires r in Merged(s, Some(file)).sitePasskeys && r.id != ""
    ensures !GoneRec(r, Merged(s, Some(file)).deletedSitePasskeyIds)
  {
    var d := Merged(s, Some(file)).deletedSitePasskeyIds;
    if file.sitePasskeys.Some? {
      MergedRecsLive(file.sitePasskeys.value, s.sitePasskeys, d, r);
    } else {
      var at := LivingRecsPicks(s.sitePasskeys, d);
      PicksIn(s.sitePasskeys, Sparing((q: Rec) => q.id != "" && GoneRec(q, d)), LivingRecs(s.sitePasskeys, d), at, r);
    }
  }

  lemma PasskeyMarkedEarlier(file: Option<Native>, saves: seq<State>, id: string, t: Time)
    requires saves != [] && PasskeyMarkedBy(file, saves, id, t) && TimeOf(saves[|saves| - 1].deletedSitePasskeyIds, id) < t
    ensures PasskeyMarkedBy(file, saves[..|saves| - 1], id, t)
  {
    if PasskeyMarkedIn(file, id) < t {
      var k :| 0 <= k < |saves| && TimeOf(saves[k].deletedSitePasskeyIds, id) >= t;
      assert saves[..|saves| - 1][k] == saves[k];
    }
  }

  lemma {:induction false} PasskeyMarkerStays(file: Option<Native>, saves: seq<State>, id: string, t: Time)
    requires saves != [] && PasskeyMarkedBy(file, saves, id, t)
    ensures TimeOf(SaveAll(file, saves).deletedSitePasskeyIds, id) >= t
  {
    var n := |saves| - 1;
    MergedPasskeyMarker(saves[n], FileAfter(file, saves[..n]), id);
    if TimeOf(saves[n].deletedSitePasskeyIds, id) < t && n > 0 {
      PasskeyMarkedEarlier(file, saves, id, t);
      PasskeyMarkerStays(file, saves[..n], id, t);
      FileAfterSaves(file, saves[..n]);
    }
  }

  /** The same for the passkeys: a marked credential comes back only with a later stamp, except
      through a single save with no file. */
  lemma PasskeyDeletionIsForeverExactlyWhen(file: Option<Native>, saves: seq<State>, id: string, t: Time)
    requires id != "" && t != 0 && saves != [] && PasskeyMarkedBy(file, saves, id, t)
    ensures TimeOf(SaveAll(file, saves).deletedSitePasskeyIds, id) >= t
    ensures HoldsRecordBy(SaveAll(file, saves).sitePasskeys, id, t)
       <==> file.None? && |saves| == 1 && HoldsRecordBy(saves[0].sitePasskeys, id, t)
  {
    PasskeyMarkerStays(file, saves, id, t);
    var n := |saves| - 1;
    var before, end := FileAfter(file, saves[..n]), SaveAll(file, saves);
    if before.Some? {
      forall r | r in end.sitePasskeys && r.id == id ensures StampOf(r) > t {
        NoCoveredPasskeyIsWritten(saves[n], before.value, r);
      }
    }
  }

  /** Deleting an item deletes its passkeys for good as well. A copy of such a credential with an old
      stamp is found again only if another item had it and the save was the only one, with no file. */
  lemma DeletedItemsPasskeysStayGone(file: Option<Native>, s: State, itemId: string, now: Time, saves: seq<State>, r: Rec, later: Rec)
    requires now != 0 && r in s.sitePasskeys && r.owner == itemId && r.id != ""
    requires later.id == r.id && StampOf(later) <= now
    ensures later in SaveAll(file, [DeleteItem(s, itemId, now)] + saves).sitePasskeys
       <==> file.None? && saves == [] && later in s.sitePasskeys && later.owner != itemId
  {
    var all := [DeleteItem(s, itemId, now)] + saves;
    MarkPasskeysMarks(s.deletedSitePasskeyIds, s.sitePasskeys, itemId, now, r);
    assert TimeOf(all[0].deletedSitePasskeyIds, r.id) >= now;
    PasskeyDeletionIsForeverExactlyWhen(file, all, r.id, now);
    var at := WithoutOwnerPicks(s.sitePasskeys, itemId);
    PicksIn(s.sitePasskeys, Sparing((r: Rec) => r.owner == itemId), WithoutOwner(s.sitePasskeys, itemId), at, later);
    if file.None? && saves == [] { assert all[..0] == []; }
  }

  // ---- what deleting an item leaves

  /** Deleting an item takes the item and its passkeys out of the lists and leaves every other item
      and passkey in its place; it marks the item, and each of its passkeys that has an identifier,
      as deleted now, and leaves every other marker. */
  lemma DeleteItemTakesOnlyTheItem(s: State, itemId: string, now: Time) returns (items: seq<nat>, passkeys: seq<nat>)
    ensures Picks(s.items, Sparing((x: Item) => x.id == itemId), DeleteItem(s, itemId, now).items, items)
    ensures Picks(s.sitePasskeys, Sparing((r: Rec) => r.owner == itemId), DeleteItem(s, itemId, now).sitePasskeys, passkeys)
    ensures DeleteItem(s, itemId, now).pendingPasskeys == s.pendingPasskeys && DeleteItem(s, itemId, now).rest == s.rest
    ensures forall id :: TimeOf(DeleteItem(s, itemId, now).deletedItemIds, id) == if id == itemId then now else TimeOf(s.deletedItemIds, id)
    ensures forall id :: TimeOf(DeleteItem(s, itemId, now).deletedSitePasskeyIds, id)
                      == if OwnsPasskey(s, itemId, id) then now else TimeOf(s.deletedSitePasskeyIds, id)
  {
    items := WithoutIdPicks(s.items, itemId);
    passkeys := WithoutOwnerPicks(s.sitePasskeys, itemId);
    forall id ensures TimeOf(DeleteItem(s, itemId, now).deletedSitePasskeyIds, id)
                   == if OwnsPasskey(s, itemId, id) then now else TimeOf(s.deletedSitePasskeyIds, id) {
      if OwnsPasskey(s, itemId, id) {
        var r :| r in s.sitePasskeys && r.owner == itemId && r.id == id;
        MarkPasskeysMarks(s.deletedSitePasskeyIds, s.sitePasskeys, itemId, now, r);
      } else {
        MarkLeavesOthers(s.deletedSitePasskeyIds, s.sitePasskeys, itemId, now, id);
      }
    }
  }

  predicate OwnsPasskey(s: State, itemId: string, id: string) {
    id != "" && exists r :: r in s.sitePasskeys && r.owner == itemId && r.id == id
  }

  lemma {:induction false} MarkLeavesOthers(d: Deletions, list: seq<Rec>, itemId: string, now: Time, id: string)
    requires id == "" || forall r :: r in list && r.owner == itemId ==> r.id != id
    ensures TimeOf(MarkPasskeys(d, list, itemId, now), id) == TimeOf(d, id)
    decreases |list|
  {
    if list != [] {
      MarkLeavesOthers(if list[0].owner == itemId && list[0].id != "" then d[list[0].id := now] else d, list[1..], itemId, now, id);
    }
  }

  lemma {:induction false} WithoutIdPicks(items: seq<Item>, itemId: string) returns (at: seq<nat>)
    ensures Picks(items, Sparing((x: Item) => x.id == itemId), WithoutId(items, itemId), at)
  {
    at := [];
    if items != [] {
      at := WithoutIdPicks(items[..|items| - 1], itemId);
      at := SpareLast(items, (x: Item) => x.id == itemId, WithoutId(items[..|items| - 1], itemId), at);
    }
  }

  lemma {:induction false} WithoutOwnerPicks(list: seq<Rec>, itemId: string) returns (at: seq<nat>)
    ensures Picks(list, Sparing((r: Rec) => r.owner == itemId), WithoutOwner(list, itemId), at)
  {
    at := [];
    if list != [] {
      at := WithoutOwnerPicks(list[..|list| - 1], itemId);
      at := SpareLast(list, (r: Rec) => r.owner == itemId, WithoutOwner(list[..|list| - 1], itemId), at);
    }
  }

  // ---- records without an identifier

  /** The generated keys so far. */
  predicate Taken(k: Key, natives: nat, locals: nat) {
    match k
    case Named(_) => true
    case NativeRecord(i) => i < natives
    case LocalRecord(i) => i < natives + locals
  }

  function AnonymousEntries(m: RecMap): nat {
    if m == [] then 0 else (if m[0].value.id == "" then 1 else 0) + AnonymousEntries(m[1..])
  }

  /** Records without an identifier have generated keys, the others their own. */
  predicate Genuine(m: RecMap) {
    forall e :: e in m ==> if e.value.id == "" then !e.key.Named? else e.key == Named(e.value.id)
  }

  predicate AllTaken(m: RecMap, natives: nat, locals: nat) {
    forall e :: e in m ==> Taken(e.key, natives, locals)
  }

  /** Every anonymous record so far has an entry, under a generated key. */
  ghost predicate AnonymousPlaces(m: RecMap, natives: nat, locals: nat) {
    Keyed(m) && Genuine(m) && AllTaken(m, natives, locals) && AnonymousEntries(m) == natives + locals
  }

  lemma {:induction false} PutNewCount(m: RecMap, k: Key, r: Rec)
    requires r.id == "" && forall e :: e in m ==> e.key != k
    ensures AnonymousEntries(Put(m, k, r)) == AnonymousEntries(m) + 1
  {
    if m != [] {
      assert m[0] in m;
      PutNewCount(m[1..], k, r);
    }
  }

  lemma {:induction false} PutNamedCount(m: RecMap, r: Rec)
    requires r.id != "" && Genuine(m)
    ensures AnonymousEntries(Put(m, Named(r.id), r)) == AnonymousEntries(m)
  {
    if m != [] {
      assert m[0] in m;
      if m[0].key != Named(r.id) {
        PutNamedCount(m[1..], r);
      }
    }
  }

  lemma {:induction false} DropNamedCount(m: RecMap, id: string)
    requires Genuine(m)
    ensures AnonymousEntries(Drop(m, Named(id))) == AnonymousEntries(m)
  {
    if m != [] {
      assert m[0] in m;
      if m[0].key != Named(id) {
        DropNamedCount(m[1..], id);
      }
    }
  }

  lemma PutAnonymous(m: RecMap, k: Key, r: Rec, natives: nat, locals: nat, natives': nat, locals': nat)
    requires AnonymousPlaces(m, natives, locals) && r.id == "" && !k.Named?
    requires !Taken(k, natives, locals) && Taken(k, natives', locals')
    requires natives <= natives' && natives' + locals' == natives + locals + 1
    ensures AnonymousPlaces(Put(m, k, r), natives', locals')
  {
    PutKeyed(m, k, r);
    PutNewCount(m, k, r);
  }

  lemma PutPlaces(m: RecMap, r: Rec, natives: nat, locals: nat)
    requires AnonymousPlaces(m, natives, locals) && r.id != ""
    ensures AnonymousPlaces(Put(m, Named(r.id), r), natives, locals)
  {
    PutKeyed(m, Named(r.id), r);
    PutNamedCount(m, r);
  }

  lemma DropPlaces(m: RecMap, id: string, natives: nat, locals: nat)
    requires AnonymousPlaces(m, natives, locals)
    ensures AnonymousPlaces(Drop(m, Named(id)), natives, locals)
  {
    DropKeyed(m, Named(id));
    DropNamedCount(m, id);
  }

  lemma {:induction false} KeepRecsPlaces(list: seq<Rec>, d: Deletions)
    ensures AnonymousPlaces(KeepRecs(list, d), Anonymous(list), 0)
  {
    if list != [] {
      var n := |list| - 1;
      KeepRecsPlaces(list[..n], d);
      var m, r, natives := KeepRecs(list[..n], d), list[n], Anonymous(list[..n]);
      if r.id == "" {
        PutAnonymous(m, NativeRecord(natives), r, natives, 0, natives + 1, 0);
      } else {
        PutPlaces(m, r, natives, 0);
      }
    }
  }

  lemma LayPlaces(m: RecMap, r: Rec, natives: nat, locals: nat, d: Deletions)
    requires AnonymousPlaces(m, natives, locals)
    ensures AnonymousPlaces(LayRec(m, r, natives + locals, d), natives, locals + if r.id == "" then 1 else 0)
  {
    if r.id == "" {
      PutAnonymous(m, LocalRecord(natives + locals), r, natives, locals, natives, locals + 1);
    } else if GoneRec(r, d) {
      DropPlaces(m, r.id, natives, locals);
    } else {
      PutPlaces(m, r, natives, locals);
    }
  }

  lemma {:induction false} LayRecsPlaces(m: RecMap, natives: nat, local: seq<Rec>, d: Deletions)
    requires AnonymousPlaces(m, natives, 0)
    ensures AnonymousPlaces(LayRecs(m, natives, local, d), natives, Anonymous(local))
  {
    if local != [] {
      var n := |local| - 1;
      LayRecsPlaces(m, natives, local[..n], d);
      var before, locals := LayRecs(m, natives, local[..n], d), Anonymous(local[..n]);
      var after, locals' := LayRec(before, local[n], natives + locals, d), locals + if local[n].id == "" then 1 else 0;
      assert AnonymousPlaces(after, natives, locals') by { LayPlaces(before, local[n], natives, locals, d); }
      assert LayRecs(m, natives, local, d) == after by { LayRecsStep(m, natives, local, d); }
      assert Anonymous(local) == locals';
    }
  }

  lemma {:induction false} AnonymousFirst(list: seq<Rec>)
    requires list != []
    ensures Anonymous(list) == (if list[0].id == "" then 1 else 0) + Anonymous(list[1..])
  {
    var n := |list| - 1;
    if n > 0 {
      AnonymousFirst(list[..n]);
      assert list[..n][1..] == list[1..][..n - 1];
    } else {
      assert list[..0] == [];
    }
  }

  lemma {:induction false} AnonymousValues(m: RecMap)
    ensures Anonymous(Values(m)) == AnonymousEntries(m)
  {
    if m != [] {
      AnonymousFirst(Values(m));
      assert Values(m)[1..] == Values(m[1..]);
      AnonymousValues(m[1..]);
    }
  }

  /** No record without an identifier is ever recognised: the merged list holds all of the file's
      and all of the state's. */
  lemma AnonymousRecordsAddUp(native: seq<Rec>, local: seq<Rec>, d: Deletions)
    ensures Anonymous(MergedRecs(Some(native), local, d)) == Anonymous(native) + Anonymous(local)
  {
    KeepRecsPlaces(native, d);
    LayRecsPlaces(KeepRecs(native, d), Anonymous(native), local, d);
    AnonymousValues(RecMapOf(native, local, d));
  }

  /** A record with an identifier is in the merged list exactly when it is the last local copy and not
      covered, or, without a local copy, the file's last copy that no deletion covers. */
  lemma MergeRecordsPointwise(native: seq<Rec>, local: seq<Rec>, d: Deletions, r: Rec)
    requires r.id != ""
    ensures r in MergedRecs(Some(native), local, d) <==> LastWord(LastRec(native, d, r.id), local, d, r.id) == Some(r)
  {
    KeepRecsPlaces(native, d);
    LayRecsPlaces(KeepRecs(native, d), Anonymous(native), local, d);
    RecMapGet(native, local, d, r.id);
    NamedIn(RecMapOf(native, local, d), r);
  }

  lemma NamedIn(m: RecMap, r: Rec)
    requires Keyed(m) && Genuine(m) && r.id != ""
    ensures r in Values(m) <==> Get(m, Named(r.id)) == Some(r)
  {
    if r in Values(m) {
      var i :| 0 <= i < |m| && Values(m)[i] == r;
      assert m[i] in m;
      GetAt(m, i);
    }
    if Get(m, Named(r.id)) == Some(r) {
      var i := GetFound(m, Named(r.id));
      assert Values(m)[i] == r;
    }
  }

  function Resave(file: State, times: nat): State {
    if times == 0 then file else var f := Resave(file, times - 1); Merged(f, Some(FileOf(f)))
  }

  lemma PendingPasskeysDoubleOnce(f: State)
    ensures Anonymous(Merged(f, Some(FileOf(f))).pendingPasskeys) == 2 * Anonymous(f.pendingPasskeys)
  {
    AnonymousRecordsAddUp(f.pendingPasskeys, f.pendingPasskeys, map[]);
    assert Merged(f, Some(FileOf(f))).pendingPasskeys == MergedRecs(Some(f.pendingPasskeys), f.pendingPasskeys, map[]);
  }

  function PendingAfter(file: State, times: nat): nat {
    Anonymous(Resave(file, times).pendingPasskeys)
  }

  lemma ResaveStep(file: State, times: nat)
    ensures PendingAfter(file, times + 1) == 2 * PendingAfter(file, times)
  {
    PendingPasskeysDoubleOnce(Resave(file, times));
  }

  lemma {:induction false} Doubling(f: nat -> nat, n: nat)
    requires forall t: nat :: f(t + 1) == 2 * f(t)
    ensures f(n) == Pow2(n) * f(0)
  {
    if n > 0 {
      Doubling(f, n - 1);
      assert f((n - 1) + 1) == 2 * f(n - 1);
      MulAssoc(2, Pow2(n - 1), f(0));
    }
  }

  /** Loading and saving again doubles the pending passkeys that have no identifier, every time. */
  lemma PendingPasskeysDouble(file: State, times: nat)
    ensures PendingAfter(file, times) == Pow2(times) * PendingAfter(file, 0)
  {
    var f: nat -> nat := t => PendingAfter(file, t);
    forall t: nat ensures f(t + 1) == 2 * f(t) { ResaveStep(file, t); }
    Doubling(f, times);
  }
}
