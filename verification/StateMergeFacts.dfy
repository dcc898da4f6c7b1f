/** What a merged save promises: one identifier at a time, over a run of saves, and when repeated. */
module StateMergeFacts {
  import opened Common
  import opened OrderedMap
  import opened StateMerge
  import opened Sublists

  // ---- one identifier at a time

  /** The last copy in the vault file that no deletion covers. */
  function LastKept(list: seq<Option<Item>>, d: Deletions, id: string): Option<Item> {
    if list == [] then None
    else
      var e := list[|list| - 1];
      if e.Some? && e.value.id == id && !Gone(e.value, d) then e else LastKept(list[..|list| - 1], d, id)
  }

  /** The copies that compete for the identifier: a covered local copy disqualifies all before it,
      the file's copy included. */
  function Candidates(kept: Option<Item>, local: seq<Item>, d: Deletions, id: string): seq<Item> {
    if local == [] then (if kept.Some? then [kept.value] else [])
    else
      var x := local[|local| - 1];
      var before := Candidates(kept, local[..|local| - 1], d, id);
      if x.id != id then before else if Gone(x, d) then [] else before + [x]
  }

  /** The newest of them; on a tie the last. */
  function Newest(list: seq<Item>): Option<Item> {
    if list == [] then None
    else
      var w := Newest(list[..|list| - 1]);
      if Supersedes(list[|list| - 1], w) then Some(list[|list| - 1]) else w
  }

  predicate NewestAt(list: seq<Item>, k: nat)
    requires k < |list|
  {
    && (forall i :: 0 <= i < k ==> list[i].updatedAt <= list[k].updatedAt)
    && (forall i :: k < i < |list| ==> list[i].updatedAt < list[k].updatedAt)
  }

  lemma {:induction false} NewestIsNewest(list: seq<Item>) returns (k: nat)
    requires list != []
    ensures k < |list| && NewestAt(list, k) && Newest(list) == Some(list[k])
  {
    var n := |list| - 1;
    k := n;
    if n > 0 {
      var j := NewestIsNewest(list[..n]);
      assert forall i :: 0 <= i < n ==> list[..n][i] == list[i];
      if list[n].updatedAt < list[j].updatedAt { k := j; }
    }
  }

  lemma NewestOfTwo(x: Item, y: Item)
    ensures Newest([x]) == Some(x)
    ensures Newest([x, y]) == Some(if y.updatedAt >= x.updatedAt then y else x)
  {
    assert [x, y][..1] == [x];
  }

  ghost predicate OwnKeys(m: ItemMap) {
    Keyed(m) && forall e :: e in m ==> e.key == e.value.id
  }

  ghost predicate Uncovered(m: ItemMap, d: Deletions) {
    forall e :: e in m ==> !Gone(e.value, d)
  }

  lemma {:induction false} KeepNativeGet(list: seq<Option<Item>>, d: Deletions, id: string)
    ensures OwnKeys(KeepNative(list, d)) && Uncovered(KeepNative(list, d), d)
    ensures Get(KeepNative(list, d), id) == LastKept(list, d, id)
  {
    if list != [] {
      KeepNativeGet(list[..|list| - 1], d, id);
      var e := list[|list| - 1];
      if e.Some? {
        PutKeyed(KeepNative(list[..|list| - 1], d), e.value.id, e.value);
        GetPut(KeepNative(list[..|list| - 1], d), e.value.id, e.value, id);
      }
    }
  }

  lemma LayOneGet(m: ItemMap, x: Item, d: Deletions, id: string)
    requires OwnKeys(m) && Uncovered(m, d)
    ensures OwnKeys(LayOne(m, x, d)) && Uncovered(LayOne(m, x, d), d)
    ensures Get(LayOne(m, x, d), id) == if x.id != id then Get(m, id) else if Gone(x, d) then None
                                        else if Supersedes(x, Get(m, id)) then Some(x) else Get(m, id)
  {
    PutKeyed(m, x.id, x);
    DropKeyed(m, x.id);
    GetPut(m, x.id, x, id);
    GetDrop(m, x.id, id);
  }

  lemma {:induction false} LayLocalGet(m: ItemMap, local: seq<Item>, d: Deletions, id: string)
    requires OwnKeys(m) && Uncovered(m, d)
    ensures OwnKeys(LayLocal(m, local, d)) && Uncovered(LayLocal(m, local, d), d)
    ensures Get(LayLocal(m, local, d), id) == Newest(Candidates(Get(m, id), local, d, id))
  {
    if local == [] {
      if Get(m, id).Some? { NewestOfTwo(Get(m, id).value, Get(m, id).value); }
    } else {
      var n := |local| - 1;
      LayLocalGet(m, local[..n], d, id);
      LayOneGet(LayLocal(m, local[..n], d), local[n], d, id);
      var before := Candidates(Get(m, id), local[..n], d, id);
      assert (before + [local[n]])[..|before|] == before;
    }
  }

  function ItemMapOf(native: seq<Option<Item>>, local: seq<Item>, d: Deletions): ItemMap {
    LayLocal(KeepNative(native, d), local, d)
  }

  /** The merged list holds one copy of each identifier, none of them covered by a deletion: the
      newest of the copies that compete for it. */
  lemma MergeItemsPointwise(native: seq<Option<Item>>, local: seq<Item>, d: Deletions, x: Item)
    ensures x in MergedItems(Some(native), local, d) <==> Newest(Candidates(LastKept(native, d, x.id), local, d, x.id)) == Some(x)
    ensures x in MergedItems(Some(native), local, d) ==> !Gone(x, d)
    ensures UniqueIds(MergedItems(Some(native), local, d))
  {
    var m := ItemMapOf(native, local, d);
    KeepNativeGet(native, d, x.id);
    LayLocalGet(KeepNative(native, d), local, d, x.id);
    ValuesOf(m, x);
  }

  predicate UniqueIds(items: seq<Item>) {
    forall i, j :: 0 <= i < j < |items| ==> items[i].id != items[j].id
  }

  lemma ValuesOf(m: ItemMap, x: Item)
    requires OwnKeys(m)
    ensures x in Values(m) <==> Get(m, x.id) == Some(x)
    ensures UniqueIds(Values(m))
  {
    if x in Values(m) {
      var i :| 0 <= i < |m| && Values(m)[i] == x;
      assert m[i] in m;
      GetAt(m, i);
    }
    if Get(m, x.id) == Some(x) {
      var i := GetFound(m, x.id);
      assert Values(m)[i] == x;
    }
    forall i, j | 0 <= i < j < |m| ensures Values(m)[i].id != Values(m)[j].id {
      assert m[i] in m && m[j] in m;
    }
  }

  // ---- a late save

  /** The local list has exactly the copy `y` of its identifier. */
  predicate OnlyCopy(local: seq<Item>, y: Item) {
    y in local && forall z :: z in local && z.id == y.id ==> z == y
  }

  predicate NoCopy(local: seq<Item>, id: string) {
    forall z :: z in local ==> z.id != id
  }

  lemma {:induction false} NoCopyCandidates(kept: Option<Item>, local: seq<Item>, d: Deletions, id: string)
    requires NoCopy(local, id)
    ensures Candidates(kept, local, d, id) == if kept.Some? then [kept.value] else []
  {
    if local != [] {
      assert local[|local| - 1] in local;
      NoCopyCandidates(kept, local[..|local| - 1], d, id);
    }
  }

  lemma {:induction false} OnlyCopyCandidates(kept: Option<Item>, local: seq<Item>, d: Deletions, y: Item)
    requires OnlyCopy(local, y) && UniqueIds(local)
    ensures Candidates(kept, local, d, y.id) == if Gone(y, d) then [] else if kept.Some? then [kept.value, y] else [y]
  {
    var n := |local| - 1;
    if local[n].id == y.id {
      assert local[n] in local;
      forall z | z in local[..n] ensures z.id != y.id {
        var i :| 0 <= i < n && local[i] == z;
      }
      NoCopyCandidates(kept, local[..n], d, y.id);
    } else {
      assert y in local[..n];
      OnlyCopyCandidates(kept, local[..n], d, y);
    }
  }

  /** A stale save keeps the copy that was saved meanwhile exactly when it holds no copy itself, or
      an older one that no deletion covers (or the very same). */
  lemma StaleSaveKeepsExactlyWhen(native: seq<Option<Item>>, local: seq<Item>, d: Deletions, x: Item)
    requires UniqueIds(local) && LastKept(native, d, x.id) == Some(x)
    ensures x in MergedItems(Some(native), local, d) <==>
            forall y :: y in local && y.id == x.id ==> y == x || (!Gone(y, d) && y.updatedAt < x.updatedAt)
  {
    MergeItemsPointwise(native, local, d, x);
    LastKeptIsKept(native, d, x.id);
    NewestOfTwo(x, x);
    if NoCopy(local, x.id) {
      NoCopyCandidates(Some(x), local, d, x.id);
    } else {
      var y :| y in local && y.id == x.id;
      SoleCopy(local, y);
      OnlyCopyCandidates(Some(x), local, d, y);
      NewestOfTwo(x, y);
    }
  }

  lemma SoleCopy(local: seq<Item>, y: Item)
    requires UniqueIds(local) && y in local
    ensures OnlyCopy(local, y)
  {
  }

  lemma {:induction false} LastKeptIsKept(list: seq<Option<Item>>, d: Deletions, id: string)
    ensures LastKept(list, d, id).Some? ==> LastKept(list, d, id).value.id == id && !Gone(LastKept(list, d, id).value, d)
  {
    if list != [] {
      LastKeptIsKept(list[..|list| - 1], d, id);
    }
  }

  // ---- deletions over a run of saves

  /** The stamp of the identifier's deletion in the file, if there is one. */
  function MarkedIn(file: Option<Native>, id: string): Time {
    if file.None? then 0 else TimeOf(file.value.deletedItemIds, id)
  }

  /** The file, or one of the saved states, marks the item as deleted at `t` or later. */
  predicate MarkedBy(file: Option<Native>, saves: seq<State>, id: string, t: Time) {
    MarkedIn(file, id) >= t || exists k :: 0 <= k < |saves| && TimeOf(saves[k].deletedItemIds, id) >= t
  }

  /** The list holds a copy stamped no later than `t`. */
  predicate HoldsCopyBy(items: seq<Item>, id: string, t: Time) {
    exists x :: x in items && x.id == id && x.updatedAt <= t
  }

  lemma MergedMarker(s: State, file: Option<Native>, id: string)
    ensures TimeOf(Merged(s, file).deletedItemIds, id) == Max(MarkedIn(file, id), TimeOf(s.deletedItemIds, id))
  {
  }

  /** With a file to merge with, no covered copy is written. */
  lemma NothingCoveredIsWritten(s: State, file: Native, x: Item)
    requires x in Merged(s, Some(file)).items
    ensures !Gone(x, Merged(s, Some(file)).deletedItemIds)
  {
    var d := Merged(s, Some(file)).deletedItemIds;
    if file.items.Some? {
      MergeItemsPointwise(file.items.value, s.items, d, x);
    } else {
      var at := LivingPicks(s.items, d);
      PicksIn(s.items, Sparing((y: Item) => Gone(y, d)), Living(s.items, d), at, x);
    }
  }

  lemma {:induction false} MarkerStays(file: Option<Native>, saves: seq<State>, id: string, t: Time)
    requires saves != [] && MarkedBy(file, saves, id, t)
    ensures TimeOf(SaveAll(file, saves).deletedItemIds, id) >= t
  {
    var n := |saves| - 1;
    MergedMarker(saves[n], FileAfter(file, saves[..n]), id);
    if TimeOf(saves[n].deletedItemIds, id) < t && n > 0 {
      MarkedEarlier(file, saves, id, t);
      MarkerStays(file, saves[..n], id, t);
      FileAfterSaves(file, saves[..n]);
    }
  }

  lemma MarkedEarlier(file: Option<Native>, saves: seq<State>, id: string, t: Time)
    requires saves != [] && MarkedBy(file, saves, id, t) && TimeOf(saves[|saves| - 1].deletedItemIds, id) < t
    ensures MarkedBy(file, saves[..|saves| - 1], id, t)
  {
    if MarkedIn(file, id) < t {
      var k :| 0 <= k < |saves| && TimeOf(saves[k].deletedItemIds, id) >= t;
      assert saves[..|saves| - 1][k] == saves[k];
    }
  }

  lemma FileAfterSaves(file: Option<Native>, saves: seq<State>)
    requires saves != []
    ensures FileAfter(file, saves) == Some(FileOf(SaveAll(file, saves)))
  {
  }

  /** Once an item is marked deleted, by the file or by any of the saved states, no run of saves ends
      with a copy stamped at or before the deletion, whoever saves and however stale their state. The
      only exception is a single save with no file, which writes what the state holds. */
  lemma DeletionIsForeverExactlyWhen(file: Option<Native>, saves: seq<State>, id: string, t: Time)
    requires t != 0 && saves != [] && MarkedBy(file, saves, id, t)
    ensures TimeOf(SaveAll(file, saves).deletedItemIds, id) >= t
    ensures HoldsCopyBy(SaveAll(file, saves).items, id, t) <==> file.None? && |saves| == 1 && HoldsCopyBy(saves[0].items, id, t)
  {
    MarkerStays(file, saves, id, t);
    var n := |saves| - 1;
    var before, end := FileAfter(file, saves[..n]), SaveAll(file, saves);
    if before.Some? {
      forall x | x in end.items && x.id == id ensures x.updatedAt > t {
        NothingCoveredIsWritten(saves[n], before.value, x);
      }
    }
  }

  lemma {:induction false} NoneWithId(items: seq<Item>, itemId: string)
    ensures forall x :: x in WithoutId(items, itemId) ==> x.id != itemId
  {
    if items != [] { NoneWithId(items[..|items| - 1], itemId); }
  }

  /** Deleting an item and saving keeps it deleted through every later save: only a copy stamped
      after the deletion can appear. */
  lemma DeleteIsForever(file: Option<Native>, s: State, itemId: string, now: Time, saves: seq<State>, x: Item)
    requires now != 0 && x.id == itemId && x.updatedAt <= now
    ensures x !in SaveAll(file, [DeleteItem(s, itemId, now)] + saves).items
  {
    var all := [DeleteItem(s, itemId, now)] + saves;
    assert TimeOf(all[0].deletedItemIds, itemId) >= now;
    DeletionIsForeverExactlyWhen(file, all, itemId, now);
    NoneWithId(s.items, itemId);
  }

  // ---- a file without the list

  lemma SpareLast<T>(list: seq<T>, drop: T -> bool, kept: seq<T>, at: seq<nat>) returns (more: seq<nat>)
    requires list != [] && Picks(list[..|list| - 1], Sparing(drop), kept, at)
    ensures Picks(list, Sparing(drop), if drop(list[|list| - 1]) then kept else kept + [list[|list| - 1]], more)
  {
    more := PicksLast(list, Sparing(drop), kept, at);
  }

  lemma {:induction false} LivingPicks(list: seq<Item>, d: Deletions) returns (at: seq<nat>)
    ensures Picks(list, Sparing((x: Item) => Gone(x, d)), Living(list, d), at)
  {
    if list == [] {
      at := [];
    } else {
      at := LivingPicks(list[..|list| - 1], d);
      at := SpareLast(list, (x: Item) => Gone(x, d), Living(list[..|list| - 1], d), at);
    }
  }

  lemma {:induction false} LivingRecsPicks(list: seq<Rec>, d: Deletions) returns (at: seq<nat>)
    ensures Picks(list, Sparing((r: Rec) => r.id != "" && GoneRec(r, d)), LivingRecs(list, d), at)
  {
    if list == [] {
      at := [];
    } else {
      at := LivingRecsPicks(list[..|list| - 1], d);
      at := SpareLast(list, (r: Rec) => r.id != "" && GoneRec(r, d), LivingRecs(list[..|list| - 1], d), at);
    }
  }

  /** One of the two maps holds a deletion of the identifier at or after the stamp. */
  predicate CoveredByEither(id: string, stamp: Time, file: Deletions, local: Deletions) {
    || (id in file && file[id] != 0 && stamp <= file[id])
    || (id in local && local[id] != 0 && stamp <= local[id])
  }

  lemma CoveredByJoin(id: string, stamp: Time, file: Deletions, local: Deletions)
    ensures Deleted(id, stamp, JoinDeletions(file, local)) <==> CoveredByEither(id, stamp, file, local)
  {
  }

  /** Where the file holds no list of items, a save writes exactly the state's items that neither map
      covers, in their order. */
  lemma MissingItems(s: State, file: Native) returns (at: seq<nat>)
    requires file.items.None?
    ensures Picks(s.items, Sparing((x: Item) => CoveredByEither(x.id, x.updatedAt, file.deletedItemIds, s.deletedItemIds)), Merged(s, Some(file)).items, at)
  {
    var d := JoinDeletions(file.deletedItemIds, s.deletedItemIds);
    at := LivingPicks(s.items, d);
    forall x | x in s.items ensures Gone(x, d) == CoveredByEither(x.id, x.updatedAt, file.deletedItemIds, s.deletedItemIds) {
      CoveredByJoin(x.id, x.updatedAt, file.deletedItemIds, s.deletedItemIds);
    }
    PicksSame(s.items, Sparing((x: Item) => Gone(x, d)), Sparing((x: Item) => CoveredByEither(x.id, x.updatedAt, file.deletedItemIds, s.deletedItemIds)), Living(s.items, d), at);
  }

  /** The same for the passkeys: those without an identifier all stay, and a record's stamp is that
      of its last change, else of its last use, else of its creation. */
  lemma MissingSitePasskeys(s: State, file: Native) returns (at: seq<nat>)
    requires file.sitePasskeys.None?
    ensures Picks(s.sitePasskeys, Sparing((r: Rec) => CoveredRecord(r, file, s)), Merged(s, Some(file)).sitePasskeys, at)
  {
    var d := JoinDeletions(file.deletedSitePasskeyIds, s.deletedSitePasskeyIds);
    at := LivingRecsPicks(s.sitePasskeys, d);
    forall r | r in s.sitePasskeys ensures (r.id != "" && GoneRec(r, d)) == CoveredRecord(r, file, s) {
      CoveredByJoin(r.id, StampOf(r), file.deletedSitePasskeyIds, s.deletedSitePasskeyIds);
    }
    PicksSame(s.sitePasskeys, Sparing((r: Rec) => r.id != "" && GoneRec(r, d)), Sparing((r: Rec) => CoveredRecord(r, file, s)), LivingRecs(s.sitePasskeys, d), at);
  }

  ghost predicate CoveredRecord(r: Rec, file: Native, s: State) {
    r.id != "" && exists stamp :: CoveredByEither(r.id, stamp, file.deletedSitePasskeyIds, s.deletedSitePasskeyIds) && Stamped(r, stamp)
  }

  predicate Stamped(r: Rec, stamp: Time) {
    match (r.updatedAt, r.lastUsedAt, r.createdAt)
    case (Some(t), _, _) => stamp == t
    case (None, Some(t), _) => stamp == t
    case (None, None, Some(t)) => stamp == t
    case (None, None, None) => stamp == 0
  }

  /** Pending passkeys are never covered: all of them are written. */
  lemma MissingPendingPasskeys(s: State, file: Native)
    requires file.pendingPasskeys.None?
    ensures Merged(s, Some(file)).pendingPasskeys == s.pendingPasskeys
  {
    AllLive(s.pendingPasskeys);
  }

  lemma {:induction false} AllLive(list: seq<Rec>)
    ensures LivingRecs(list, map[]) == list
  {
    if list != [] { AllLive(list[..|list| - 1]); }
  }

  // ---- newer copies over a run of saves

  /** No copy of the identifier in the list is covered by `d`. */
  predicate NoneCovered(items: seq<Item>, id: string, d: Deletions) {
    forall y :: y in items && y.id == id ==> !Gone(y, d)
  }

  predicate UniqueInFile(list: seq<Option<Item>>) {
    forall i, j :: 0 <= i < j < |list| && list[i].Some? && list[j].Some? ==> list[i].value.id != list[j].value.id
  }

  lemma {:induction false} CandidatesGrow(kept: Option<Item>, local: seq<Item>, d: Deletions, id: string)
    requires NoneCovered(local, id, d)
    ensures kept.Some? ==> kept.value in Candidates(kept, local, d, id)
    ensures forall y :: y in local && y.id == id ==> y in Candidates(kept, local, d, id)
    ensures forall y :: y in Candidates(kept, local, d, id) ==> kept == Some(y) || (y in local && y.id == id)
  {
    if local != [] {
      var n := |local| - 1;
      assert local == local[..n] + [local[n]];
      CandidatesGrow(kept, local[..n], d, id);
    }
  }

  lemma {:induction false} UniqueLastKept(list: seq<Option<Item>>, d: Deletions, x: Item)
    requires UniqueInFile(list) && Some(x) in list && !Gone(x, d)
    ensures LastKept(list, d, x.id) == Some(x)
  {
    var n := |list| - 1;
    if list[n] != Some(x) {
      var i :| 0 <= i < |list| && list[i] == Some(x);
      assert list[..n][i] == Some(x);
      UniqueLastKept(list[..n], d, x);
    }
  }

  lemma {:induction false} LastKeptIsIn(list: seq<Option<Item>>, d: Deletions, id: string)
    ensures LastKept(list, d, id).Some? ==> LastKept(list, d, id) in list
  {
    if list != [] { LastKeptIsIn(list[..|list| - 1], d, id); }
  }

  /** Of a copy that the file or the state holds, a merge keeps a copy at least as new. */
  lemma SurvivesMerge(native: seq<Option<Item>>, local: seq<Item>, x: Item, now: Deletions, d: Deletions) returns (y: Item)
    requires (UniqueInFile(native) && Some(x) in native) || x in local
    requires !Gone(x, d) && TimeOf(now, x.id) <= TimeOf(d, x.id) && NoneCovered(local, x.id, d)
    ensures y in MergedItems(Some(native), local, now) && y.id == x.id && y.updatedAt >= x.updatedAt
  {
    if Some(x) in native && UniqueInFile(native) { UniqueLastKept(native, now, x); }
    LastKeptIsKept(native, now, x.id);
    var list := Candidates(LastKept(native, now, x.id), local, now, x.id);
    CandidatesGrow(LastKept(native, now, x.id), local, now, x.id);
    assert x in list;
    var k := NewestIsNewest(list);
    y := list[k];
    var j :| 0 <= j < |list| && list[j] == x;
    assert y in list;
    MergeItemsPointwise(native, local, now, y);
  }

  /** A copy of the item in the file or in one of the saved states. */
  predicate Held(file: Option<Native>, saves: seq<State>, x: Item) {
    InFile(file, x) || exists k :: 0 <= k < |saves| && x in saves[k].items
  }

  predicate InFile(file: Option<Native>, x: Item) {
    file.Some? && file.value.items.Some? && Some(x) in file.value.items.value
  }

  /** The first list of the run holds each item once: the file's, or without one the first state's. */
  predicate StartsUnique(file: Option<Native>, saves: seq<State>)
    requires saves != []
  {
    if file.Some? && file.value.items.Some? then UniqueInFile(file.value.items.value) else UniqueIds(saves[0].items)
  }

  lemma LivingIsUnique(list: seq<Item>, d: Deletions)
    requires UniqueIds(list)
    ensures UniqueIds(Living(list, d))
  {
    var at := LivingPicks(list, d);
  }

  lemma {:induction false} RunIsUnique(file: Option<Native>, saves: seq<State>)
    requires saves != [] && StartsUnique(file, saves)
    ensures UniqueIds(SaveAll(file, saves).items)
  {
    var n := |saves| - 1;
    var before, d := FileAfter(file, saves[..n]), SaveAll(file, saves).deletedItemIds;
    if before.Some? {
      if before.value.items.Some? {
        MergeItemsPointwise(before.value.items.value, saves[n].items, d, Item("", 0, ""));
      } else {
        LivingIsUnique(saves[n].items, d);
      }
    }
  }

  /** Nothing is invented: every item that a run ends with was in the file or in a saved state. */
  lemma {:induction false} NothingInvented(file: Option<Native>, saves: seq<State>, x: Item)
    requires saves != [] && x in SaveAll(file, saves).items
    ensures Held(file, saves, x)
  {
    var n := |saves| - 1;
    var before := FileAfter(file, saves[..n]);
    if x !in saves[n].items {
      MergeInventsNothing(saves[n], before, x);
      if n > 0 {
        FileAfterSaves(file, saves[..n]);
        NothingInvented(file, saves[..n], x);
        HeldLonger(file, saves, x);
      }
    }
  }

  lemma HeldLonger(file: Option<Native>, saves: seq<State>, x: Item)
    requires saves != [] && Held(file, saves[..|saves| - 1], x)
    ensures Held(file, saves, x)
  {
    var n := |saves| - 1;
    if !InFile(file, x) {
      var k :| 0 <= k < n && x in saves[..n][k].items;
      assert x in saves[k].items;
    }
  }

  lemma MergeInventsNothing(s: State, file: Option<Native>, x: Item)
    requires x in Merged(s, file).items
    ensures x in s.items || InFile(file, x)
  {
    if file.Some? {
      var d := Merged(s, file).deletedItemIds;
      if file.value.items.Some? {
        MergeItemsPointwise(file.value.items.value, s.items, d, x);
        LastKeptIsIn(file.value.items.value, d, x.id);
        CandidatesAreHeld(LastKept(file.value.items.value, d, x.id), s.items, d, x.id);
        NewestIsOne(Candidates(LastKept(file.value.items.value, d, x.id), s.items, d, x.id));
      } else {
        var at := LivingPicks(s.items, d);
        PicksIn(s.items, Sparing((y: Item) => Gone(y, d)), Living(s.items, d), at, x);
      }
    }
  }

  lemma NewestIsOne(list: seq<Item>)
    ensures Newest(list).Some? ==> Newest(list).value in list
  {
    if list != [] { var k := NewestIsNewest(list); }
  }

  lemma {:induction false} CandidatesAreHeld(kept: Option<Item>, local: seq<Item>, d: Deletions, id: string)
    ensures forall y :: y in Candidates(kept, local, d, id) ==> kept == Some(y) || y in local
  {
    if local != [] {
      var n := |local| - 1;
      CandidatesAreHeld(kept, local[..n], d, id);
      assert local == local[..n] + [local[n]];
    }
  }

  /** What was saved meanwhile survives stale saves: unless a deletion in the end covers it, or covers
      a copy that one of the saved states still held, the run ends with a copy at least as new, which
      the file or one of the states held. */
  lemma NewerCopySurvives(file: Option<Native>, saves: seq<State>, x: Item, d: Deletions) returns (y: Item)
    requires saves != [] && StartsUnique(file, saves) && Held(file, saves, x) && !Gone(x, d)
    requires TimeOf(SaveAll(file, saves).deletedItemIds, x.id) <= TimeOf(d, x.id)
    requires forall k :: 0 <= k < |saves| ==> NoneCovered(saves[k].items, x.id, d)
    ensures y in SaveAll(file, saves).items && y.id == x.id && y.updatedAt >= x.updatedAt
    ensures UniqueIds(SaveAll(file, saves).items) && Held(file, saves, y)
  {
    y := CopySurvives(file, saves, x, d);
    RunIsUnique(file, saves);
    NothingInvented(file, saves, y);
  }

  lemma {:induction false} CopySurvives(file: Option<Native>, saves: seq<State>, x: Item, d: Deletions) returns (y: Item)
    requires saves != [] && StartsUnique(file, saves) && Held(file, saves, x) && !Gone(x, d)
    requires TimeOf(SaveAll(file, saves).deletedItemIds, x.id) <= TimeOf(d, x.id)
    requires forall k :: 0 <= k < |saves| ==> NoneCovered(saves[k].items, x.id, d)
    ensures y in SaveAll(file, saves).items && y.id == x.id && y.updatedAt >= x.updatedAt
  {
    var n := |saves| - 1;
    var before := FileAfter(file, saves[..n]);
    MergedMarker(saves[n], before, x.id);
    if x in saves[n].items || n == 0 {
      y := SurvivesSave(saves[n], before, x, d);
    } else {
      var init := saves[..n];
      HeldBefore(file, saves, x);
      assert TimeOf(SaveAll(file, init).deletedItemIds, x.id) <= TimeOf(d, x.id) by { FileAfterSaves(file, init); }
      var z := CopySurvives(file, init, x, d);
      WrittenOnce(file, init, z);
      y := SurvivesSave(saves[n], before, z, d);
    }
  }

  lemma WrittenOnce(file: Option<Native>, saves: seq<State>, x: Item)
    requires saves != [] && StartsUnique(file, saves) && x in SaveAll(file, saves).items
    ensures InFile(FileAfter(file, saves), x) && UniqueInFile(FileAfter(file, saves).value.items.value)
  {
    FileAfterSaves(file, saves);
    RunIsUnique(file, saves);
    var items := SaveAll(file, saves).items;
    var i :| 0 <= i < |items| && items[i] == x;
    assert Somes(items)[i] == Some(x);
  }

  lemma HeldBefore(file: Option<Native>, saves: seq<State>, x: Item)
    requires saves != [] && Held(file, saves, x) && x !in saves[|saves| - 1].items
    ensures Held(file, saves[..|saves| - 1], x)
  {
    var n := |saves| - 1;
    if !InFile(file, x) {
      var k :| 0 <= k < |saves| && x in saves[k].items;
      assert saves[..n][k] == saves[k];
    }
  }

  lemma SurvivesSave(s: State, file: Option<Native>, x: Item, d: Deletions) returns (y: Item)
    requires x in s.items || (InFile(file, x) && UniqueInFile(file.value.items.value))
    requires !Gone(x, d) && TimeOf(Merged(s, file).deletedItemIds, x.id) <= TimeOf(d, x.id) && NoneCovered(s.items, x.id, d)
    ensures y in Merged(s, file).items && y.id == x.id && y.updatedAt >= x.updatedAt
  {
    y := x;
    if file.Some? {
      var now := Merged(s, file).deletedItemIds;
      if file.value.items.Some? {
        y := SurvivesMerge(file.value.items.value, s.items, x, now, d);
      } else {
        var at := LivingPicks(s.items, now);
        PicksIn(s.items, Sparing((y: Item) => Gone(y, now)), Living(s.items, now), at, x);
      }
    }
  }
}
