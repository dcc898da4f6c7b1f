/** Saving the vault file: the state in memory is merged with what was saved meanwhile. Stamps are
    readings of one clock; zero stands for a missing or empty stamp. */
module StateMerge {
  import opened Common
  import opened OrderedMap

  type Time = nat

  type Deletions = map<string, Time>

  datatype Item = Item(id: string, updatedAt: Time, content: string)

  /** A passkey record. An empty `id` stands for a missing one. */
  datatype Rec = Rec(id: string, owner: string, updatedAt: Option<Time>, lastUsedAt: Option<Time>, createdAt: Option<Time>, content: string)

  /** `rest` is everything that is never merged. */
  datatype State = State(items: seq<Item>, sitePasskeys: seq<Rec>, pendingPasskeys: seq<Rec>,
                         deletedItemIds: Deletions, deletedSitePasskeyIds: Deletions, rest: string)

  /** The parsed vault file. A field that is not an array is None, and so is an array element that
      is not an item. */
  datatype Native = Native(items: Option<seq<Option<Item>>>, sitePasskeys: Option<seq<Rec>>, pendingPasskeys: Option<seq<Rec>>,
                           deletedItemIds: Deletions, deletedSitePasskeyIds: Deletions)

  // ---- deletion maps

  function TimeOf(d: Deletions, id: string): Time {
    if id in d then d[id] else 0
  }

  /** `isDeleted`. */
  predicate Deleted(id: string, updatedAt: Time, d: Deletions) {
    TimeOf(d, id) != 0 && updatedAt <= TimeOf(d, id)
  }

  predicate Gone(x: Item, d: Deletions) {
    Deleted(x.id, x.updatedAt, d)
  }

  method MergeDeletionMaps(native: Deletions, local: Deletions) returns (merged: Deletions)
    ensures merged.Keys == native.Keys + local.Keys
    ensures forall id :: TimeOf(merged, id) == Max(TimeOf(native, id), TimeOf(local, id))
  {
    merged := native;
    var rest := local.Keys;
    while rest != {}
      invariant rest <= local.Keys && merged.Keys == native.Keys + (local.Keys - rest)
      invariant forall id :: TimeOf(merged, id) == if id in rest then TimeOf(native, id) else Max(TimeOf(native, id), TimeOf(local, id))
    {
      var id :| id in rest;
      if id !in merged || merged[id] == 0 || local[id] >= merged[id] { merged := merged[id := local[id]]; }
      rest := rest - {id};
    }
  }

  function JoinDeletions(native: Deletions, local: Deletions): Deletions {
    map id | id in native.Keys + local.Keys :: Max(TimeOf(native, id), TimeOf(local, id))
  }

  lemma OneJoin(native: Deletions, local: Deletions, merged: Deletions)
    requires merged.Keys == native.Keys + local.Keys
    requires forall id :: TimeOf(merged, id) == Max(TimeOf(native, id), TimeOf(local, id))
    ensures merged == JoinDeletions(native, local)
  {
    forall id | id in merged ensures merged[id] == JoinDeletions(native, local)[id] {
      assert TimeOf(merged, id) == merged[id];
    }
  }

  // ---- items

  type ItemMap = seq<Entry<string, Item>>

  function KeepOne(m: ItemMap, e: Option<Item>, d: Deletions): ItemMap {
    if e.Some? && !Gone(e.value, d) then Put(m, e.value.id, e.value) else m
  }

  function KeepNative(list: seq<Option<Item>>, d: Deletions): ItemMap {
    if list == [] then [] else KeepOne(KeepNative(list[..|list| - 1], d), list[|list| - 1], d)
  }

  predicate Supersedes(x: Item, current: Option<Item>) {
    current.None? || x.updatedAt >= current.value.updatedAt
  }

  function LayOne(m: ItemMap, x: Item, d: Deletions): ItemMap {
    if Gone(x, d) then Drop(m, x.id)
    else if Supersedes(x, Get(m, x.id)) then Put(m, x.id, x)
    else m
  }

  function LayLocal(m: ItemMap, list: seq<Item>, d: Deletions): ItemMap {
    if list == [] then m else LayOne(LayLocal(m, list[..|list| - 1], d), list[|list| - 1], d)
  }

  function Living(list: seq<Item>, d: Deletions): seq<Item> {
    if list == [] then []
    else if Gone(list[|list| - 1], d) then Living(list[..|list| - 1], d)
    else Living(list[..|list| - 1], d) + [list[|list| - 1]]
  }

  function MergedItems(native: Option<seq<Option<Item>>>, local: seq<Item>, d: Deletions): seq<Item> {
    if native.None? then Living(local, d) else Values(LayLocal(KeepNative(native.value, d), local, d))
  }

  method MergeItems(native: Option<seq<Option<Item>>>, local: seq<Item>, d: Deletions) returns (items: seq<Item>)
    ensures items == MergedItems(native, local, d)
  {
    if native.None? {
      items := [];
      for i := 0 to |local|
        invariant items == Living(local[..i], d)
      {
        assert local[..i + 1][..i] == local[..i];
        if !Gone(local[i], d) { items := items + [local[i]]; }
      }
      assert local[..|local|] == local;
      return;
    }
    var merged: ItemMap := [];
    for i := 0 to |native.value|
      invariant merged == KeepNative(native.value[..i], d)
    {
      assert native.value[..i + 1][..i] == native.value[..i];
      var e := native.value[i];
      if e.Some? && !Gone(e.value, d) { merged := Put(merged, e.value.id, e.value); }
    }
    assert native.value[..|native.value|] == native.value;
    ghost var kept := merged;
    for i := 0 to |local|
      invariant merged == LayLocal(kept, local[..i], d)
    {
      assert local[..i + 1][..i] == local[..i];
      var item := local[i];
      if Gone(item, d) {
        merged := Drop(merged, item.id);
      } else {
        var current := Get(merged, item.id);
        if current.None? || item.updatedAt >= current.value.updatedAt { merged := Put(merged, item.id, item); }
      }
    }
    assert local[..|local|] == local;
    items := Values(merged);
  }

  // ---- passkey records

  /** Records without an identifier get a generated key. */
  datatype Key = Named(id: string) | NativeRecord(index: nat) | LocalRecord(index: nat)

  type RecMap = seq<Entry<Key, Rec>>

  function StampOf(r: Rec): Time {
    if r.updatedAt.Some? then r.updatedAt.value
    else if r.lastUsedAt.Some? then r.lastUsedAt.value
    else r.createdAt.GetOr(0)
  }

  predicate GoneRec(r: Rec, d: Deletions) {
    Deleted(r.id, StampOf(r), d)
  }

  function Anonymous(list: seq<Rec>): nat {
    if list == [] then 0 else Anonymous(list[..|list| - 1]) + if list[|list| - 1].id == "" then 1 else 0
  }

  function KeepRec(m: RecMap, r: Rec, index: nat, d: Deletions): RecMap {
    if r.id == "" then Put(m, NativeRecord(index), r)
    else if GoneRec(r, d) then m
    else Put(m, Named(r.id), r)
  }

  function KeepRecs(list: seq<Rec>, d: Deletions): RecMap {
    if list == [] then []
    else KeepRec(KeepRecs(list[..|list| - 1], d), list[|list| - 1], Anonymous(list[..|list| - 1]), d)
  }

  function LayRec(m: RecMap, r: Rec, index: nat, d: Deletions): RecMap {
    if r.id == "" then Put(m, LocalRecord(index), r)
    else if GoneRec(r, d) then Drop(m, Named(r.id))
    else Put(m, Named(r.id), r)
  }

  function LayRecs(m: RecMap, start: nat, list: seq<Rec>, d: Deletions): RecMap {
    if list == [] then m
    else LayRec(LayRecs(m, start, list[..|list| - 1], d), list[|list| - 1], start + Anonymous(list[..|list| - 1]), d)
  }

  function LivingRecs(list: seq<Rec>, d: Deletions): seq<Rec> {
    if list == [] then []
    else if list[|list| - 1].id != "" && GoneRec(list[|list| - 1], d) then LivingRecs(list[..|list| - 1], d)
    else LivingRecs(list[..|list| - 1], d) + [list[|list| - 1]]
  }

  function MergedRecs(native: Option<seq<Rec>>, local: seq<Rec>, d: Deletions): seq<Rec> {
    if native.None? then LivingRecs(local, d)
    else Values(LayRecs(KeepRecs(native.value, d), Anonymous(native.value), local, d))
  }

  method MergeRecords(native: Option<seq<Rec>>, local: seq<Rec>, d: Deletions) returns (records: seq<Rec>)
    ensures records == MergedRecs(native, local, d)
  {
    if native.None? {
      records := [];
      for i := 0 to |local|
        invariant records == LivingRecs(local[..i], d)
      {
        assert local[..i + 1][..i] == local[..i];
        if local[i].id == "" || !GoneRec(local[i], d) { records := records + [local[i]]; }
      }
      assert local[..|local|] == local;
      return;
    }
    var merged: RecMap := [];
    var anonymousIndex := 0;
    for i := 0 to |native.value|
      invariant merged == KeepRecs(native.value[..i], d) && anonymousIndex == Anonymous(native.value[..i])
    {
      assert native.value[..i + 1][..i] == native.value[..i];
      var record := native.value[i];
      if record.id == "" {
        merged := Put(merged, NativeRecord(anonymousIndex), record);
        anonymousIndex := anonymousIndex + 1;
      } else if !GoneRec(record, d) {
        merged := Put(merged, Named(record.id), record);
      }
    }
    assert native.value[..|native.value|] == native.value;
    ghost var kept, start := merged, anonymousIndex;
    for i := 0 to |local|
      invariant merged == LayRecs(kept, start, local[..i], d) && anonymousIndex == start + Anonymous(local[..i])
    {
      assert local[..i + 1][..i] == local[..i];
      var record := local[i];
      if record.id == "" {
        merged := Put(merged, LocalRecord(anonymousIndex), record);
        anonymousIndex := anonymousIndex + 1;
      } else if GoneRec(record, d) {
        merged := Drop(merged, Named(record.id));
      } else {
        merged := Put(merged, Named(record.id), record);
      }
    }
    assert local[..|local|] == local;
    records := Values(merged);
  }

  // ---- the whole state

  /** `mergeNativeState`: None stands for a missing or unreadable vault file. */
  function Merged(state: State, native: Option<Native>): State {
    if native.None? then state
    else
      var n := native.value;
      var deletedItemIds := JoinDeletions(n.deletedItemIds, state.deletedItemIds);
      var deletedSitePasskeyIds := JoinDeletions(n.deletedSitePasskeyIds, state.deletedSitePasskeyIds);
      State(MergedItems(n.items, state.items, deletedItemIds),
            MergedRecs(n.sitePasskeys, state.sitePasskeys, deletedSitePasskeyIds),
            MergedRecs(n.pendingPasskeys, state.pendingPasskeys, map[]),
            deletedItemIds, deletedSitePasskeyIds, state.rest)
  }

  method MergeNativeState(state: State, native: Option<Native>) returns (merged: State)
    ensures merged == Merged(state, native)
  {
    if native.None? { return state; }
    var n := native.value;
    var deletedItemIds := MergeDeletionMaps(n.deletedItemIds, state.deletedItemIds);
    OneJoin(n.deletedItemIds, state.deletedItemIds, deletedItemIds);
    var deletedSitePasskeyIds := MergeDeletionMaps(n.deletedSitePasskeyIds, state.deletedSitePasskeyIds);
    OneJoin(n.deletedSitePasskeyIds, state.deletedSitePasskeyIds, deletedSitePasskeyIds);
    var items := MergeItems(n.items, state.items, deletedItemIds);
    var sitePasskeys := MergeRecords(n.sitePasskeys, state.sitePasskeys, deletedSitePasskeyIds);
    var pendingPasskeys := MergeRecords(n.pendingPasskeys, state.pendingPasskeys, map[]);
    merged := State(items, sitePasskeys, pendingPasskeys, deletedItemIds, deletedSitePasskeyIds, state.rest);
  }

  function Somes<T>(list: seq<T>): (s: seq<Option<T>>)
    ensures |s| == |list| && forall i :: 0 <= i < |list| ==> s[i] == Some(list[i])
  {
    seq(|list|, i requires 0 <= i < |list| => Some(list[i]))
  }

  /** The vault file that a state is written to. */
  function FileOf(s: State): Native {
    Native(Some(Somes(s.items)), Some(s.sitePasskeys), Some(s.pendingPasskeys), s.deletedItemIds, s.deletedSitePasskeyIds)
  }

  // ---- src/desktop/delete-tombstones.ts and src/desktop/local-vault.ts

  function WithoutOwner(list: seq<Rec>, itemId: string): seq<Rec> {
    if list == [] then []
    else WithoutOwner(list[..|list| - 1], itemId) + if list[|list| - 1].owner == itemId then [] else [list[|list| - 1]]
  }

  /** Every passkey of the item that has a credential identifier gets a marker. */
  function MarkPasskeys(d: Deletions, list: seq<Rec>, itemId: string, now: Time): Deletions
    decreases |list|
  {
    if list == [] then d
    else if list[0].owner == itemId && list[0].id != "" then MarkPasskeys(d[list[0].id := now], list[1..], itemId, now)
    else MarkPasskeys(d, list[1..], itemId, now)
  }

  function WithoutId(items: seq<Item>, itemId: string): seq<Item> {
    if items == [] then []
    else WithoutId(items[..|items| - 1], itemId) + if items[|items| - 1].id == itemId then [] else [items[|items| - 1]]
  }

  /** Deleting an item: `markItemDeleted`, then its removal from the list. */
  function DeleteItem(s: State, itemId: string, now: Time): State {
    s.(items := WithoutId(s.items, itemId),
       sitePasskeys := WithoutOwner(s.sitePasskeys, itemId),
       deletedItemIds := s.deletedItemIds[itemId := now],
       deletedSitePasskeyIds := MarkPasskeys(s.deletedSitePasskeyIds, s.sitePasskeys, itemId, now))
  }

  function ClearDeleteMarkers(s: State, itemId: string): State {
    s.(deletedItemIds := s.deletedItemIds - {itemId})
  }

  /** The module variable that holds the vault file's contents: none before the vault is opened and
      after it is locked, then what was read or saved last. */
  class LocalVault {
    var nativeStateContents: Option<Native>

    constructor ()
      ensures nativeStateContents == None
    {
      nativeStateContents := None;
    }

    /** Without contents the state is saved as it is. */
    method SaveState(state: State)
      modifies this
      ensures old(nativeStateContents).None? ==> nativeStateContents == Some(FileOf(state))
      ensures nativeStateContents == Some(FileOf(Merged(state, old(nativeStateContents))))
    {
      var contents := MergeNativeState(state, nativeStateContents);
      nativeStateContents := Some(FileOf(contents));
    }
  }

  /** What the file holds after any number of saves, by anyone, of any states. */
  function FileAfter(file: Option<Native>, saves: seq<State>): Option<Native> {
    if saves == [] then file else Some(FileOf(Merged(saves[|saves| - 1], FileAfter(file, saves[..|saves| - 1]))))
  }

  /** The state that the last of them wrote. */
  function SaveAll(file: Option<Native>, saves: seq<State>): State
    requires saves != []
  {
    Merged(saves[|saves| - 1], FileAfter(file, saves[..|saves| - 1]))
  }
}
