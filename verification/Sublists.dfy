/** Lists that hold some of the entries of another list, in its order. */
module Sublists {
  import opened Common

  /** `kept` is what `pick` makes of the entries of `list` at the increasing places `at`; of all other
      entries it makes nothing. */
  ghost predicate Picks<T, U>(list: seq<T>, pick: T -> Option<U>, kept: seq<U>, at: seq<nat>) {
    Places(list, pick, kept, at) && Increasing(at) && AllFound(list, pick, at)
  }

  ghost predicate Places<T, U>(list: seq<T>, pick: T -> Option<U>, kept: seq<U>, at: seq<nat>) {
    |at| == |kept| && forall j :: 0 <= j < |at| ==> at[j] < |list| && pick(list[at[j]]) == Some(kept[j])
  }

  predicate Increasing(at: seq<nat>) {
    forall i, j :: 0 <= i < j < |at| ==> at[i] < at[j]
  }

  ghost predicate AllFound<T, U>(list: seq<T>, pick: T -> Option<U>, at: seq<nat>) {
    forall i: nat :: i < |list| ==> (i in at <==> pick(list[i]).Some?)
  }

  /** What is left when the entries that `drop` holds of are taken out. */
  function Sparing<T>(drop: T -> bool): T -> Option<T> {
    x => if drop(x) then None else Some(x)
  }

  lemma PicksIn<T, U>(list: seq<T>, pick: T -> Option<U>, kept: seq<U>, at: seq<nat>, y: U)
    requires Picks(list, pick, kept, at)
    ensures y in kept <==> exists x :: x in list && pick(x) == Some(y)
  {
    if y in kept {
      var j :| 0 <= j < |at| && kept[j] == y;
      assert at[j] in at && list[at[j]] in list;
    }
    if x :| x in list && pick(x) == Some(y) {
      var i: nat :| i < |list| && list[i] == x;
      var j :| 0 <= j < |at| && at[j] == i;
    }
  }

  lemma PicksSame<T, U>(list: seq<T>, pick: T -> Option<U>, alike: T -> Option<U>, kept: seq<U>, at: seq<nat>)
    requires Picks(list, pick, kept, at) && forall x :: x in list ==> pick(x) == alike(x)
    ensures Picks(list, alike, kept, at)
  {
  }

  lemma PlacesLast<T, U>(list: seq<T>, pick: T -> Option<U>, kept: seq<U>, at: seq<nat>)
    requires list != [] && Places(list[..|list| - 1], pick, kept, at)
    ensures Places(list, pick, kept, at)
    ensures pick(list[|list| - 1]).Some? ==> Places(list, pick, kept + [pick(list[|list| - 1]).value], at + [|list| - 1])
  {
    forall j | 0 <= j < |at| ensures at[j] < |list| && pick(list[at[j]]) == Some(kept[j]) {
      assert list[..|list| - 1][at[j]] == list[at[j]];
    }
  }

  lemma FoundLast<T, U>(list: seq<T>, pick: T -> Option<U>, at: seq<nat>)
    requires list != [] && AllFound(list[..|list| - 1], pick, at) && forall j :: 0 <= j < |at| ==> at[j] < |list| - 1
    ensures AllFound(list, pick, if pick(list[|list| - 1]).Some? then at + [|list| - 1] else at)
  {
    var n: nat := |list| - 1;
    assert n !in at;
    forall i: nat | i < |list| ensures i in at || (i == n && pick(list[n]).Some?) <==> pick(list[i]).Some? {
      if i < n { assert list[..n][i] == list[i]; }
    }
  }

  /** One more entry at the end. */
  lemma PicksLast<T, U>(list: seq<T>, pick: T -> Option<U>, kept: seq<U>, at: seq<nat>) returns (more: seq<nat>)
    requires list != [] && Picks(list[..|list| - 1], pick, kept, at)
    ensures Picks(list, pick, if pick(list[|list| - 1]).Some? then kept + [pick(list[|list| - 1]).value] else kept, more)
  {
    more := if pick(list[|list| - 1]).Some? then at + [|list| - 1] else at;
    PlacesLast(list, pick, kept, at);
    FoundLast(list, pick, at);
  }

  /** The places, one further on. */
  function Shifted(at: seq<nat>): (s: seq<nat>)
    ensures |s| == |at| && forall j :: 0 <= j < |at| ==> s[j] == at[j] + 1
  {
    seq(|at|, j requires 0 <= j < |at| => at[j] + 1)
  }

  lemma InShifted(at: seq<nat>, i: nat)
    ensures i in Shifted(at) <==> i > 0 && i - 1 in at
  {
    if i > 0 && i - 1 in at {
      var j :| 0 <= j < |at| && at[j] == i - 1;
      assert Shifted(at)[j] == i;
    }
  }

  lemma PlacesShifted<T, U>(list: seq<T>, pick: T -> Option<U>, kept: seq<U>, at: seq<nat>)
    requires list != [] && Places(list[1..], pick, kept, at)
    ensures Places(list, pick, kept, Shifted(at))
  {
    forall j | 0 <= j < |at| ensures Shifted(at)[j] < |list| && pick(list[Shifted(at)[j]]) == Some(kept[j]) {
      assert list[1..][at[j]] == list[Shifted(at)[j]];
    }
  }

  lemma FoundShifted<T, U>(list: seq<T>, pick: T -> Option<U>, at: seq<nat>)
    requires list != [] && AllFound(list[1..], pick, at)
    ensures AllFound(list, pick, if pick(list[0]).Some? then [0] + Shifted(at) else Shifted(at))
  {
    forall i: nat | i < |list| ensures i in Shifted(at) || (i == 0 && pick(list[0]).Some?) <==> pick(list[i]).Some? {
      InShifted(at, i);
      if i > 0 { assert list[1..][i - 1] == list[i]; }
    }
  }

  lemma PlacesAfterFirst<T, U>(list: seq<T>, pick: T -> Option<U>, kept: seq<U>, at: seq<nat>)
    requires list != [] && pick(list[0]).Some? && Places(list, pick, kept, at)
    ensures Places(list, pick, [pick(list[0]).value] + kept, [0] + at)
  {
  }

  lemma IncreasingShifted(at: seq<nat>)
    requires Increasing(at)
    ensures Increasing(Shifted(at)) && Increasing([0] + Shifted(at))
  {
    var s := Shifted(at);
    forall i, j | 0 <= i < j < |[0] + s| ensures ([0] + s)[i] < ([0] + s)[j] {
      assert ([0] + s)[j] == s[j - 1];
    }
  }

  /** One more entry at the beginning. */
  lemma PicksFirst<T, U>(list: seq<T>, pick: T -> Option<U>, kept: seq<U>, at: seq<nat>) returns (more: seq<nat>)
    requires list != [] && Picks(list[1..], pick, kept, at)
    ensures Picks(list, pick, (if pick(list[0]).Some? then [pick(list[0]).value] else []) + kept, more)
  {
    PlacesShifted(list, pick, kept, at);
    IncreasingShifted(at);
    FoundShifted(list, pick, at);
    if pick(list[0]).Some? {
      more := [0] + Shifted(at);
      PlacesAfterFirst(list, pick, kept, Shifted(at));
    } else {
      more := Shifted(at);
      assert [] + kept == kept;
    }
  }
}
