/** The greedy cut of the sealed records into push batches. `json` gives the UTF-8 bytes of a
    record's JSON text; nothing else about a record matters here. */
module Batching {
  import opened Common
  import opened SyncServer

  const MAX_BATCH_RECORDS := 100
  const MAX_BATCH_PAYLOAD_BYTES := 512 * 1024

  // ---- the JSON text of a batch

  const OPEN_BRACKET: byte := 0x5B
  const CLOSE_BRACKET: byte := 0x5D
  const COMMA: byte := 0x2C

  function Joined<T>(batch: seq<T>, json: T -> seq<byte>): seq<byte> {
    if batch == [] then []
    else if |batch| == 1 then json(batch[0])
    else json(batch[0]) + [COMMA] + Joined(batch[1..], json)
  }

  function JsonArray<T>(batch: seq<T>, json: T -> seq<byte>): seq<byte> {
    [OPEN_BRACKET] + Joined(batch, json) + [CLOSE_BRACKET]
  }

  function Size<T>(batch: seq<T>, json: T -> seq<byte>): nat {
    |JsonArray(batch, json)|
  }

  function Separator<T>(batch: seq<T>): nat {
    if |batch| > 0 then 1 else 0
  }

  lemma {:induction false} JoinedAppend<T>(batch: seq<T>, r: T, json: T -> seq<byte>)
    ensures |Joined(batch + [r], json)| == |Joined(batch, json)| + |json(r)| + Separator(batch)
  {
    if batch != [] {
      JoinedAppend(batch[1..], r, json);
      assert (batch + [r])[1..] == batch[1..] + [r];
    }
  }

  lemma SizeAppend<T>(batch: seq<T>, r: T, json: T -> seq<byte>)
    ensures Size(batch + [r], json) == Size(batch, json) + |json(r)| + Separator(batch)
  {
    JoinedAppend(batch, r, json);
  }

  // ---- splits of the record list

  function Flatten<T>(batches: seq<seq<T>>): seq<T> {
    if batches == [] then [] else batches[0] + Flatten(batches[1..])
  }

  lemma {:induction false} FlattenAppend<T>(batches: seq<seq<T>>, last: seq<T>)
    ensures Flatten(batches + [last]) == Flatten(batches) + last
  {
    if batches == [] {
      assert Flatten([last]) == last + Flatten<T>([]);
    } else {
      FlattenAppend(batches[1..], last);
      assert (batches + [last])[1..] == batches[1..] + [last];
    }
  }

  /** Within both limits, except that a record of its own may exceed the byte limit. */
  predicate WithinLimits<T>(batch: seq<T>, json: T -> seq<byte>) {
    && 1 <= |batch| <= 100
    && (|batch| == 1 || Size(batch, json) <= 524_288)
  }

  predicate AllWithinLimits<T>(batches: seq<seq<T>>, json: T -> seq<byte>) {
    forall i :: 0 <= i < |batches| ==> WithinLimits(batches[i], json)
  }

  /** Batch `i` could not have taken the first record of the batch after it. */
  predicate Full<T>(batches: seq<seq<T>>, json: T -> seq<byte>, i: nat)
    requires i + 1 < |batches|
  {
    batches[i + 1] != [] && !WithinLimits(batches[i] + [batches[i + 1][0]], json)
  }

  predicate NoneLeavesRoom<T>(batches: seq<seq<T>>, json: T -> seq<byte>) {
    forall i :: 0 <= i < |batches| - 1 ==> Full(batches, json, i)
  }

  // ---- src/desktop/sync.ts: buildPushBatches

  method BuildPushBatches<T>(records: seq<T>, json: T -> seq<byte>) returns (batches: seq<seq<T>>)
    ensures Flatten(batches) == records
    ensures AllWithinLimits(batches, json)
    ensures NoneLeavesRoom(batches, json)
  {
    batches := [];
    var current: seq<T> := [];
    var currentBytes := 2;
    for i := 0 to |records|
      invariant CutSoFar(batches, current, records[..i], json)
      invariant currentBytes == Size(current, json)
    {
      var record := records[i];
      assert records[..i + 1] == records[..i] + [record];
      SizeAppend(current, record, json);
      var recordBytes := |json(record)| + if |current| > 0 then 1 else 0;
      if |current| > 0 && (|current| >= MAX_BATCH_RECORDS || currentBytes + recordBytes > MAX_BATCH_PAYLOAD_BYTES) {
        CloseBatch(batches, current, record, records[..i], json);
        batches := batches + [current];
        current := [];
        currentBytes := 2;
        assert current + [record] == [record];
        SizeAppend(current, record, json);
      } else {
        ExtendBatch(batches, current, record, records[..i], json);
      }
      current := current + [record];
      currentBytes := currentBytes + |json(record)| + if |current| > 1 then 1 else 0;
    }
    assert records[..|records|] == records;
    if |current| > 0 {
      FlattenAppend(batches, current);
      batches := batches + [current];
    }
  }

  /** The closed batches and the open one hold `records` so far. */
  ghost predicate CutSoFar<T>(batches: seq<seq<T>>, current: seq<T>, records: seq<T>, json: T -> seq<byte>) {
    && Flatten(batches) + current == records
    && AllWithinLimits(batches, json)
    && (if current == [] then batches == [] else WithinLimits(current, json) && NoneLeavesRoom(batches + [current], json))
  }

  lemma CloseBatch<T>(batches: seq<seq<T>>, current: seq<T>, record: T, records: seq<T>, json: T -> seq<byte>)
    requires CutSoFar(batches, current, records, json) && current != [] && !WithinLimits(current + [record], json)
    ensures CutSoFar(batches + [current], [record], records + [record], json)
  {
    FlattenAppend(batches, current);
    var longer := batches + [current];
    var longest := longer + [[record]];
    forall i | 0 <= i < |longest| - 1 ensures Full(longest, json, i) {
      assert i < |longer| - 1 ==> Full(longer, json, i);
    }
  }

  lemma ExtendBatch<T>(batches: seq<seq<T>>, current: seq<T>, record: T, records: seq<T>, json: T -> seq<byte>)
    requires CutSoFar(batches, current, records, json) && WithinLimits(current + [record], json)
    ensures CutSoFar(batches, current + [record], records + [record], json)
  {
    var before := batches + [current];
    var after := batches + [current + [record]];
    forall i | 0 <= i < |after| - 1 ensures Full(after, json, i) {
      assert Full(before, json, i);
    }
  }

  // ---- greedy is optimal

  lemma {:induction false} JoinedShrinks<T>(batch: seq<T>, lo: nat, hi: nat, json: T -> seq<byte>)
    requires lo < hi <= |batch|
    ensures |Joined(batch[lo..hi], json)| <= |Joined(batch, json)|
    decreases |batch|
  {
    if hi < |batch| {
      var n := |batch| - 1;
      JoinedAppend(batch[..n], batch[n], json);
      assert batch[..n] + [batch[n]] == batch && batch[..n][lo..hi] == batch[lo..hi];
      JoinedShrinks(batch[..n], lo, hi, json);
    } else if lo > 0 {
      assert batch[1..][lo - 1..hi - 1] == batch[lo..hi];
      JoinedShrinks(batch[1..], lo - 1, hi - 1, json);
    } else {
      assert batch[lo..hi] == batch;
    }
  }

  /** Any run of records inside a batch within the limits is within the limits. */
  lemma PartWithinLimits<T>(batch: seq<T>, lo: nat, hi: nat, json: T -> seq<byte>)
    requires WithinLimits(batch, json) && lo < hi <= |batch|
    ensures WithinLimits(batch[lo..hi], json)
  {
    JoinedShrinks(batch, lo, hi, json);
  }

  predicate Suffix<T(==)>(s: seq<T>, whole: seq<T>) {
    |s| <= |whole| && whole[|whole| - |s|..] == s
  }

  /** However a rival split runs ahead, a greedy split of what is left needs no more batches. */
  lemma {:induction false} GreedyStaysAhead<T>(greedy: seq<seq<T>>, rival: seq<seq<T>>, json: T -> seq<byte>)
    requires AllWithinLimits(greedy, json) && NoneLeavesRoom(greedy, json) && AllWithinLimits(rival, json)
    requires Suffix(Flatten(greedy), Flatten(rival))
    ensures |greedy| <= |rival|
    decreases |rival|
  {
    if greedy != [] {
      assert WithinLimits(greedy[0], json);
      assert rival != [];
      var rest := Flatten(rival[1..]);
      if |Flatten(greedy)| <= |rest| {
        SuffixOfTail(Flatten(greedy), rival[0], rest);
        GreedyStaysAhead(greedy, rival[1..], json);
      } else {
        RivalStopsFirst(greedy, rival, json);
        DropHead(greedy[0], Flatten(greedy[1..]), Flatten(rival));
        SuffixOfTail(Flatten(greedy[1..]), rival[0], rest);
        TailNoneLeavesRoom(greedy, json);
        GreedyStaysAhead(greedy[1..], rival[1..], json);
      }
    }
  }

  lemma TailNoneLeavesRoom<T>(batches: seq<seq<T>>, json: T -> seq<byte>)
    requires AllWithinLimits(batches, json) && NoneLeavesRoom(batches, json) && batches != []
    ensures AllWithinLimits(batches[1..], json) && NoneLeavesRoom(batches[1..], json)
  {
    forall i | 0 <= i < |batches[1..]| - 1 ensures Full(batches[1..], json, i) {
      assert Full(batches, json, i + 1);
    }
  }

  lemma SuffixOfTail<T>(s: seq<T>, head: seq<T>, tail: seq<T>)
    requires |s| <= |tail| && Suffix(s, head + tail)
    ensures Suffix(s, tail)
  {
    var whole := head + tail;
    assert whole[|whole| - |s|..] == tail[|tail| - |s|..];
  }

  lemma DropHead<T>(head: seq<T>, s: seq<T>, whole: seq<T>)
    requires Suffix(head + s, whole)
    ensures Suffix(s, whole)
  {
    assert whole[|whole| - |head + s|..][|head|..] == whole[|whole| - |s|..];
    assert (head + s)[|head|..] == s;
  }

  /** If a greedy batch starts inside the rival's first batch, it reaches at least as far. */
  lemma RivalStopsFirst<T>(greedy: seq<seq<T>>, rival: seq<seq<T>>, json: T -> seq<byte>)
    requires AllWithinLimits(greedy, json) && NoneLeavesRoom(greedy, json) && AllWithinLimits(rival, json)
    requires greedy != [] && rival != [] && Suffix(Flatten(greedy), Flatten(rival))
    ensures |Flatten(greedy[1..])| <= |Flatten(rival[1..])|
  {
    if |Flatten(greedy[1..])| > |Flatten(rival[1..])| {
      RivalHoldsBoth(greedy, rival, json);
      assert false;
    }
  }

  /** Otherwise the rival's first batch holds the greedy batch and the record after it. */
  lemma RivalHoldsBoth<T>(greedy: seq<seq<T>>, rival: seq<seq<T>>, json: T -> seq<byte>)
    requires AllWithinLimits(greedy, json) && AllWithinLimits(rival, json)
    requires greedy != [] && rival != [] && Suffix(Flatten(greedy), Flatten(rival))
    requires |Flatten(greedy[1..])| > |Flatten(rival[1..])|
    ensures |greedy| > 1 && !Full(greedy, json, 0)
  {
    var mine, all := Flatten(greedy[1..]), Flatten(rival);
    assert WithinLimits(greedy[1], json) && mine[0] == greedy[1][0];
    var both := greedy[0] + [mine[0]];
    var lo := |all| - |greedy[0] + mine|;
    var hi := lo + |both|;
    assert rival[0][lo..hi] == both by {
      assert all == rival[0] + Flatten(rival[1..]);
      assert all[lo..] == greedy[0] + mine;
      assert rival[0][lo..hi] == all[lo..hi] == all[lo..][..hi - lo];
    }
    assert WithinLimits(rival[0], json);
    PartWithinLimits(rival[0], lo, hi, json);
  }

  /** No order-preserving split within the limits uses fewer batches. */
  lemma GreedyIsOptimal<T>(records: seq<T>, greedy: seq<seq<T>>, rival: seq<seq<T>>, json: T -> seq<byte>)
    requires Flatten(greedy) == records && AllWithinLimits(greedy, json) && NoneLeavesRoom(greedy, json)
    requires Flatten(rival) == records && AllWithinLimits(rival, json)
    ensures |greedy| <= |rival|
  {
    GreedyStaysAhead(greedy, rival, json);
  }

  /** The promises of `BuildPushBatches` leave exactly one result. */
  lemma {:induction false} GreedyIsUnique<T>(a: seq<seq<T>>, b: seq<seq<T>>, json: T -> seq<byte>)
    requires Flatten(a) == Flatten(b)
    requires AllWithinLimits(a, json) && NoneLeavesRoom(a, json)
    requires AllWithinLimits(b, json) && NoneLeavesRoom(b, json)
    ensures a == b
  {
    if a != [] {
      assert WithinLimits(a[0], json) && b != [] && WithinLimits(b[0], json);
      RivalStopsFirst(a, b, json);
      RivalStopsFirst(b, a, json);
      assert a[0] == Flatten(a)[..|a[0]|] == Flatten(b)[..|b[0]|] == b[0];
      assert Flatten(a[1..]) == Flatten(a)[|a[0]|..];
      assert Flatten(b[1..]) == Flatten(b)[|b[0]|..];
      TailNoneLeavesRoom(a, json);
      TailNoneLeavesRoom(b, json);
      GreedyIsUnique(a[1..], b[1..], json);
      assert a == [a[0]] + a[1..] && b == [b[0]] + b[1..];
    }
  }

  // ---- batches as protocol steps

  /** After `i` batches, the next batch is a non-empty head of the queue that is left, no longer
      than the server accepts, and taking it off leaves the batches after it. */
  lemma {:induction false} BatchIsHeadOfQueue<T>(batches: seq<seq<T>>, json: T -> seq<byte>, i: nat)
    requires AllWithinLimits(batches, json) && i < |batches|
    ensures var left := Flatten(batches[i..]);
      && 0 < |batches[i]| <= |left| && |batches[i]| <= 100
      && left[..|batches[i]|] == batches[i] && left[|batches[i]|..] == Flatten(batches[i + 1..])
  {
    assert WithinLimits(batches[i], json);
    assert batches[i..][1..] == batches[i + 1..];
  }
}
