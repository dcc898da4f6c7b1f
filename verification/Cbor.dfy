/** The CBOR writer of the passkey provider (RFC 8949), and the COSE key it writes (section 7.1.1 of
    RFC 9053). */
module Cbor {
  import opened Arithmetic
  import opened Bytes
  import opened Common

  /** The non-negative values of a 32-bit signed integer. */
  type size = n: nat | n < 0x8000_0000

  type major = n: nat | n < 8

  // ---- heads

  /** `type(major, value)`; `(major shl 5) or x` is a sum, for `x` below 32. */
  function Head(m: major, value: size): seq<byte> {
    if value < 24 then [32 * m + value]
    else if value < 256 then [32 * m + 24, value]
    else if value < 65536 then [32 * m + 25, value / 256 % 256, value % 256]
    else [32 * m + 26, value / 0x100_0000 % 256, value / 0x1_0000 % 256, value / 256 % 256, value % 256]
  }

  /** Section 3 of RFC 8949: the major type, the argument and what follows. None if the head is
      incomplete, reserved or of indefinite length. */
  function ReadHead(s: seq<byte>): (r: Option<(major, nat, seq<byte>)>)
    ensures r.Some? ==> |r.value.2| < |s|
  {
    if s == [] then None
    else
      var m, info, tail := s[0] / 32, s[0] % 32, s[1..];
      if info < 24 then Some((m, info, tail))
      else if info == 24 then ReadArgument(m, tail, 1)
      else if info == 25 then ReadArgument(m, tail, 2)
      else if info == 26 then ReadArgument(m, tail, 4)
      else if info == 27 then ReadArgument(m, tail, 8)
      else None
  }

  function ReadArgument(m: major, s: seq<byte>, count: nat): (r: Option<(major, nat, seq<byte>)>)
    ensures r.Some? ==> |r.value.2| <= |s|
  {
    if |s| < count then None else Some((m, Value256(s[..count]), s[count..]))
  }

  lemma HeadRoundTrip(m: major, value: size, rest: seq<byte>)
    ensures ReadHead(Head(m, value) + rest) == Some((m, value, rest))
  {
    var h := Head(m, value);
    var s := h + rest;
    var count := |h| - 1;
    assert s[1..] == h[1..] + rest;
    assert s[1..][..count] == h[1..] && s[1..][count..] == rest;
    if value >= 24 { HeadArgument(m, value); }
  }

  lemma ValueOfOne(a: byte)
    ensures Value256([a]) == a
  {
    ValueAppend([], a);
    assert [] + [a] == [a] && Value256([]) == 0;
  }

  lemma ValueOfTwo(a: byte, b: byte)
    ensures Value256([a, b]) == 256 * a + b
  {
    ValueOfOne(a);
    ValueAppend([a], b);
    assert [a] + [b] == [a, b];
  }

  lemma ValueOfFour(a: byte, b: byte, c: byte, d: byte)
    ensures Value256([a, b, c, d]) == 0x100_0000 * a + 0x1_0000 * b + 256 * c + d
  {
    ValueOfTwo(a, b);
    ValueAppend([a, b], c);
    ValueAppend([a, b] + [c], d);
    assert [a, b] + [c] + [d] == [a, b, c, d];
  }

  lemma FourBytes(n: size)
    ensures 0x100_0000 * (n / 0x100_0000 % 256) + 0x1_0000 * (n / 0x1_0000 % 256) + 256 * (n / 256 % 256) + n % 256 == n
  {
    assert n / 0x1_0000 == n / 256 / 256 && n / 0x100_0000 == n / 0x1_0000 / 256;
  }

  lemma HeadArgument(m: major, value: size)
    requires value >= 24
    ensures Value256(Head(m, value)[1..]) == value
  {
    if value < 256 {
      ValueOfOne(value);
      assert Head(m, value)[1..] == [value];
    } else if value < 65536 {
      var a, b := value / 256 % 256, value % 256;
      ValueOfTwo(a, b);
      assert Head(m, value)[1..] == [a, b];
    } else {
      var a, b, c, d := value / 0x100_0000 % 256, value / 0x1_0000 % 256, value / 256 % 256, value % 256;
      ValueOfFour(a, b, c, d);
      FourBytes(value);
      assert Head(m, value)[1..] == [a, b, c, d];
    }
  }

  /** Section 4.2.1 of RFC 8949: no other head for the same major type and argument is shorter. */
  lemma HeadIsShortest(m: major, value: size, other: seq<byte>)
    requires ReadHead(other) == Some((m, value, []))
    ensures |Head(m, value)| <= |other|
    ensures |Head(m, value)| == |other| ==> Head(m, value) == other
  {
    var count := |other| - 1;
    if count > 0 {
      assert other[1..][..count] == other[1..];
      ValueBound(other[1..]);
      assert Pow256(1) == 256 && Pow256(2) == 65536;
      if |Head(m, value)| == |other| {
        HeadArgument(m, value);
        SameValueSameBytes(Head(m, value)[1..], other[1..]);
        assert other[0] == Head(m, value)[0];
        assert other == [other[0]] + other[1..] && Head(m, value) == [other[0]] + Head(m, value)[1..];
      }
    }
  }

  /** No head is the beginning of another. */
  lemma HeadsArePrefixFree(m: major, value: size, rest: seq<byte>, m': major, value': size, rest': seq<byte>)
    requires Head(m, value) + rest == Head(m', value') + rest'
    ensures m == m' && value == value' && rest == rest'
  {
    HeadRoundTrip(m, value, rest);
    HeadRoundTrip(m', value', rest');
  }

  // ---- data items

  datatype Item = Int(n: int) | Bytes(bytes: seq<byte>) | Text(bytes: seq<byte>) | Map(entries: seq<Entry>)

  datatype Entry = Entry(key: Item, value: Item)

  /** What the writer can be given: 32-bit integers and sizes. */
  predicate Writable(item: Item)
    decreases item
  {
    match item
    case Int(n) => -0x8000_0000 <= n < 0x8000_0000
    case Bytes(b) => |b| < 0x8000_0000
    case Text(b) => |b| < 0x8000_0000
    case Map(entries) => |entries| < 0x8000_0000 && AllWritable(entries)
  }

  predicate AllWritable(entries: seq<Entry>)
    decreases entries
  {
    entries == [] || (EntryWritable(entries[0]) && AllWritable(entries[1..]))
  }

  predicate EntryWritable(e: Entry)
    decreases e
  {
    Writable(e.key) && Writable(e.value)
  }

  function IntHead(n: int): seq<byte>
    requires -0x8000_0000 <= n < 0x8000_0000
  {
    if n >= 0 then Head(0, n) else Head(1, -1 - n)
  }

  function Written(item: Item): seq<byte>
    requires Writable(item)
    decreases item
  {
    match item
    case Int(n) => IntHead(n)
    case Bytes(b) => Head(2, |b|) + b
    case Text(b) => Head(3, |b|) + b
    case Map(entries) => Head(5, |entries|) + WrittenEntries(entries)
  }

  function WrittenEntries(entries: seq<Entry>): seq<byte>
    requires AllWritable(entries)
    decreases entries
  {
    if entries == [] then []
    else WrittenEntry(entries[0]) + WrittenEntries(entries[1..])
  }

  function WrittenEntry(e: Entry): seq<byte>
    requires EntryWritable(e)
    decreases e
  {
    Written(e.key) + Written(e.value)
  }

  /** A reader for these items. */
  function ReadItem(s: seq<byte>): (r: Option<(Item, seq<byte>)>)
    ensures r.Some? ==> |r.value.1| < |s|
    decreases |s|, 0
  {
    match ReadHead(s)
    case None => None
    case Some((m, value, rest)) =>
      if m == 0 then Some((Int(value), rest))
      else if m == 1 then Some((Int(-1 - value), rest))
      else if m == 2 then (if |rest| < value then None else Some((Bytes(rest[..value]), rest[value..])))
      else if m == 3 then (if |rest| < value then None else Some((Text(rest[..value]), rest[value..])))
      else if m == 5 then
        match ReadEntries(rest, value)
        case None => None
        case Some((entries, after)) => Some((Map(entries), after))
      else None
  }

  function ReadEntries(s: seq<byte>, count: nat): (r: Option<(seq<Entry>, seq<byte>)>)
    ensures r.Some? ==> |r.value.1| <= |s|
    decreases |s|, 1 + count
  {
    if count == 0 then Some(([], s))
    else
      match ReadItem(s)
      case None => None
      case Some((key, s1)) =>
        match ReadItem(s1)
        case None => None
        case Some((value, s2)) =>
          match ReadEntries(s2, count - 1)
          case None => None
          case Some((entries, after)) => Some(([Entry(key, value)] + entries, after))
  }

  /** Whatever is written can be read back, and the reader stops where the writer did. */
  lemma {:induction false} ItemRoundTrip(item: Item, rest: seq<byte>)
    requires Writable(item)
    ensures ReadItem(Written(item) + rest) == Some((item, rest))
    decreases item
  {
    match item
    case Int(n) => HeadRoundTrip(if n >= 0 then 0 else 1, if n >= 0 then n else -1 - n, rest);
    case Bytes(b) => StringRoundTrip(2, b, rest);
    case Text(b) => StringRoundTrip(3, b, rest);
    case Map(entries) =>
      var more := WrittenEntries(entries) + rest;
      assert Written(item) + rest == Head(5, |entries|) + more;
      HeadRoundTrip(5, |entries|, more);
      EntriesRoundTrip(entries, rest);
  }

  lemma StringRoundTrip(m: major, b: seq<byte>, rest: seq<byte>)
    requires (m == 2 || m == 3) && |b| < 0x8000_0000
    ensures ReadItem(Head(m, |b|) + b + rest) == Some((if m == 2 then Bytes(b) else Text(b), rest))
  {
    assert Head(m, |b|) + b + rest == Head(m, |b|) + (b + rest);
    HeadRoundTrip(m, |b|, b + rest);
    assert (b + rest)[..|b|] == b && (b + rest)[|b|..] == rest;
  }

  lemma {:induction false} EntriesRoundTrip(entries: seq<Entry>, rest: seq<byte>)
    requires AllWritable(entries)
    ensures ReadEntries(WrittenEntries(entries) + rest, |entries|) == Some((entries, rest))
    decreases entries
  {
    if entries == [] {
      assert WrittenEntries(entries) + rest == rest;
    } else {
      var more := WrittenEntries(entries[1..]) + rest;
      assert WrittenEntries(entries) + rest == WrittenEntry(entries[0]) + more;
      EntryRoundTrip(entries[0], more);
      EntriesRoundTrip(entries[1..], rest);
      assert entries == [entries[0]] + entries[1..];
    }
  }

  lemma {:induction false} EntryRoundTrip(e: Entry, more: seq<byte>)
    requires EntryWritable(e)
    ensures ReadItem(WrittenEntry(e) + more) == Some((e.key, Written(e.value) + more))
    ensures ReadItem(Written(e.value) + more) == Some((e.value, more))
    decreases e
  {
    assert WrittenEntry(e) + more == Written(e.key) + (Written(e.value) + more);
    ItemRoundTrip(e.key, Written(e.value) + more);
    ItemRoundTrip(e.value, more);
  }

  // ---- the writer

  class Writer {
    var out: seq<byte>

    constructor ()
      ensures out == []
    {
      out := [];
    }

    method Type(m: major, value: size)
      modifies this
      ensures out == old(out) + Head(m, value)
    {
      if value < 24 {
        out := out + [32 * m + value];
      } else if value < 256 {
        out := out + [32 * m + 24];
        out := out + [value];
      } else if value < 65536 {
        out := out + [32 * m + 25];
        out := out + [value / 256 % 256];
        out := out + [value % 256];
      } else {
        out := out + [32 * m + 26];
        out := out + [value / 0x100_0000 % 256];
        out := out + [value / 0x1_0000 % 256];
        out := out + [value / 256 % 256];
        out := out + [value % 256];
      }
    }

    method PutMap(count: size)
      modifies this
      ensures out == old(out) + Head(5, count)
    {
      Type(5, count);
    }

    method PutInt(value: int)
      requires -0x8000_0000 <= value < 0x8000_0000
      modifies this
      ensures out == old(out) + Written(Int(value))
    {
      if value >= 0 { Type(0, value); } else { Type(1, -1 - value); }
    }

    method PutText(bytes: seq<byte>)
      requires |bytes| < 0x8000_0000
      modifies this
      ensures out == old(out) + Written(Text(bytes)) == old(out) + (Head(3, |bytes|) + bytes)
    {
      Type(3, |bytes|);
      out := out + bytes;
    }

    method PutBytes(value: seq<byte>)
      requires |value| < 0x8000_0000
      modifies this
      ensures out == old(out) + Written(Bytes(value)) == old(out) + (Head(2, |value|) + value)
    {
      Type(2, |value|);
      out := out + value;
    }
  }

  // ---- coordinates

  /** `BigInteger.toByteArray` of a non-negative number: the shortest two's complement. */
  function ToByteArray(v: nat): (raw: seq<byte>)
    ensures raw != []
  {
    if v < 128 then [v] else ToByteArray(v / 256) + [v % 256]
  }

  function Zeros(n: nat): (s: seq<byte>)
    ensures |s| == n
  {
    seq(n, i => 0)
  }

  const COORDINATE_BYTES := 32

  /** `coordinate`, for coordinates of `size` bytes. */
  function Fitted(v: nat, size: nat): seq<byte> {
    var raw := ToByteArray(v);
    if |raw| == size then raw
    else if |raw| > size then raw[|raw| - size..]
    else Zeros(size - |raw|) + raw
  }

  function Coordinate(v: nat): seq<byte> {
    Fitted(v, COORDINATE_BYTES)
  }

  lemma {:induction false} ToByteArrayValue(v: nat)
    ensures Value256(ToByteArray(v)) == v
  {
    if v >= 128 {
      ToByteArrayValue(v / 256);
      ValueAppend(ToByteArray(v / 256), v % 256);
    } else {
      ValueAppend([], v);
      assert [] + [v] == [v] && Value256([]) == 0;
    }
  }

  lemma {:induction false} ZerosValue(n: nat)
    ensures Value256(Zeros(n)) == 0
  {
    if n > 0 {
      ZerosValue(n - 1);
      assert Zeros(n)[..n - 1] == Zeros(n - 1);
    }
  }

  lemma SuffixValue(raw: seq<byte>, k: nat)
    requires k <= |raw|
    ensures Value256(raw[k..]) == Value256(raw) % Pow256(|raw| - k)
  {
    assert raw == raw[..k] + raw[k..];
    ValueConcat(raw[..k], raw[k..]);
    ValueBound(raw[k..]);
    ModUnique(Value256(raw), Pow256(|raw| - k), Value256(raw[..k]), Value256(raw[k..]));
  }

  lemma {:induction false} ZerosInFront(count: nat, raw: seq<byte>)
    ensures Value256(Zeros(count) + raw) == Value256(raw)
  {
    if raw == [] {
      ZerosValue(count);
      assert Zeros(count) + raw == Zeros(count);
    } else {
      var n := |raw| - 1;
      ZerosInFront(count, raw[..n]);
      assert Zeros(count) + raw == (Zeros(count) + raw[..n]) + [raw[n]];
      ValueAppend(Zeros(count) + raw[..n], raw[n]);
    }
  }

  lemma PaddedBound(raw: seq<byte>, size: nat)
    requires |raw| <= size
    ensures Value256(raw) < Pow256(size)
  {
    var fit := Zeros(size - |raw|) + raw;
    ZerosInFront(size - |raw|, raw);
    ValueBound(fit);
    assert |fit| == size;
  }

  lemma PaddedValue(raw: seq<byte>, size: nat)
    requires |raw| <= size
    ensures Value256(Zeros(size - |raw|) + raw) == Value256(raw) % Pow256(size)
  {
    assert Value256(Zeros(size - |raw|) + raw) == Value256(raw) by { ZerosInFront(size - |raw|, raw); }
    assert Value256(raw) % Pow256(size) == Value256(raw) by {
      PaddedBound(raw, size);
      ModSmall(Value256(raw), Pow256(size));
    }
  }

  lemma FittedValue(v: nat, size: nat)
    ensures |Fitted(v, size)| == size && Value256(Fitted(v, size)) == v % Pow256(size)
  {
    var raw := ToByteArray(v);
    assert Value256(raw) == v by { ToByteArrayValue(v); }
    if |raw| >= size {
      assert raw[|raw| - size..] == Fitted(v, size);
      SuffixValue(raw, |raw| - size);
    } else {
      PaddedValue(raw, size);
    }
  }

  /** A coordinate is always 32 bytes long, and it keeps the value exactly when it is below 2^256. */
  lemma CoordinateValue(v: nat)
    ensures |Coordinate(v)| == COORDINATE_BYTES
    ensures Value256(Coordinate(v)) == v <==> v < Pow256(COORDINATE_BYTES)
  {
    FittedValue(v, COORDINATE_BYTES);
    ModSmall(v, Pow256(COORDINATE_BYTES));
  }

  // ---- the COSE key

  function CoseKey(x: nat, y: nat): Item {
    Map([Entry(Int(1), Int(2)), Entry(Int(3), Int(-7)), Entry(Int(-1), Int(1)),
         Entry(Int(-2), Bytes(Coordinate(x))), Entry(Int(-3), Bytes(Coordinate(y)))])
  }

  lemma {:induction false} AllEntriesWritable(entries: seq<Entry>)
    requires forall i :: 0 <= i < |entries| ==> EntryWritable(entries[i])
    ensures AllWritable(entries)
  {
    if entries != [] { AllEntriesWritable(entries[1..]); }
  }

  lemma CoseKeyWritable(x: nat, y: nat)
    ensures Writable(CoseKey(x, y)) && AllWritable(CoseKey(x, y).entries)
    ensures |Coordinate(x)| == |Coordinate(y)| == COORDINATE_BYTES
    ensures var e := CoseKey(x, y).entries;
      && |e| == 5 && e[0].key == Int(1) && e[0].value == Int(2) && e[1].key == Int(3) && e[1].value == Int(-7) && e[2].key == Int(-1)
      && e[2].value == Int(1) && e[3].key == Int(-2) && e[3].value == Bytes(Coordinate(x)) && e[4].key == Int(-3) && e[4].value == Bytes(Coordinate(y))
  {
    CoordinateValue(x);
    CoordinateValue(y);
    AllEntriesWritable(CoseKey(x, y).entries);
  }

  lemma {:induction false} NextEntry(entries: seq<Entry>, i: nat)
    requires AllWritable(entries) && i < |entries|
    ensures AllWritable(entries[..i]) && AllWritable(entries[..i + 1]) && EntryWritable(entries[i])
    ensures WrittenEntries(entries[..i + 1]) == WrittenEntries(entries[..i]) + WrittenEntry(entries[i])
    decreases i
  {
    if i == 0 {
      assert entries[..1] == [entries[0]] && entries[..1][1..] == [];
    } else {
      NextEntry(entries[1..], i - 1);
      assert entries[..i + 1][1..] == entries[1..][..i] && entries[..i][1..] == entries[1..][..i - 1];
    }
  }

  lemma AppendEntry(out: seq<byte>, head: seq<byte>, entries: seq<Entry>, i: nat)
    requires AllWritable(entries) && i < |entries| && AllWritable(entries[..i]) && out == head + WrittenEntries(entries[..i])
    ensures AllWritable(entries[..i + 1]) && EntryWritable(entries[i])
    ensures out + Written(entries[i].key) + Written(entries[i].value) == head + WrittenEntries(entries[..i + 1])
  {
    NextEntry(entries, i);
    Regroup(out, head, WrittenEntries(entries[..i]), Written(entries[i].key), Written(entries[i].value));
  }

  lemma Regroup(out: seq<byte>, head: seq<byte>, before: seq<byte>, key: seq<byte>, value: seq<byte>)
    requires out == head + before
    ensures out + key + value == head + (before + (key + value))
  {
  }

  method CosePublicKey(x: nat, y: nat) returns (key: seq<byte>)
    ensures Writable(CoseKey(x, y)) && key == Written(CoseKey(x, y))
  {
    CoseKeyWritable(x, y);
    ghost var e := CoseKey(x, y).entries;
    var w := new Writer();
    w.PutMap(5);
    ghost var head := Head(5, 5);
    AppendEntry(w.out, head, e, 0);
    w.PutInt(1); w.PutInt(2);
    AppendEntry(w.out, head, e, 1);
    w.PutInt(3); w.PutInt(-7);
    AppendEntry(w.out, head, e, 2);
    w.PutInt(-1); w.PutInt(1);
    AppendEntry(w.out, head, e, 3);
    w.PutInt(-2); w.PutBytes(Coordinate(x));
    AppendEntry(w.out, head, e, 4);
    w.PutInt(-3); w.PutBytes(Coordinate(y));
    assert e[..5] == e;
    key := w.out;
  }

  /** The bytes themselves: key type EC2 under 1, algorithm ES256 (-7) under 3, curve P-256 under -1,
      and the coordinates under -2 and -3. */
  lemma CoseKeyBytes(x: nat, y: nat)
    ensures Writable(CoseKey(x, y))
    ensures Written(CoseKey(x, y))
         == [0xA5, 0x01, 0x02, 0x03, 0x26, 0x20, 0x01, 0x21, 0x58, 0x20] + Coordinate(x) + ([0x22, 0x58, 0x20] + Coordinate(y))
  {
    CoseKeyWritable(x, y);
    CoordinateEntry(Int(-2), 0x21, Coordinate(x));
    CoordinateEntry(Int(-3), 0x22, Coordinate(y));
    var e := CoseKey(x, y).entries;
    FiveEntries(e, Coordinate(x), [0x22, 0x58, 0x20] + Coordinate(y));
    assert Written(CoseKey(x, y)) == [0xA5] + WrittenEntries(e);
  }

  lemma FiveEntries(e: seq<Entry>, a: seq<byte>, b: seq<byte>)
    requires |e| == 5 && AllWritable(e) && forall i :: 0 <= i < 5 ==> EntryWritable(e[i])
    requires WrittenEntry(e[0]) == [0x01, 0x02] && WrittenEntry(e[1]) == [0x03, 0x26] && WrittenEntry(e[2]) == [0x20, 0x01]
    requires WrittenEntry(e[3]) == [0x21, 0x58, 0x20] + a && WrittenEntry(e[4]) == b
    ensures [0xA5] + WrittenEntries(e) == [0xA5, 0x01, 0x02, 0x03, 0x26, 0x20, 0x01, 0x21, 0x58, 0x20] + a + b
  {
    assert e == [e[0], e[1]] + ([e[2], e[3]] + [e[4]]);
    TwoEntries(e[0], e[1], [e[2], e[3]] + [e[4]]);
    TwoEntries(e[2], e[3], [e[4]]);
    FirstEntry([e[4]]);
    Joined(a, b);
  }

  lemma Joined(a: seq<byte>, b: seq<byte>)
    ensures [0xA5] + ([0x01, 0x02] + [0x03, 0x26] + ([0x20, 0x01] + ([0x21, 0x58, 0x20] + a) + b))
         == [0xA5, 0x01, 0x02, 0x03, 0x26, 0x20, 0x01, 0x21, 0x58, 0x20] + a + b
  {
  }

  lemma CoordinateEntry(k: Item, first: byte, c: seq<byte>)
    requires k.Int? && -24 <= k.n < 0 && first == 0x1F - k.n && |c| == COORDINATE_BYTES
    ensures EntryWritable(Entry(k, Bytes(c))) && WrittenEntry(Entry(k, Bytes(c))) == [first, 0x58, 0x20] + c
  {
  }

  lemma FirstEntry(entries: seq<Entry>)
    requires AllWritable(entries) && entries != []
    ensures EntryWritable(entries[0]) && AllWritable(entries[1..])
    ensures WrittenEntries(entries) == WrittenEntry(entries[0]) + WrittenEntries(entries[1..])
  {
  }

  lemma TwoEntries(a: Entry, b: Entry, rest: seq<Entry>)
    requires AllWritable([a, b] + rest)
    ensures EntryWritable(a) && EntryWritable(b) && AllWritable(rest)
    ensures WrittenEntries([a, b] + rest) == WrittenEntry(a) + WrittenEntry(b) + WrittenEntries(rest)
  {
    FirstEntry([a, b] + rest);
    assert ([a, b] + rest)[1..] == [b] + rest;
    FirstEntry([b] + rest);
    assert ([b] + rest)[1..] == rest;
  }

  /** A reader of CBOR finds the five entries of an EC2 key with the two coordinates. */
  lemma CoseKeyReadsBack(x: nat, y: nat, rest: seq<byte>)
    requires x < Pow256(COORDINATE_BYTES) && y < Pow256(COORDINATE_BYTES)
    ensures Writable(CoseKey(x, y)) && ReadItem(Written(CoseKey(x, y)) + rest) == Some((CoseKey(x, y), rest))
    ensures var e := CoseKey(x, y).entries;
      && |e[3].value.bytes| == COORDINATE_BYTES && Value256(e[3].value.bytes) == x
      && |e[4].value.bytes| == COORDINATE_BYTES && Value256(e[4].value.bytes) == y
  {
    CoseKeyWritable(x, y);
    CoordinateValue(x);
    CoordinateValue(y);
    ItemRoundTrip(CoseKey(x, y), rest);
  }
}
