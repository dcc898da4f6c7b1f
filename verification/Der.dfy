/** The DER writer for public keys (X.690) and a reader that takes its output apart again. */
module Der {
  import opened Bytes
  import opened Common

  /** Lengths are 64-bit unsigned integers. */
  type usize = n: nat | n < 0x1_0000_0000_0000_0000

  /** A growable byte vector. */
  class Vec {
    var bytes: seq<byte>

    constructor (bytes: seq<byte>)
      ensures this.bytes == bytes
    {
      this.bytes := bytes;
    }

    method Push(b: byte)
      modifies this
      ensures bytes == old(bytes) + [b]
    {
      bytes := bytes + [b];
    }

    method Extend(more: seq<byte>)
      modifies this
      ensures bytes == old(bytes) + more
    {
      bytes := bytes + more;
    }
  }

  // ---- desktop/src/native_host_webauthn_crypto.rs

  /** The bytes of a positive number without leading zeros. */
  function Shortest(n: nat): (s: seq<byte>)
    ensures n > 0 ==> s != [] && s[0] != 0
  {
    if n == 0 then [] else Shortest(n / 256) + [n % 256]
  }

  function DerLen(len: usize): seq<byte> {
    if len < 128 then [len]
    else
      ShortestBound(len, 8);
      [0x80 + |Shortest(len)|] + Shortest(len)
  }

  function DerTagged(tag: byte, content: seq<byte>): seq<byte>
    requires |content| < 0x1_0000_0000_0000_0000
  {
    [tag] + DerLen(|content|) + content
  }

  method WriteDerLen(output: Vec, len: usize)
    modifies output
    ensures output.bytes == old(output.bytes) + DerLen(len)
  {
    if len < 128 {
      output.Push(len);
      return;
    }
    var bytes := BigEndian(len, 8);
    var first := FirstNonZero(bytes);
    assert first < |bytes| && bytes[first..] == Shortest(len) by { SignificantBytes(len, first); }
    output.Push(0x80 + (|bytes| - first));
    output.Extend(bytes[first..]);
  }

  /** The position of the first byte that is not zero, or of the last byte. */
  method FirstNonZero(bytes: seq<byte>) returns (first: nat)
    requires bytes != []
    ensures first < |bytes| && forall k :: 0 <= k < first ==> bytes[k] == 0
    ensures bytes[first] != 0 || first == |bytes| - 1
  {
    first := 0;
    while first < |bytes| - 1 && bytes[first] == 0
      invariant first < |bytes| && forall k :: 0 <= k < first ==> bytes[k] == 0
    {
      first := first + 1;
    }
  }

  lemma SignificantBytes(len: usize, first: nat)
    requires len > 0 && first < 8 && forall k :: 0 <= k < first ==> BigEndian(len, 8)[k] == 0
    requires BigEndian(len, 8)[first] != 0 || first == 7
    ensures BigEndian(len, 8)[first..] == Shortest(len)
  {
    var bytes := BigEndian(len, 8);
    Powers();
    BigEndianValue(len, 8);
    if bytes[first] == 0 {
      AllZeros(bytes);
      assert false;
    }
    DropZeros(bytes, first);
  }

  method WriteTagged(tag: byte, content: seq<byte>) returns (bytes: seq<byte>)
    requires |content| < 0x1_0000_0000_0000_0000
    ensures bytes == DerTagged(tag, content)
  {
    var output := new Vec([tag]);
    WriteDerLen(output, |content|);
    output.Extend(content);
    bytes := output.bytes;
  }

  lemma Powers()
    ensures Pow256(8) == 0x1_0000_0000_0000_0000 && Pow256(1) == 256
  {
    assert Pow256(4) == 0x1_0000_0000;
  }

  lemma {:induction false} ShortestValue(n: nat)
    ensures Value256(Shortest(n)) == n
  {
    if n > 0 {
      ShortestValue(n / 256);
      ValueAppend(Shortest(n / 256), n % 256);
    }
  }

  lemma {:induction false} ShortestFits(n: nat, k: nat)
    requires n < Pow256(k)
    ensures |Shortest(n)| <= k
  {
    if n > 0 {
      ShortestFits(n / 256, k - 1);
    }
  }

  lemma ShortestBound(n: usize, k: nat)
    requires k == 8
    ensures |Shortest(n)| <= k
  {
    Powers();
    ShortestFits(n, 8);
  }

  /** What is left of a number's bytes behind its leading zeros. */
  lemma {:induction false} DropZeros(bytes: seq<byte>, first: nat)
    requires first <= |bytes| && forall k :: 0 <= k < first ==> bytes[k] == 0
    requires first < |bytes| ==> bytes[first] != 0
    ensures bytes[first..] == Shortest(Value256(bytes))
  {
    if bytes == [] {
    } else {
      var n := |bytes| - 1;
      var init := bytes[..n];
      if first <= n {
        DropZeros(init, first);
        assert bytes[first..] == init[first..] + [bytes[n]];
        if first == n { assert init[first..] == []; AllZeros(init); }
        else { assert Value256(bytes) > 0 by { NonZero(bytes, first); } }
      } else {
        AllZeros(bytes);
      }
    }
  }

  lemma {:induction false} AllZeros(bytes: seq<byte>)
    requires forall k :: 0 <= k < |bytes| ==> bytes[k] == 0
    ensures Value256(bytes) == 0
  {
    if bytes != [] { AllZeros(bytes[..|bytes| - 1]); }
  }

  lemma {:induction false} NonZero(bytes: seq<byte>, k: nat)
    requires k < |bytes| && bytes[k] != 0
    ensures Value256(bytes) > 0
  {
    if k < |bytes| - 1 { NonZero(bytes[..|bytes| - 1], k); }
  }

  // ---- reading

  /** Section 8.1.3 of X.690: the length and what follows. None for the indefinite and the reserved form. */
  function ReadLen(s: seq<byte>): Option<(nat, seq<byte>)> {
    if s == [] then None
    else if s[0] < 128 then Some((s[0], s[1..]))
    else if s[0] == 128 || s[0] == 255 then None
    else ReadDigits(s[1..], s[0] - 128)
  }

  function ReadDigits(s: seq<byte>, count: nat): Option<(nat, seq<byte>)> {
    if |s| < count then None else Some((Value256(s[..count]), s[count..]))
  }

  lemma DigitsRoundTrip(digits: seq<byte>, rest: seq<byte>)
    ensures ReadDigits(digits + rest, |digits|) == Some((Value256(digits), rest))
  {
    var s := digits + rest;
    assert s[..|digits|] == digits && s[|digits|..] == rest;
  }

  lemma LongForm(first: byte, tail: seq<byte>)
    requires 128 < first < 255
    ensures ReadLen([first] + tail) == ReadDigits(tail, first - 128)
  {
    assert ([first] + tail)[1..] == tail;
  }

  lemma ReadLongForm(first: byte, digits: seq<byte>, rest: seq<byte>)
    requires 1 <= |digits| <= 8 && first == 0x80 + |digits|
    ensures ReadLen([first] + (digits + rest)) == Some((Value256(digits), rest))
  {
    LongForm(first, digits + rest);
    DigitsRoundTrip(digits, rest);
  }

  lemma LenRoundTrip(len: usize, rest: seq<byte>)
    ensures ReadLen(DerLen(len) + rest) == Some((len, rest))
  {
    if len < 128 {
      assert ([len] + rest)[1..] == rest;
    } else {
      var digits := Shortest(len);
      assert 1 <= |digits| <= 8 by { ShortestBound(len, 8); }
      assert Value256(digits) == len by { ShortestValue(len); }
      assert DerLen(len) == [0x80 + |digits|] + digits;
      ReadLongForm(0x80 + |digits|, digits, rest);
      assert DerLen(len) + rest == [0x80 + |digits|] + (digits + rest);
    }
  }

  /** Section 10.1 of X.690: no other encoding of the same length is as short. */
  lemma LenIsMinimal(len: usize, other: seq<byte>)
    requires ReadLen(other) == Some((len, []))
    ensures |DerLen(len)| <= |other|
    ensures |DerLen(len)| == |other| ==> DerLen(len) == other
  {
    if other[0] < 128 {
      assert other == [other[0]] + other[1..];
    } else {
      var digits := other[1..];
      assert digits[..other[0] - 128] == digits && |digits| == other[0] - 128;
      ValueBound(digits);
      if len >= 128 {
        ShortestBound(len, 8);
        ShortestFits(len, |digits|);
        ShortestValue(len);
        if |DerLen(len)| == |other| {
          SameValueSameBytes(Shortest(len), digits);
          assert other == [other[0]] + digits;
        }
      }
    }
  }

  /** One element: its tag, its content and what follows. */
  function ReadTlv(s: seq<byte>): Option<(byte, seq<byte>, seq<byte>)> {
    if s == [] then None
    else
      match ReadLen(s[1..])
      case None => None
      case Some((len, rest)) => if |rest| < len then None else Some((s[0], rest[..len], rest[len..]))
  }

  lemma TaggedRoundTrip(tag: byte, content: seq<byte>, rest: seq<byte>)
    requires |content| < 0x1_0000_0000_0000_0000
    ensures ReadTlv(DerTagged(tag, content) + rest) == Some((tag, content, rest))
  {
    var s := DerTagged(tag, content) + rest;
    assert s[1..] == DerLen(|content|) + (content + rest);
    LenRoundTrip(|content|, content + rest);
    assert (content + rest)[..|content|] == content && (content + rest)[|content|..] == rest;
  }

  // ---- build_spki

  const EC_PUBLIC_KEY: seq<byte> := [0x2A, 0x86, 0x48, 0xCE, 0x3D, 0x02, 0x01]
  const P256: seq<byte> := [0x2A, 0x86, 0x48, 0xCE, 0x3D, 0x03, 0x01, 0x07]
  const SEQUENCE: byte := 0x30
  const OID: byte := 0x06
  const BIT_STRING: byte := 0x03

  /** The longest allocation there is. */
  const MAX_VEC := 0x7FFF_FFFF_FFFF_FFFF

  function Algorithm(): seq<byte> {
    DerTagged(SEQUENCE, DerTagged(OID, EC_PUBLIC_KEY) + DerTagged(OID, P256))
  }

  function BitString(point: seq<byte>): seq<byte>
    requires |point| <= MAX_VEC
  {
    DerTagged(BIT_STRING, [0] + point)
  }

  lemma SpkiFits(point: seq<byte>)
    requires |point| <= MAX_VEC
    ensures |Algorithm() + BitString(point)| < 0x1_0000_0000_0000_0000
  {
    ShortestBound(|[0] + point|, 8);
  }

  function Spki(point: seq<byte>): seq<byte>
    requires |point| <= MAX_VEC
  {
    SpkiFits(point);
    DerTagged(SEQUENCE, Algorithm() + BitString(point))
  }

  method BuildSpki(point: seq<byte>) returns (spki: seq<byte>)
    requires |point| <= MAX_VEC
    ensures spki == Spki(point)
  {
    var key := WriteTagged(OID, EC_PUBLIC_KEY);
    var curve := WriteTagged(OID, P256);
    var algorithm := WriteTagged(SEQUENCE, key + curve);
    var bits := new Vec([]);
    bits.Push(0);
    bits.Extend(point);
    assert bits.bytes == [0] + point;
    var bitString := WriteTagged(BIT_STRING, bits.bytes);
    SpkiFits(point);
    spki := WriteTagged(SEQUENCE, algorithm + bitString);
  }

  /** The bytes around an uncompressed point of 65 bytes: id-ecPublicKey and secp256r1 (sections 2.1.1 of
      RFC 5480), then a bit string without unused bits. */
  lemma SpkiBytes(point: seq<byte>)
    requires |point| == 65
    ensures Spki(point) == [0x30, 0x59, 0x30, 0x13, 0x06, 0x07, 0x2A, 0x86, 0x48, 0xCE, 0x3D, 0x02, 0x01,
                            0x06, 0x08, 0x2A, 0x86, 0x48, 0xCE, 0x3D, 0x03, 0x01, 0x07, 0x03, 0x42, 0x00] + point
  {
    var key, curve := [0x2A, 0x86, 0x48, 0xCE, 0x3D, 0x02, 0x01], [0x2A, 0x86, 0x48, 0xCE, 0x3D, 0x03, 0x01, 0x07];
    ShortTagged(OID, key);
    ShortTagged(OID, curve);
    var oids := DerTagged(OID, key) + DerTagged(OID, curve);
    ShortTagged(SEQUENCE, oids);
    ShortTagged(BIT_STRING, [0] + point);
    ShortTagged(SEQUENCE, Algorithm() + BitString(point));
    SpkiConcat(key, curve, point);
  }

  lemma ShortTagged(tag: byte, content: seq<byte>)
    requires |content| < 128
    ensures DerTagged(tag, content) == [tag, |content|] + content
  {
  }

  lemma SpkiConcat(key: seq<byte>, curve: seq<byte>, point: seq<byte>)
    ensures [0x30, 0x59] + ([0x30, 0x13] + ([0x06, 0x07] + key + ([0x06, 0x08] + curve)) + ([0x03, 0x42] + ([0] + point)))
         == [0x30, 0x59, 0x30, 0x13, 0x06, 0x07] + key + [0x06, 0x08] + curve + [0x03, 0x42, 0x00] + point
  {
  }

  /** The two identifiers and the point of a subject public key info; None if it is anything else. */
  function ReadSpki(s: seq<byte>): Option<(seq<byte>, seq<byte>, seq<byte>)> {
    match ReadTlv(s)
    case None => None
    case Some((tag, content, rest)) =>
      if tag != SEQUENCE || rest != [] then None
      else
        match ReadTlv(content)
        case None => None
        case Some((tag1, algorithm, bits)) =>
          if tag1 != SEQUENCE then None
          else
            var oids := ReadOids(algorithm);
            match ReadTlv(bits)
            case None => None
            case Some((tag2, point, rest2)) =>
              if oids.None? || tag2 != BIT_STRING || rest2 != [] || point == [] || point[0] != 0 then None
              else Some((oids.value.0, oids.value.1, point[1..]))
  }

  function ReadOids(s: seq<byte>): Option<(seq<byte>, seq<byte>)> {
    match ReadTlv(s)
    case None => None
    case Some((tag, first, rest)) =>
      match ReadTlv(rest)
      case None => None
      case Some((tag1, second, rest1)) => if tag != OID || tag1 != OID || rest1 != [] then None else Some((first, second))
  }

  /** A reader recovers both object identifiers and the point, whatever bytes the point has. */
  lemma SpkiRoundTrip(point: seq<byte>)
    requires |point| <= MAX_VEC
    ensures ReadSpki(Spki(point)) == Some((EC_PUBLIC_KEY, P256, point))
  {
    var key, curve := DerTagged(OID, EC_PUBLIC_KEY), DerTagged(OID, P256);
    SpkiFits(point);
    TaggedRoundTrip(SEQUENCE, Algorithm() + BitString(point), []);
    assert Spki(point) + [] == Spki(point);
    TaggedRoundTrip(SEQUENCE, key + curve, BitString(point));
    TaggedRoundTrip(BIT_STRING, [0] + point, []);
    assert BitString(point) + [] == BitString(point);
    assert ReadOids(key + curve) == Some((EC_PUBLIC_KEY, P256)) by {
      TaggedRoundTrip(OID, EC_PUBLIC_KEY, curve);
      TaggedRoundTrip(OID, P256, []);
      assert curve + [] == curve;
    }
    assert ([0] + point)[1..] == point;
  }
}
