/** Decoding a base32 secret with a 32-bit accumulator (section 6 of RFC 4648). */
module Base32 {
  import opened Common
  import opened Arithmetic
  import opened Bytes

  type quintet = n: nat | n < 32

  datatype Symbol = Digit(value: quintet) | Separator | Invalid

  /** `A`-`Z`, `a`-`z`, `2`-`7`, then `=`, space, tab, line ends and `-`. */
  function SymbolOf(b: byte): Symbol {
    if 0x41 <= b <= 0x5A then Digit(b - 0x41)
    else if 0x61 <= b <= 0x7A then Digit(b - 0x61)
    else if 0x32 <= b <= 0x37 then Digit(b - 0x32 + 26)
    else if b in {0x3D, 0x20, 0x09, 0x0D, 0x0A, 0x2D} then Separator
    else Invalid
  }

  /** The quintets of a secret; None if some character is not allowed. */
  function Quintets(value: seq<byte>): Option<seq<quintet>> {
    if value == [] then Some([])
    else
      var n := |value| - 1;
      var before := Quintets(value[..n]);
      match SymbolOf(value[n])
      case Digit(q) => if before.None? then None else Some(before.value + [q])
      case Separator => before
      case Invalid => None
  }

  function Value32(q: seq<quintet>): nat {
    if q == [] then 0 else 32 * Value32(q[..|q| - 1]) + q[|q| - 1]
  }

  // ---- desktop/src/native_host_totp.rs: decode_base32_secret

  const U32: pos := 0x1_0000_0000

  lemma ShiftLeft(buffer: nat)
    ensures (buffer * 32) % U32 == 32 * (buffer % 0x800_0000)
  {
  }

  /** Shifting in a quintet: bits fall off the top, but never one of those still needed. */
  lemma ShiftIn(buffer: nat, bits: nat, q: quintet)
    requires bits < 8
    ensures ((buffer * 32) % U32 + q) % Pow2(bits + 5) == buffer % Pow2(bits) * 32 + q
  {
    var p, kept := Pow2(bits), buffer % 0x800_0000;
    assert kept % p == buffer % p by {
      Pow2Add(bits, 27 - bits);
      Pow2Add(9, 9);
      Pow2Add(18, 9);
      SmallPowers();
      ModMod(buffer, p, Pow2(27 - bits));
    }
    ShiftLeft(buffer);
    Pow2Add(bits, 5);
    SmallPowers();
    ShiftMod(kept, p, q);
  }

  lemma ShiftMod(kept: nat, p: pos, q: quintet)
    ensures (32 * kept + q) % (p * 32) == kept % p * 32 + q
  {
    var d, r := kept / p, kept % p;
    assert kept == p * d + r;
    MulAssoc(32, p, d);
    assert 32 * (p * d) == (p * 32) * d;
    ModUnique(32 * kept + q, p * 32, d, 32 * r + q);
  }

  /** The byte above the lowest `bits` bits. */
  function ByteAt(buffer: nat, bits: nat): byte {
    buffer / Pow2(bits) % 256
  }

  /** Shifting out a byte. */
  lemma ShiftOut(buffer: nat, bits: nat)
    ensures buffer % Pow2(bits + 8) == ByteAt(buffer, bits) * Pow2(bits) + buffer % Pow2(bits)
  {
    Pow2Add(bits, 8);
    SmallPowers();
    ShiftOutBy(buffer, Pow2(bits));
  }

  lemma ShiftOutBy(buffer: nat, p: pos)
    ensures buffer % (p * 256) == buffer / p % 256 * p + buffer % p
  {
    var d, r := buffer / p, buffer % p;
    var e, f := d / 256, d % 256;
    assert buffer == p * d + r;
    MulSum(p, 256 * e, f);
    MulAssoc(p, 256, e);
    MulMonotone(p, f, 255);
    ModUnique(buffer, p * 256, e, p * f + r);
  }

  /** The bytes are the leading bits of the quintets, and the last `5 n mod 8` bits are ignored. */
  predicate Decodes(output: seq<byte>, q: seq<quintet>) {
    |output| == 5 * |q| / 8 && Value256(output) == Value32(q) / Pow2(5 * |q| % 8)
  }

  /** The bytes written so far, followed by the lowest `bits` bits of the accumulator. */
  function Held(output: seq<byte>, bits: nat, buffer: nat): nat {
    if bits == 0 then Value256(output) else 2 * Held(output, bits - 1, buffer / 2) + buffer % 2
  }

  lemma {:induction false} HeldIs(output: seq<byte>, bits: nat, buffer: nat)
    ensures Held(output, bits, buffer) == Value256(output) * Pow2(bits) + buffer % Pow2(bits)
  {
    if bits > 0 {
      HeldIs(output, bits - 1, buffer / 2);
      var p := Pow2(bits - 1);
      HalfMod(buffer, p);
      MulAssoc(2, Value256(output), p);
      MulAssoc(Value256(output), 2, p);
    }
  }

  lemma HalfMod(buffer: nat, p: pos)
    ensures buffer % (2 * p) == 2 * (buffer / 2 % p) + buffer % 2
  {
    var h := buffer / 2;
    var d, r := h / p, h % p;
    assert h == p * d + r;
    MulAssoc(2, p, d);
    ModUnique(buffer, 2 * p, d, 2 * r + buffer % 2);
  }

  method DecodeBase32Secret(value: seq<byte>) returns (r: Option<seq<byte>>)
    ensures r.None? <==> Quintets(value).None? || 5 * |Quintets(value).value| < 8
    ensures r.Some? ==> Decodes(r.value, Quintets(value).value)
  {
    var buffer: nat := 0;
    var bits: nat := 0;
    var output: seq<byte> := [];
    for i := 0 to |value|
      invariant Quintets(value[..i]).Some? && bits < 8 && buffer < U32
      invariant 8 * |output| + bits == 5 * |Quintets(value[..i]).value|
      invariant Held(output, bits, buffer) == Value32(Quintets(value[..i]).value)
    {
      assert value[..i + 1][..i] == value[..i];
      var symbol := SymbolOf(value[i]);
      if symbol.Separator? { continue; }
      if symbol.Invalid? {
        InvalidStays(value, i);
        return None;
      }
      ghost var q := Quintets(value[..i]).value;
      assert (q + [symbol.value])[..|q|] == q;
      TakeIn(output, bits, buffer, symbol.value);
      // The shifted buffer has zeros where the quintet goes, so `|` is `+`.
      buffer := (buffer * 32) % U32 + symbol.value;
      bits := bits + 5;
      while bits >= 8
        invariant bits < 13 && buffer < U32
        invariant 8 * |output| + bits == 5 * (|q| + 1)
        invariant Held(output, bits, buffer) == 32 * Value32(q) + symbol.value
      {
        bits := bits - 8;
        TakeOut(output, bits, buffer);
        output := output + [ByteAt(buffer, bits)];
      }
    }
    assert value[..|value|] == value;
    LastBits(output, bits, buffer, |Quintets(value).value|);
    r := if output == [] then None else Some(output);
  }

  lemma TakeIn(output: seq<byte>, bits: nat, buffer: nat, q: quintet)
    requires bits < 8
    ensures Held(output, bits + 5, (buffer * 32) % U32 + q) == 32 * Held(output, bits, buffer) + q
    ensures (buffer * 32) % U32 + q < U32
  {
    ShiftLeft(buffer);
    HeldIs(output, bits, buffer);
    HeldIs(output, bits + 5, (buffer * 32) % U32 + q);
    ShiftIn(buffer, bits, q);
    Pow2Add(bits, 5);
    SmallPowers();
    MulAssoc(Value256(output), Pow2(bits), 32);
  }

  lemma TakeOut(output: seq<byte>, bits: nat, buffer: nat)
    ensures Held(output + [ByteAt(buffer, bits)], bits, buffer) == Held(output, bits + 8, buffer)
  {
    var b := ByteAt(buffer, bits);
    HeldIs(output, bits + 8, buffer);
    HeldIs(output + [b], bits, buffer);
    ShiftOut(buffer, bits);
    ValueAppend(output, b);
    Pow2Add(bits, 8);
    SmallPowers();
    var v, p := Value256(output), Pow2(bits);
    MulSum(p, 256 * v, b);
    MulAssoc(v, 256, p);
    assert (256 * v) * p == v * (p * 256);
  }

  lemma LastBits(output: seq<byte>, bits: nat, buffer: nat, count: nat)
    requires bits < 8 && 8 * |output| + bits == 5 * count
    ensures |output| == 5 * count / 8 && bits == 5 * count % 8
    ensures Value256(output) == Held(output, bits, buffer) / Pow2(bits)
  {
    HeldIs(output, bits, buffer);
    DropLow(Value256(output), Pow2(bits), buffer % Pow2(bits));
  }

  lemma DropLow(v: nat, p: pos, r: nat)
    requires r < p
    ensures (v * p + r) / p == v
  {
    ModUnique(v * p + r, p, v, r);
  }

  lemma {:induction false} InvalidStays(value: seq<byte>, i: nat)
    requires i < |value| && SymbolOf(value[i]).Invalid?
    ensures Quintets(value).None?
  {
    var n := |value| - 1;
    if i < n { InvalidStays(value[..n], i); }
  }

  // ---- the encoder of section 6 of RFC 4648

  function Alphabet(q: quintet): byte {
    if q < 26 then 0x41 + q else 0x32 + q - 26
  }

  const LETTERS := "ABCDEFGHIJKLMNOPQRSTUVWXYZ234567"

  /** Table 3 of RFC 4648; small letters count as the capitals. */
  lemma DigitExactlyWhen(b: byte, q: quintet)
    ensures SymbolOf(b) == Digit(q) <==> b == LETTERS[q] as int || (q < 26 && b == LETTERS[q] as int + 32)
    ensures Alphabet(q) == LETTERS[q] as int
  {
    assert |LETTERS| == 32;
    assert forall i :: 0 <= i < 26 ==> LETTERS[i] as int == 0x41 + i;
    assert forall i :: 26 <= i < 32 ==> LETTERS[i] as int == 0x32 + i - 26;
  }

  /** The characters that a secret may be broken up by. */
  lemma SeparatorExactlyWhen(b: byte)
    ensures SymbolOf(b).Separator? <==> b in {'=' as int, ' ' as int, '\t' as int, '\r' as int, '\n' as int, '-' as int}
  {
  }

  /** A separator anywhere changes nothing, and neither does writing a letter small. */
  lemma {:induction false} SpellingDoesNotMatter(before: seq<byte>, c: byte, behind: seq<byte>)
    ensures c in {'=' as int, ' ' as int, '\t' as int, '\r' as int, '\n' as int, '-' as int} ==> Quintets(before + [c] + behind) == Quintets(before + behind)
    ensures 'A' as int <= c <= 'Z' as int ==> Quintets(before + [c + 32] + behind) == Quintets(before + [c] + behind)
    decreases |behind|
  {
    if behind == [] {
      assert before + [] == before && before + [c] + [] == before + [c] && (before + [c])[..|before|] == before;
      if c < 0xE0 { assert before + [c + 32] + [] == before + [c + 32] && (before + [c + 32])[..|before|] == before; }
    } else {
      var n := |behind| - 1;
      SpellingDoesNotMatter(before, c, behind[..n]);
      InitOf(before + [c], behind);
      InitOf(before, behind);
      if c < 0xE0 { InitOf(before + [c + 32], behind); }
    }
  }

  lemma InitOf(a: seq<byte>, b: seq<byte>)
    requires b != []
    ensures (a + b)[..|a + b| - 1] == a + b[..|b| - 1] && (a + b)[|a + b| - 1] == b[|b| - 1]
  {
  }

  /** The last `count` base-32 digits of a number. */
  function QuintetsOf(n: nat, count: nat): (q: seq<quintet>)
    ensures |q| == count
  {
    if count == 0 then [] else QuintetsOf(n / 32, count - 1) + [n % 32]
  }

  function Letters(q: seq<quintet>): (s: seq<byte>)
    ensures |s| == |q|
  {
    if q == [] then [] else Letters(q[..|q| - 1]) + [Alphabet(q[|q| - 1])]
  }

  function Padding(count: nat): seq<byte> {
    if count == 0 then [] else Padding(count - 1) + [0x3D]
  }

  /** The number of quintets that hold `m` bytes. */
  function QuintetCount(m: nat): (count: nat)
    ensures 8 * m <= 5 * count < 8 * m + 5
  {
    (8 * m + 4) / 5
  }

  function FillBits(m: nat): nat {
    5 * QuintetCount(m) - 8 * m
  }

  /** The bits of the bytes, filled up with zeros to a multiple of five. */
  function Filled(bytes: seq<byte>): nat {
    Value256(bytes) * Pow2(FillBits(|bytes|))
  }

  /** The filled bits cut into quintets, then `=` up to a multiple of eight characters. */
  function Encode(bytes: seq<byte>): seq<byte> {
    var count := QuintetCount(|bytes|);
    Letters(QuintetsOf(Filled(bytes), count)) + Padding((8 - count % 8) % 8)
  }

  lemma {:induction false} LettersDecode(q: seq<quintet>)
    ensures Quintets(Letters(q)) == Some(q)
  {
    if q != [] {
      var n := |q| - 1;
      LettersDecode(q[..n]);
      assert Letters(q)[..n] == Letters(q[..n]);
      assert SymbolOf(Alphabet(q[n])) == Digit(q[n]);
      assert q == q[..n] + [q[n]];
    }
  }

  lemma {:induction false} PaddingIgnored(s: seq<byte>, count: nat)
    ensures Quintets(s + Padding(count)) == Quintets(s)
  {
    if count == 0 {
      assert s + Padding(0) == s;
    } else {
      PaddingIgnored(s, count - 1);
      var whole := s + Padding(count);
      assert whole[..|whole| - 1] == s + Padding(count - 1);
    }
  }

  lemma {:induction false} QuintetsValue(n: nat, count: nat)
    requires n < Pow2(5 * count)
    ensures Value32(QuintetsOf(n, count)) == n
  {
    if count > 0 {
      Pow2Add(5 * (count - 1), 5);
      SmallPowers();
      QuintetsValue(n / 32, count - 1);
      assert QuintetsOf(n, count)[..count - 1] == QuintetsOf(n / 32, count - 1);
    }
  }

  lemma {:induction false} Pow256IsPow2(k: nat)
    ensures Pow256(k) == Pow2(8 * k)
  {
    if k > 0 {
      Pow256IsPow2(k - 1);
      Pow2Add(8 * (k - 1), 8);
      SmallPowers();
    }
  }

  lemma LettersAndPadding(n: nat, count: nat, padding: nat)
    requires n < Pow2(5 * count)
    ensures var q := Quintets(Letters(QuintetsOf(n, count)) + Padding(padding));
      q.Some? && |q.value| == count && Value32(q.value) == n
  {
    LettersDecode(QuintetsOf(n, count));
    PaddingIgnored(Letters(QuintetsOf(n, count)), padding);
    QuintetsValue(n, count);
  }

  lemma EncodedQuintets(bytes: seq<byte>)
    ensures var q := Quintets(Encode(bytes));
      q.Some? && |q.value| == QuintetCount(|bytes|) && Value32(q.value) == Filled(bytes)
  {
    var count := QuintetCount(|bytes|);
    assert Filled(bytes) < Pow2(5 * count) by { FilledBound(bytes, FillBits(|bytes|)); }
    LettersAndPadding(Filled(bytes), count, (8 - count % 8) % 8);
  }

  lemma FilledBound(bytes: seq<byte>, pad: nat)
    ensures Value256(bytes) * Pow2(pad) < Pow2(8 * |bytes| + pad)
  {
    ValueBound(bytes);
    Pow256IsPow2(|bytes|);
    Pow2Add(8 * |bytes|, pad);
    MulMonotone(Pow2(pad), Value256(bytes) + 1, Pow2(8 * |bytes|));
    MulSum(Pow2(pad), Value256(bytes), 1);
  }

  /** What `DecodeBase32Secret` promises about an encoded secret leaves one answer: the secret. */
  lemma DecodeOfEncode(bytes: seq<byte>, output: seq<byte>)
    requires bytes != []
    ensures Quintets(Encode(bytes)).Some? && 5 * |Quintets(Encode(bytes)).value| >= 8
    ensures Decodes(output, Quintets(Encode(bytes)).value) <==> output == bytes
  {
    EncodedQuintets(bytes);
    var q := Quintets(Encode(bytes)).value;
    var fill := FillBits(|bytes|);
    assert 5 * |q| / 8 == |bytes| && 5 * |q| % 8 == fill;
    DropLow(Value256(bytes), Pow2(fill), 0);
    if Decodes(output, q) { SameValueSameBytes(output, bytes); }
  }
}
