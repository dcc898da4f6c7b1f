/** Byte strings as big-endian numbers. */
module Bytes {
  import opened Arithmetic
  import opened Common

  function Pow256(k: nat): (p: pos) {
    if k == 0 then 1 else 256 * Pow256(k - 1)
  }

  function Value256(s: seq<byte>): nat {
    if s == [] then 0 else 256 * Value256(s[..|s| - 1]) + s[|s| - 1]
  }

  /** The last `k` bytes of a number. */
  function BigEndian(n: nat, k: nat): (s: seq<byte>)
    ensures |s| == k
  {
    if k == 0 then [] else BigEndian(n / 256, k - 1) + [n % 256]
  }

  lemma ValueAppend(s: seq<byte>, b: byte)
    ensures Value256(s + [b]) == 256 * Value256(s) + b
  {
    assert (s + [b])[..|s|] == s;
  }

  lemma {:induction false} ValueBound(s: seq<byte>)
    ensures Value256(s) < Pow256(|s|)
  {
    if s != [] {
      ValueBound(s[..|s| - 1]);
    }
  }

  lemma {:induction false} SameValueSameBytes(a: seq<byte>, b: seq<byte>)
    requires |a| == |b| && Value256(a) == Value256(b)
    ensures a == b
  {
    if a != [] {
      var n := |a| - 1;
      assert Value256(a[..n]) == Value256(b[..n]) && a[n] == b[n];
      SameValueSameBytes(a[..n], b[..n]);
      assert a == a[..n] + [a[n]] && b == b[..n] + [b[n]];
    }
  }

  lemma {:induction false} BigEndianValue(n: nat, k: nat)
    requires n < Pow256(k)
    ensures Value256(BigEndian(n, k)) == n
  {
    if k > 0 {
      BigEndianValue(n / 256, k - 1);
      ValueAppend(BigEndian(n / 256, k - 1), n % 256);
    }
  }

  /** Leading zeros do not change the value, and dropping bytes in front keeps the rest. */
  lemma {:induction false} ValueConcat(a: seq<byte>, b: seq<byte>)
    ensures Value256(a + b) == Value256(a) * Pow256(|b|) + Value256(b)
  {
    if b == [] {
      assert a + b == a;
    } else {
      var n := |b| - 1;
      ValueConcat(a, b[..n]);
      assert (a + b)[..|a + b| - 1] == a + b[..n];
      MulAssoc(Value256(a), 256, Pow256(n));
      MulAssoc(256, Value256(a), Pow256(n));
    }
  }
}
