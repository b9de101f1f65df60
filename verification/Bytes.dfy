/** Byte strings and the little-endian integers of the script machine. */
module Bytes {
  import opened Wrappers

  type Byte = x: int | 0 <= x < 256
  type Bytes = seq<Byte>

  function Pow256(k: nat): (p: nat)
    ensures p > 0
  {
    if k == 0 then 1 else 256 * Pow256(k - 1)
  }

  /** int.from_bytes(b, "little") */
  function FromLE(b: Bytes): nat
  {
    if b == [] then 0 else b[0] + 256 * FromLE(b[1..])
  }

  /** The low bytes of x, least significant first. */
  function ToLE(x: nat, width: nat): (b: Bytes)
    ensures |b| == width
  {
    if width == 0 then [] else [x % 256] + ToLE(x / 256, width - 1)
  }

  /** int.from_bytes(b, "little", signed=True) */
  function FromLESigned(b: Bytes): int
  {
    if b != [] && b[|b| - 1] >= 128 then FromLE(b) - Pow256(|b|) else FromLE(b)
  }

  /** to_bytes(4, "little", signed=True), which overflows outside 32 bits. */
  function ToLE4Signed(x: int): Option<Bytes>
  {
    if 0 <= x < 0x8000_0000 then Some(ToLE(x, 4))
    else if -0x8000_0000 <= x < 0 then Some(ToLE(x + 0x1_0000_0000, 4))
    else None
  }

  lemma {:induction false} LERoundTrip(x: nat, width: nat)
    requires x < Pow256(width)
    ensures FromLE(ToLE(x, width)) == x
  {
    if width > 0 {
      LERoundTrip(x / 256, width - 1);
      assert ToLE(x, width)[1..] == ToLE(x / 256, width - 1);
    }
  }

  lemma {:induction false} FromLEBound(b: Bytes)
    ensures FromLE(b) < Pow256(|b|)
  {
    if b != [] { FromLEBound(b[1..]); }
  }

  lemma {:induction false} LEInverse(b: Bytes)
    ensures ToLE(FromLE(b), |b|) == b
  {
    if b != [] {
      LEInverse(b[1..]);
      assert FromLE(b) % 256 == b[0] && FromLE(b) / 256 == FromLE(b[1..]);
      assert b == [b[0]] + b[1..];
    }
  }

  /** The result of OP_ADD and OP_SUB reads back as the number that was computed. */
  lemma {:induction false} SignedRoundTrip(x: int)
    requires ToLE4Signed(x).Some?
    ensures FromLESigned(ToLE4Signed(x).value) == x
  {
    assert Pow256(4) == 0x1_0000_0000 by { assert Pow256(2) == 65536; }
    var u := if x >= 0 then x else x + 0x1_0000_0000;
    LERoundTrip(u, 4);
    TopByte(u);
  }

  lemma {:induction false} TopByte(u: nat)
    requires u < 0x1_0000_0000
    ensures ToLE(u, 4)[3] == u / 0x100_0000
  {
    var a, b, c := u / 256, u / 65536, u / 0x100_0000;
    assert ToLE(u, 4)[1..] == ToLE(a, 3);
    assert a / 256 == b && ToLE(a, 3)[1..] == ToLE(b, 2);
    assert b / 256 == c && ToLE(b, 2)[1..] == ToLE(c, 1);
    assert ToLE(c, 1)[0] == c;
  }
}
