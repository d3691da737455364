/** Byte sequences and the two orders in which numbers are written into them. */
module Bytes {
  import opened Arithmetic

  type byte = x: int | 0 <= x < 256

  /** The number written least significant byte first. */
  function FromLittle(s: seq<byte>): nat {
    if s == [] then 0 else s[0] + 256 * FromLittle(s[1..])
  }

  /** The `n` low bytes of a number, least significant first. */
  function Little(x: nat, n: nat): (s: seq<byte>)
    ensures |s| == n
    decreases n
  {
    if n == 0 then [] else [x % 256] + Little(x / 256, n - 1)
  }

  function Pow256(n: nat): (p: nat)
    ensures p >= 1
  {
    if n == 0 then 1 else 256 * Pow256(n - 1)
  }

  lemma {:induction false} LittleRoundTrip(x: nat, n: nat)
    requires x < Pow256(n)
    ensures FromLittle(Little(x, n)) == x
    decreases n
  {
    if n > 0 {
      LittleRoundTrip(x / 256, n - 1);
      assert Little(x, n)[1..] == Little(x / 256, n - 1);
    }
  }

  function Concat(parts: seq<seq<byte>>): seq<byte> {
    if parts == [] then [] else parts[0] + Concat(parts[1..])
  }

  lemma {:induction false} Associative(a: seq<byte>, b: seq<byte>, c: seq<byte>)
    ensures a + b + c == a + (b + c)
  {
  }

  function Zeros(n: nat): (s: seq<byte>)
    ensures |s| == n
  {
    seq(n, _ => 0)
  }

  // ---------------------------------------------------------------- exclusive or

  /** Exclusive or of the `n` low bits. */
  function XorBits(a: nat, b: nat, n: nat): (x: nat)
    decreases n
  {
    if n == 0 then 0 else (a + b) % 2 + 2 * XorBits(a / 2, b / 2, n - 1)
  }

  lemma {:induction false} XorBound(a: nat, b: nat, n: nat)
    ensures XorBits(a, b, n) < Pow2(n)
    decreases n
  {
    if n > 0 {
      XorBound(a / 2, b / 2, n - 1);
    }
  }

  lemma {:induction false} XorBit(a: nat, b: nat, y: nat)
    ensures var x := (a + b) % 2 + 2 * y; x / 2 == y && (x + b) % 2 == a % 2
  {
    var i, j := a / 2, b / 2;
    assert a == 2 * i + a % 2 && b == 2 * j + b % 2;
  }

  lemma {:induction false} XorBitsTwice(a: nat, b: nat, n: nat)
    requires a < Pow2(n)
    ensures XorBits(XorBits(a, b, n), b, n) == a
    decreases n
  {
    if n > 0 {
      XorBitsTwice(a / 2, b / 2, n - 1);
      XorBit(a, b, XorBits(a / 2, b / 2, n - 1));
    }
  }

  const BYTE_BITS: nat := 8

  lemma {:induction false} ByteBits()
    ensures Pow2(BYTE_BITS) == 256
  {
    assert Pow2(8) == 256;
  }

  function Xor(a: byte, b: byte): byte {
    ByteBits();
    XorBound(a, b, BYTE_BITS);
    XorBits(a, b, BYTE_BITS)
  }

  lemma {:induction false} XorTwice(a: byte, b: byte)
    ensures Xor(Xor(a, b), b) == a
  {
    ByteBits();
    XorBitsTwice(a, b, BYTE_BITS);
  }

  lemma {:induction false} JoinedHalves(a: nat, h: nat, x: nat, u: nat)
    requires u == a + (2 * h) * x
    ensures u / 2 == a / 2 + h * x && u % 2 == a % 2
  {
    assert (2 * h) * x == 2 * (h * x);
  }

  lemma {:induction false} Regrouped(e: nat, low: nat, h: nat, z: nat)
    ensures e + 2 * (low + h * z) == (e + 2 * low) + (2 * h) * z
  {
    assert 2 * (h * z) == (2 * h) * z;
  }

  /** Exclusive or of two numbers whose lowest bits and halves are known. */
  lemma {:induction false} XorOfHalves(u: nat, v: nat, a: nat, b: nat, n: nat, half: nat)
    requires n > 0 && u % 2 == a % 2 && v % 2 == b % 2 && XorBits(u / 2, v / 2, n - 1) == half
    ensures XorBits(u, v, n) == (a + b) % 2 + 2 * half
  {
    SameParity(u, v, a, b);
    XorStep(u, v, n);
  }

  lemma {:induction false} XorJoinedStep(a: nat, b: nat, u: nat, v: nat, h: nat, z: nat, k: nat, n: nat)
    requires k > 0 && n > 0 && u % 2 == a % 2 && v % 2 == b % 2
    requires XorBits(u / 2, v / 2, n - 1) == XorBits(a / 2, b / 2, k - 1) + h * z
    ensures XorBits(u, v, n) == XorBits(a, b, k) + (2 * h) * z
  {
    var low := XorBits(a / 2, b / 2, k - 1);
    XorOfHalves(u, v, a, b, n, low + h * z);
    XorOfHalves(a, b, a, b, k, low);
    Regrouped((a + b) % 2, low, h, z);
  }

  /** Exclusive or works on the low and the high bits separately. */
  lemma {:induction false} XorJoined(
    a: nat, b: nat, x: nat, y: nat, u: nat, v: nat, p: nat, k: nat, m: nat, z: nat)
    requires p == Pow2(k) && a < p && b < p && u == a + p * x && v == b + p * y && z == XorBits(x, y, m)
    ensures XorBits(u, v, k + m) == XorBits(a, b, k) + p * z
    decreases k
  {
    if k > 0 {
      var h := Pow2(k - 1);
      JoinedHalves(a, h, x, u);
      JoinedHalves(b, h, y, v);
      XorJoined(a / 2, b / 2, x, y, u / 2, v / 2, h, k - 1, m, z);
      XorJoinedStep(a, b, u, v, h, z, k, k + m);
    }
  }

  lemma {:induction false} SameParity(u: nat, v: nat, a: nat, b: nat)
    requires u % 2 == a % 2 && v % 2 == b % 2
    ensures (u + v) % 2 == (a + b) % 2
  {
    var i, j, k, l := u / 2, v / 2, a / 2, b / 2;
    assert u == 2 * i + a % 2 && v == 2 * j + b % 2 && a == 2 * k + a % 2 && b == 2 * l + b % 2;
  }

  lemma {:induction false} XorStep(u: nat, v: nat, n: nat)
    requires n > 0
    ensures XorBits(u, v, n) == (u + v) % 2 + 2 * XorBits(u / 2, v / 2, n - 1)
  {
  }

  lemma {:induction false} XorByteJoined(a: byte, b: byte, x: nat, y: nat, m: nat)
    ensures XorBits(a + 256 * x, b + 256 * y, BYTE_BITS + m) == Xor(a, b) + 256 * XorBits(x, y, m)
  {
    ByteBits();
    XorJoined(a, b, x, y, a + 256 * x, b + 256 * y, 256, BYTE_BITS, m, XorBits(x, y, m));
  }

  function XorEach(a: seq<byte>, b: seq<byte>): seq<byte>
    requires |a| == |b|
  {
    if a == [] then [] else [Xor(a[0], b[0])] + XorEach(a[1..], b[1..])
  }

  lemma {:induction false} FromLittleCons(b: byte, s: seq<byte>)
    ensures FromLittle([b] + s) == b + 256 * FromLittle(s)
  {
    assert ([b] + s)[1..] == s;
  }

  lemma {:induction false} XorConsStep(a: byte, b: byte, x: nat, y: nat, n: nat, u: nat, v: nat, m: nat, e: nat)
    requires u == a + 256 * x && v == b + 256 * y && m == BYTE_BITS + n && e == XorBits(x, y, n)
    ensures XorBits(u, v, m) == Xor(a, b) + 256 * e
  {
    XorByteJoined(a, b, x, y, n);
  }

  lemma {:induction false} XorEachCons(a: seq<byte>, b: seq<byte>)
    requires |a| == |b| > 0
    ensures FromLittle(XorEach(a, b)) == Xor(a[0], b[0]) + 256 * FromLittle(XorEach(a[1..], b[1..]))
  {
    FromLittleCons(Xor(a[0], b[0]), XorEach(a[1..], b[1..]));
  }

  /** Exclusive or of the bytes is exclusive or of the numbers they make up. */
  lemma {:induction false} XorOfNumbers(a: seq<byte>, b: seq<byte>, m: nat)
    requires |a| == |b| && m == BYTE_BITS * |a|
    ensures FromLittle(XorEach(a, b)) == XorBits(FromLittle(a), FromLittle(b), m)
  {
    if a != [] {
      var n := m - BYTE_BITS;
      XorOfNumbers(a[1..], b[1..], n);
      XorEachCons(a, b);
      XorConsStep(a[0], b[0], FromLittle(a[1..]), FromLittle(b[1..]), n,
                  FromLittle(a), FromLittle(b), m, XorBits(FromLittle(a[1..]), FromLittle(b[1..]), n));
    }
  }
}
