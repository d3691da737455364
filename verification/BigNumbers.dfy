/** Big-endian numbers and modular powers: what `BigNumber` and `binaryNumberModExp` compute. */
module BigNumbers {
  import opened Arithmetic
  import opened Bytes

  /** The number written most significant byte first. */
  function FromBig(s: seq<byte>): nat {
    if s == [] then 0 else FromBig(s[..|s| - 1]) * 256 + s[|s| - 1]
  }

  /** The `n` low bytes of a number, most significant first. */
  function Big(x: nat, n: nat): (s: seq<byte>)
    ensures |s| == n
    decreases n
  {
    if n == 0 then [] else Big(x / 256, n - 1) + [x % 256]
  }

  /** Without leading zeros; zero has no bytes at all. */
  function Minimal(x: nat): seq<byte> {
    if x == 0 then [] else Minimal(x / 256) + [x % 256]
  }

  lemma {:induction false} FromBigSnoc(s: seq<byte>, b: byte)
    ensures FromBig(s + [b]) == FromBig(s) * 256 + b
  {
    assert (s + [b])[..|s|] == s;
  }

  lemma {:induction false} BigRoundTrip(x: nat, n: nat)
    requires x < Pow256(n)
    ensures FromBig(Big(x, n)) == x
    decreases n
  {
    if n > 0 {
      BigRoundTrip(x / 256, n - 1);
      FromBigSnoc(Big(x / 256, n - 1), x % 256);
    }
  }

  lemma {:induction false} MinimalRoundTrip(x: nat)
    ensures FromBig(Minimal(x)) == x
  {
    if x > 0 {
      MinimalRoundTrip(x / 256);
      FromBigSnoc(Minimal(x / 256), x % 256);
    }
  }

  lemma {:induction false} FromBigBound(s: seq<byte>)
    ensures FromBig(s) < Pow256(|s|)
  {
    if s != [] {
      FromBigBound(s[..|s| - 1]);
    }
  }

  lemma {:induction false} BigOfFromBig(s: seq<byte>)
    ensures Big(FromBig(s), |s|) == s
  {
    if s != [] {
      var init := s[..|s| - 1];
      BigOfFromBig(init);
      Div(256, FromBig(init), s[|s| - 1]);
    }
  }

  /** Prepending zeros to the minimal form gives the form of fixed size. */
  lemma {:induction false} PaddedMinimal(x: nat, n: nat)
    requires x < Pow256(n)
    ensures |Minimal(x)| <= n && Zeros(n - |Minimal(x)|) + Minimal(x) == Big(x, n)
    decreases n
  {
    if x == 0 {
      BigOfZero(n);
    } else {
      PaddedMinimal(x / 256, n - 1);
      Associative(Zeros(n - |Minimal(x)|), Minimal(x / 256), [x % 256]);
    }
  }

  lemma {:induction false} BigOfZero(n: nat)
    ensures Big(0, n) == Zeros(n)
  {
    if n > 0 {
      BigOfZero(n - 1);
    }
  }

  /** Leading zeros that `BigNumber` drops are restored by padding to the former size. */
  lemma {:induction false} LeadingZerosRestored(s: seq<byte>)
    ensures |Minimal(FromBig(s))| <= |s|
    ensures Zeros(|s| - |Minimal(FromBig(s))|) + Minimal(FromBig(s)) == s
  {
    FromBigBound(s);
    PaddedMinimal(FromBig(s), |s|);
    BigOfFromBig(s);
  }

  lemma {:induction false} FromBigOfZeros(n: nat)
    ensures FromBig(Zeros(n)) == 0
  {
    if n > 0 {
      assert Zeros(n)[..n - 1] == Zeros(n - 1);
      FromBigOfZeros(n - 1);
    }
  }

  lemma {:induction false} FromBigAtLeast(s: seq<byte>)
    requires s != []
    ensures FromBig(s) >= s[0]
  {
    if |s| > 1 {
      FromBigAtLeast(s[..|s| - 1]);
    }
  }

  // ---------------------------------------------------------------- powers

  function Pow(b: nat, e: nat): nat {
    if e == 0 then 1 else b * Pow(b, e - 1)
  }

  lemma {:induction false} PowSum(b: nat, d: nat, e: nat)
    ensures Pow(b, d + e) == Pow(b, d) * Pow(b, e)
    decreases d
  {
    if d > 0 {
      PowSum(b, d - 1, e);
      assert b * (Pow(b, d - 1) * Pow(b, e)) == (b * Pow(b, d - 1)) * Pow(b, e);
    }
  }

  lemma {:induction false} PowPow(b: nat, d: nat, e: nat)
    ensures Pow(Pow(b, d), e) == Pow(b, d * e)
    decreases e
  {
    if e > 0 {
      PowPow(b, d, e - 1);
      PowSum(b, d, d * (e - 1));
      assert d + d * (e - 1) == d * e;
    }
  }

  lemma {:induction false} ModMul(a: nat, b: nat, n: nat)
    requires n > 0
    ensures (a % n) * b % n == a * b % n
  {
    var q, r := a / n, a % n;
    assert a == q * n + r;
    Distribute(q, n, r, b);
    ModAdd(n, q * b, r * b);
  }

  lemma {:induction false} ModPow(b: nat, e: nat, n: nat)
    requires n > 0
    ensures Pow(b % n, e) % n == Pow(b, e) % n
    decreases e
  {
    if e > 0 {
      var c := b % n;
      ModPow(b, e - 1, n);
      ModMul(b, Pow(c, e - 1), n);
      ModMul(Pow(c, e - 1), b, n);
      ModMul(Pow(b, e - 1), b, n);
      assert b * Pow(c, e - 1) == Pow(c, e - 1) * b && b * Pow(b, e - 1) == Pow(b, e - 1) * b;
    }
  }

  /** The order of the two exponents does not matter. */
  lemma {:induction false} ExponentsCommute(g: nat, a: nat, b: nat, n: nat)
    requires n > 0
    ensures Pow(Pow(g, a) % n, b) % n == Pow(Pow(g, b) % n, a) % n
  {
    ModPow(Pow(g, a), b, n);
    ModPow(Pow(g, b), a, n);
    PowPow(g, a, b);
    PowPow(g, b, a);
    assert a * b == b * a;
  }

  /** `binaryNumberModExp`; a zero modulus is an error that leaves the result zero. */
  function ModExp(data: seq<byte>, modulus: seq<byte>, exponent: seq<byte>): seq<byte> {
    if FromBig(modulus) == 0 then [] else Minimal(Pow(FromBig(data), FromBig(exponent)) % FromBig(modulus))
  }

  /** Diffie-Hellman over the byte strings: both orders give the same bytes. */
  lemma {:induction false} ModExpCommutes(g: seq<byte>, modulus: seq<byte>, a: seq<byte>, b: seq<byte>)
    ensures ModExp(ModExp(g, modulus, a), modulus, b) == ModExp(ModExp(g, modulus, b), modulus, a)
  {
    var n := FromBig(modulus);
    if n > 0 {
      MinimalRoundTrip(Pow(FromBig(g), FromBig(a)) % n);
      MinimalRoundTrip(Pow(FromBig(g), FromBig(b)) % n);
      ExponentsCommute(FromBig(g), FromBig(a), FromBig(b), n);
    }
  }

  /** The result has at most the bytes of the modulus. */
  lemma {:induction false} ModExpSize(data: seq<byte>, modulus: seq<byte>, exponent: seq<byte>)
    ensures |ModExp(data, modulus, exponent)| <= |modulus|
  {
    if FromBig(modulus) > 0 {
      FromBigBound(modulus);
      PaddedMinimal(Pow(FromBig(data), FromBig(exponent)) % FromBig(modulus), |modulus|);
    }
  }

  // ---------------------------------------------------------------- RSA

  datatype RsaKey = RsaKey(modulus: seq<byte>, exponent: seq<byte>, secret: seq<byte>, fingerprint: nat) {
    /** The secret exponent undoes the public one, for all numbers below the modulus. */
    ghost predicate Valid() {
      var n := FromBig(modulus);
      n > 0 && forall m: nat :: m < n ==> Pow(m, FromBig(exponent) * FromBig(secret)) % n == m
    }
  }

  /**
   Encrypting with the public exponent, decrypting with the secret one and padding on the left
   restores every block below the modulus, also one that starts with zeros.
   */
  lemma {:induction false} RsaRoundTrip(block: seq<byte>, key: RsaKey)
    requires key.Valid() && FromBig(block) < FromBig(key.modulus)
    ensures var plain := ModExp(ModExp(block, key.modulus, key.exponent), key.modulus, key.secret);
            |plain| <= |block| && Zeros(|block| - |plain|) + plain == block
  {
    var m, n, e, d := FromBig(block), FromBig(key.modulus), FromBig(key.exponent), FromBig(key.secret);
    MinimalRoundTrip(Pow(m, e) % n);
    ModPow(Pow(m, e), d, n);
    PowPow(m, e, d);
    LeadingZerosRestored(block);
  }
}
