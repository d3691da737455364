/** The search for a divider of the number `pq` in `Utils`, and what the client makes of it. */
module Factoring {
  import opened Arithmetic

  predicate Divides(d: nat, x: nat) {
    d > 0 && x % d == 0
  }

  // ---------------------------------------------------------------- divisibility

  lemma {:induction false} DividesTimes(d: nat, k: nat)
    requires d > 0
    ensures Divides(d, k * d)
  {
    Div(d, k, 0);
  }

  lemma {:induction false} QuotientOf(d: nat, x: nat) returns (k: nat)
    requires Divides(d, x)
    ensures x == k * d
  {
    k := x / d;
    assert x == x / d * d + x % d;
  }

  lemma {:induction false} DividesSum(d: nat, x: nat, y: nat)
    requires Divides(d, x)
    ensures Divides(d, y) <==> Divides(d, x + y)
  {
    var k := QuotientOf(d, x);
    ModAdd(d, k, y);
  }

  lemma {:induction false} DividesAtMost(d: nat, x: nat)
    requires Divides(d, x) && x > 0
    ensures d <= x
  {
    var k := QuotientOf(d, x);
    if k > 0 {
      MulMonotone(1, k, d);
    }
  }

  lemma {:induction false} DividesMultiple(d: nat, x: nat, m: nat)
    requires Divides(d, x)
    ensures Divides(d, x * m)
  {
    var k := QuotientOf(d, x);
    assert (k * d) * m == (k * m) * d;
    DividesTimes(d, k * m);
  }

  lemma {:induction false} DividesDouble(d: nat, y: nat)
    requires d % 2 == 1
    ensures Divides(d, 2 * y) <==> Divides(d, y)
  {
    if Divides(d, y) {
      DividesMultiple(d, y, 2);
    }
    if Divides(d, 2 * y) {
      var m := d / 2;
      DividesMultiple(d, 2 * y, m + 1);
      DoubleTimes(y, m);
      DividesTimes(d, y);
      DividesSum(d, y * d, y);
    }
  }

  lemma {:induction false} DoubleTimes(y: nat, m: nat)
    ensures 2 * y * (m + 1) == y * (2 * m + 1) + y
  {
  }

  // ---------------------------------------------------------------- the odd common divisor

  predicate OddCommon(d: nat, a: nat, b: nat) {
    d % 2 == 1 && Divides(d, a) && Divides(d, b)
  }

  /** The pairs have the same odd common divisors. */
  ghost predicate SameOdd(a: nat, b: nat, a': nat, b': nat) {
    forall d: nat :: OddCommon(d, a, b) <==> OddCommon(d, a', b')
  }

  lemma {:induction false} HalvedRight(a: nat, b: nat)
    requires b % 2 == 0
    ensures SameOdd(a, b, a, b / 2)
  {
    forall d: nat ensures OddCommon(d, a, b) <==> OddCommon(d, a, b / 2) {
      if d % 2 == 1 {
        DividesDouble(d, b / 2);
      }
    }
  }

  lemma {:induction false} Swapped(a: nat, b: nat)
    ensures SameOdd(a, b, b, a)
  {
  }

  lemma {:induction false} Subtracted(a: nat, b: nat)
    requires a >= b
    ensures SameOdd(a, b, a - b, b)
  {
    forall d: nat ensures OddCommon(d, a, b) <==> OddCommon(d, a - b, b) {
      if Divides(d, b) {
        DividesSum(d, b, a - b);
      }
    }
  }

  /** The greatest odd common divisor: every odd common divisor divides it. */
  ghost predicate IsGreatestOdd(g: nat, a: nat, b: nat) {
    OddCommon(g, a, b) && forall d: nat :: OddCommon(d, a, b) ==> Divides(d, g)
  }

  lemma {:induction false} GreatestWithZero(g: nat)
    requires g % 2 == 1
    ensures IsGreatestOdd(g, 0, g) && IsGreatestOdd(g, g, 0)
  {
  }

  lemma {:induction false} GreatestCarries(g: nat, a: nat, b: nat, a': nat, b': nat)
    requires IsGreatestOdd(g, a, b) && SameOdd(a', b', a, b)
    ensures IsGreatestOdd(g, a', b')
  {
  }

  /** The two shift loops: an even number is halved until it is odd. */
  method OddPart(x: nat, ghost other: nat) returns (y: nat)
    requires x > 0
    ensures 0 < y <= x && y % 2 == 1
    ensures SameOdd(other, x, other, y)
  {
    y := x;
    while y % 2 == 0
      invariant 0 < y <= x && SameOdd(other, x, other, y)
      decreases y
    {
      HalvedRight(other, y);
      y := y / 2;
    }
  }

  method GreatestCommonOddDivisor(a0: nat, b0: nat) returns (g: nat)
    ensures a0 > 0 && b0 > 0 ==> IsGreatestOdd(g, a0, b0)
    ensures a0 == 0 ==> g == b0
    ensures b0 == 0 ==> g == a0
  {
    var a, b := a0, b0;
    while a != 0 && b != 0
      invariant a0 > 0 && b0 > 0 ==> SameOdd(a0, b0, a, b)
      invariant a0 == 0 || b0 == 0 ==> a == a0 && b == b0
      invariant a0 > 0 && b0 > 0 ==> (a == a0 && b == b0) || (a + b > 0 && (a % 2 == 1 || b % 2 == 1))
      invariant a == 0 ==> b % 2 == 1 || a0 == 0
      invariant b == 0 ==> a % 2 == 1 || b0 == 0
      decreases a + b
    {
      ghost var a1, b1 := a, b;
      b := OddPart(b, a);
      Swapped(a, b);
      a := OddPart(a, b);
      Swapped(a, b);
      assert SameOdd(a1, b1, a, b);
      if a > b {
        Subtracted(a, b);
        a := a - b;
      } else {
        Swapped(a, b);
        Subtracted(b, a);
        Swapped(a, b - a);
        b := b - a;
      }
    }
    g := if b == 0 then a else b;
    if a0 > 0 && b0 > 0 {
      GreatestWithZero(g);
      GreatestCarries(g, a, b, a0, b0);
    }
  }

  /** With one odd number there are no even common divisors: the result is the true one. */
  lemma {:induction false} TrueGreatest(g: nat, a: nat, b: nat, d: nat)
    requires IsGreatestOdd(g, a, b) && b % 2 == 1 && Divides(d, a) && Divides(d, b)
    ensures Divides(d, g)
  {
    OddDivisor(d, b);
  }

  lemma {:induction false} OddDivisor(d: nat, b: nat)
    requires Divides(d, b) && b % 2 == 1
    ensures d % 2 == 1
  {
    var k := QuotientOf(d, b);
    var h := d / 2;
    EvenTimes(k, h);
  }

  lemma {:induction false} EvenTimes(k: nat, h: nat)
    ensures k * (2 * h) % 2 == 0
  {
    assert k * (2 * h) == (k * h) * 2;
  }

  // ---------------------------------------------------------------- one step of the search

  function Add64(a: nat, b: nat): nat {
    (a + b) % TWO64
  }

  function Sub64(a: nat, b: nat): nat
    requires b < TWO64
  {
    (a + TWO64 - b) % TWO64
  }

  /** `c += a; if (c >= number) c -= number`, in 64 bits. */
  function AddReduced(c: nat, a: nat, number: nat): nat
    requires number < TWO64
  {
    var s := Add64(c, a);
    if s >= number then Sub64(s, number) else s
  }

  lemma {:induction false} AddReducedIsModular(c: nat, a: nat, number: nat)
    requires 0 < number <= TWO63 && c < number && a < number
    ensures AddReduced(c, a, number) == (c + a) % number
    ensures AddReduced(c, a, number) < number
  {
    assert Add64(c, a) == c + a;
    if c + a >= number {
      Div(number, 1, c + a - number);
    } else {
      Div(number, 0, c + a);
    }
  }

  lemma {:induction false} SumReduced(u: nat, v: nat, n: nat)
    requires n > 0
    ensures (u % n + v) % n == (u + v) % n
  {
    assert u == u / n * n + u % n;
    ModAdd(n, u / n, u % n + v);
  }

  lemma {:induction false} ProductReduced(c: nat, u: nat, h: nat, n: nat)
    requires n > 0
    ensures (c + (u % n) * h) % n == (c + u * h) % n
  {
    assert u == u / n * n + u % n;
    Distribute(u / n, n, u % n, h);
    ModAdd(n, u / n * h, c + (u % n) * h);
  }

  lemma {:induction false} Halves(a: nat, b: nat)
    ensures a * b == (a + a) * (b / 2) + (if b % 2 == 1 then a else 0)
  {
    var h := b / 2;
    if b % 2 == 1 {
      assert a * (2 * h + 1) == (a + a) * h + a;
    } else {
      assert a * (2 * h) == (a + a) * h;
    }
  }

  /** `c + a * b` is preserved modulo `n` by one round of shift and add. */
  lemma {:induction false} ShiftAddRound(a: nat, b: nat, c: nat, n: nat)
    requires n > 0
    ensures var c' := if b % 2 == 1 then (c + a) % n else c;
            (c' + ((a + a) % n) * (b / 2)) % n == (c + a * b) % n
  {
    var h, c' := b / 2, if b % 2 == 1 then (c + a) % n else c;
    Halves(a, b);
    ProductReduced(c', a + a, h, n);
    if b % 2 == 1 {
      SumReduced(c + a, (a + a) * h, n);
    }
  }

  /** The shift-and-add loop: it computes `x * x + q` modulo the number, without overflow. */
  method SquarePlus(x: nat, q: nat, number: nat) returns (c: nat)
    requires 0 < number < TWO64 && x < TWO64 && q < TWO64
    ensures number <= TWO63 && x < number && q < number ==> c == (x * x + q) % number
    ensures c < TWO64
  {
    var a: nat, b := x, x;
    c := q;
    ghost var exact := number <= TWO63 && x < number && q < number;
    while b != 0
      invariant exact ==> a < number && c < number
      invariant exact ==> (c + a * b) % number == (x * x + q) % number
      invariant c < TWO64
      decreases b
    {
      if exact {
        ShiftAddRound(a, b, c, number);
        AddReducedIsModular(c, a, number);
        AddReducedIsModular(a, a, number);
      }
      if b % 2 == 1 {
        c := AddReduced(c, a, number);
      }
      a := AddReduced(a, a, number);
      b := b / 2;
    }
    if exact {
      Div(number, 0, c);
    }
  }

  // ---------------------------------------------------------------- the search

  /** `x < y ? number + x - y : x - y`, in 64 bits. */
  function Distance(x: nat, y: nat, number: nat): nat
    requires y < TWO64
  {
    if x < y then Sub64(Add64(number, x), y) else x - y
  }

  /** What the search returns: the number itself exactly when the sequence has run into a cycle. */
  lemma {:induction false} DividerOf(z: nat, number: nat, g: nat)
    requires 0 < number && z < number
    requires if z == 0 then g == number else IsGreatestOdd(g, z, number)
    ensures Divides(g, number)
    ensures g == number <==> z == 0
  {
    if z == 0 {
      DividesTimes(number, 1);
    } else {
      DividesAtMost(g, z);
    }
  }

  const FIRST_LIMIT: nat := 0x4_0000 // 1 << 18

  function Limit(i: nat): nat {
    if i == 0 then FIRST_LIMIT else 2 * Limit(i - 1)
  }

  lemma {:induction false} LimitAtLeast(i: nat)
    ensures Limit(i) >= FIRST_LIMIT
  {
    if i > 0 {
      LimitAtLeast(i - 1);
    }
  }

  predicate PowerOfTwo(j: nat)
    decreases j
  {
    j == 1 || (j > 1 && j % 2 == 0 && PowerOfTwo(j / 2))
  }

  /** The limit of a round is a power of two, one higher in each round. */
  lemma {:induction false} LimitDoubles(i: nat)
    ensures Limit(i) == Pow2(18 + i)
  {
    if i == 0 {
      assert Pow2(6) == 64;
      assert Pow2(12) == 0x1000;
      assert Pow2(18) == FIRST_LIMIT;
    } else {
      LimitDoubles(i - 1);
    }
  }

  lemma {:induction false} PowerIsPower(k: nat)
    ensures PowerOfTwo(Pow2(k))
  {
    if k > 0 {
      PowerIsPower(k - 1);
    }
  }

  lemma {:induction false} IsPower(j: nat) returns (k: nat)
    requires PowerOfTwo(j)
    ensures j == Pow2(k)
    decreases j
  {
    if j == 1 {
      k := 0;
    } else {
      var n := IsPower(j / 2);
      k := n + 1;
    }
  }

  lemma {:induction false} DistanceBelow(x: nat, y: nat, number: nat)
    requires x < number <= TWO63 && y < number
    ensures Distance(x, y, number) < number
    ensures Distance(x, y, number) == 0 <==> x == y
  {
  }

  /** Two values of the sequence that differ and whose distance has no odd divisor in common with the number. */
  ghost predicate Apart(x: nat, y: nat, number: nat) {
    x != y && y < TWO64 && IsGreatestOdd(1, Distance(x, y, number), number)
  }

  /** The divisor that two values of the sequence share with the number. */
  method Compare(x: nat, y: nat, number: nat) returns (g: nat)
    requires 2 <= number < TWO64 && x < TWO64 && y < TWO64
    ensures Divides(g, number)
    ensures number <= TWO63 && x < number && y < number ==>
            (g == number <==> x == y) && (g == 1 <==> Apart(x, y, number))
  {
    var z := Distance(x, y, number);
    g := GreatestCommonOddDivisor(z, number);
    if z == 0 {
      DividesTimes(number, 1);
    }
    if number <= TWO63 && x < number && y < number {
      DistanceBelow(x, y, number);
      DividerOf(z, number, g);
      if Apart(x, y, number) {
        DividesAtMost(g, 1);
      }
    }
  }

  /** What a round starts with: the sequence of squares plus `q`, modulo the number. */
  datatype Walk = Walk(start: nat, q: nat, number: nat) {
    predicate Valid() {
      2 <= number <= TWO63 && start < number && q < number
    }

    /** The value after `j` steps. */
    function Orbit(j: nat): nat
      requires number > 0
    {
      if j == 0 then start
      else
        var x := Orbit(j - 1);
        (x * x + q) % number
    }
  }

  /** The step whose value is compared at step `j`: the last power of two before it. */
  function Checkpoint(j: nat): nat {
    if j <= 1 then 0 else if PowerOfTwo(j - 1) then j - 1 else Checkpoint(j - 1)
  }

  /** For the first step it is the start; else it lies less than its own length back, as no other power of two does. */
  lemma {:induction false} CheckpointIsLast(j: nat) returns (k: nat)
    requires j >= 1
    ensures if j == 1 then Checkpoint(j) == 0 else Checkpoint(j) == Pow2(k) < j <= 2 * Pow2(k)
  {
    if j == 1 {
      k := 0;
    } else if j == 2 || PowerOfTwo(j - 1) {
      k := IsPower(j - 1);
    } else {
      k := CheckpointIsLast(j - 1);
      PowerIsPower(k + 1);
    }
  }

  ghost predicate Meets(w: Walk, j: nat)
    requires w.number > 0
  {
    w.Orbit(j) == w.Orbit(Checkpoint(j))
  }

  ghost predicate Silent(w: Walk, j: nat)
    requires w.number > 0
  {
    Apart(w.Orbit(j), w.Orbit(Checkpoint(j)), w.number)
  }

  /** Nothing is found before step `j`. */
  ghost predicate SilentBefore(w: Walk, j: nat)
    requires w.number > 0
  {
    forall i :: 1 <= i < j ==> Silent(w, i)
  }

  /** The first thing found is that the sequence has come back to its checkpoint. */
  ghost predicate MeetsFirst(w: Walk, lim: nat)
    requires w.number > 0
  {
    exists j :: 1 <= j < lim && Meets(w, j) && SilentBefore(w, j)
  }

  /** The first step that is not silent decides. */
  lemma {:induction false} FirstDecides(w: Walk, lim: nat, j: nat)
    requires w.number > 0 && 1 <= j < lim && SilentBefore(w, j) && !Silent(w, j)
    ensures MeetsFirst(w, lim) <==> Meets(w, j)
    ensures !SilentBefore(w, lim)
  {
    if MeetsFirst(w, lim) {
      var k :| 1 <= k < lim && Meets(w, k) && SilentBefore(w, k);
      assert Meets(w, k) ==> !Silent(w, k);
      assert k == j;
    }
  }

  lemma {:induction false} NeverMeets(w: Walk, lim: nat)
    requires w.number > 0 && SilentBefore(w, lim)
    ensures !MeetsFirst(w, lim)
  {
    forall k | 1 <= k < lim ensures !Meets(w, k) {
      assert Silent(w, k);
    }
  }

  lemma {:induction false} SilentMore(w: Walk, j: nat)
    requires w.number > 0 && SilentBefore(w, j) && (j >= 1 ==> Silent(w, j))
    ensures SilentBefore(w, j + 1)
  {
  }

  /** From one value of the sequence to the next one. */
  method Advance(x: nat, q: nat, number: nat, ghost w: Walk, ghost j: nat) returns (c: nat)
    requires 0 < number < TWO64 && x < TWO64 && q < number
    ensures c < TWO64
    ensures number <= TWO63 && x < number ==> c < number
    ensures w.Valid() && w.number == number && w.q == q && x < number && x == w.Orbit(j) ==> c == w.Orbit(j + 1)
  {
    c := SquarePlus(x, q, number);
  }

  /**
   One round: follow the sequence until a common divisor shows up or the limit is reached.
   It returns the number itself if and only if the sequence comes back to its checkpoint before
   any divisor shows up, and one if and only if nothing shows up at all.
   */
  method SearchRound(number: nat, q: nat, x0: nat, lim: nat) returns (g: nat)
    requires 2 <= number < TWO64 && q < number && x0 < number && lim > 1
    ensures Divides(g, number)
    ensures number <= TWO63 ==> (g == number <==> MeetsFirst(Walk(x0, q, number), lim))
    ensures number <= TWO63 ==> (g == 1 <==> SilentBefore(Walk(x0, q, number), lim))
  {
    var x: nat, y: nat := x0, x0;
    ghost var w := Walk(x0, q, number);
    g := 1;
    DividesTimes(1, number);
    for j := 1 to lim
      invariant x < TWO64 && y < TWO64 && g == 1
      invariant w.Valid() ==> x < number && y < number
      invariant w.Valid() ==> x == w.Orbit(j - 1) && y == w.Orbit(Checkpoint(j))
      invariant w.Valid() ==> SilentBefore(w, j)
    {
      x := Advance(x, q, number, w, j - 1);
      g := Compare(x, y, number);
      if g != 1 {
        if w.Valid() {
          FirstDecides(w, lim, j);
        }
        return;
      }
      if w.Valid() {
        SilentMore(w, j);
      }
      if PowerOfTwo(j) {
        y := x;
      }
    }
    if w.Valid() {
      NeverMeets(w, lim);
    }
  }

  /** The sequence of the round `i`, from the values of the random generator. */
  function WalkOf(number: nat, rand: nat -> nat, i: nat): Walk
    requires number >= 2
  {
    Walk(rand(2 * i + 1) % (number - 1) + 1, (rand(2 * i) % 16 + 17) % number, number)
  }

  lemma {:induction false} WalkInRange(number: nat, rand: nat -> nat, i: nat)
    requires number >= 2
    ensures 1 <= WalkOf(number, rand, i).start < number && WalkOf(number, rand, i).q < number
    ensures number > 32 ==> 17 <= WalkOf(number, rand, i).q <= 32
  {
  }

  /** Each round takes the next two values of the random generator. */
  lemma {:induction false} TwoValuesPerRound(number: nat, rand: nat -> nat, rand': nat -> nat, i: nat)
    requires number >= 2 && rand(2 * i) == rand'(2 * i) && rand(2 * i + 1) == rand'(2 * i + 1)
    ensures WalkOf(number, rand, i) == WalkOf(number, rand', i)
  {
  }

  /** Nothing is found in the rounds before `i`. */
  ghost predicate RoundsSilent(number: nat, rand: nat -> nat, i: nat)
    requires number >= 2
  {
    forall k :: 0 <= k < i ==> SilentBefore(WalkOf(number, rand, k), Limit(k))
  }

  /** The first thing found in any of the three rounds is that a sequence has come back. */
  ghost predicate ReturnsNumber(number: nat, rand: nat -> nat)
    requires number >= 2
  {
    exists i :: 0 <= i < 3 && MeetsFirst(WalkOf(number, rand, i), Limit(i)) && RoundsSilent(number, rand, i)
  }

  lemma {:induction false} FirstRoundDecides(number: nat, rand: nat -> nat, i: nat)
    requires number >= 2 && 0 <= i < 3 && RoundsSilent(number, rand, i)
    requires !SilentBefore(WalkOf(number, rand, i), Limit(i))
    ensures ReturnsNumber(number, rand) <==> MeetsFirst(WalkOf(number, rand, i), Limit(i))
    ensures !RoundsSilent(number, rand, 3)
  {
    if ReturnsNumber(number, rand) {
      var k :| 0 <= k < 3 && MeetsFirst(WalkOf(number, rand, k), Limit(k)) && RoundsSilent(number, rand, k);
      if k < i {
        NeverMeets(WalkOf(number, rand, k), Limit(k));
      }
      assert k == i;
    }
  }

  /** What one round has shown, for the rounds so far. */
  lemma {:induction false} OneMoreRound(number: nat, rand: nat -> nat, i: nat, g: nat)
    requires number >= 2 && i < 3 && RoundsSilent(number, rand, i)
    requires g == number <==> MeetsFirst(WalkOf(number, rand, i), Limit(i))
    requires g == 1 <==> SilentBefore(WalkOf(number, rand, i), Limit(i))
    ensures if g == 1 then RoundsSilent(number, rand, i + 1)
            else (g == number <==> ReturnsNumber(number, rand)) && !RoundsSilent(number, rand, 3)
  {
    if g != 1 {
      FirstRoundDecides(number, rand, i);
    }
  }

  lemma {:induction false} NoRoundMeets(number: nat, rand: nat -> nat)
    requires number >= 2 && RoundsSilent(number, rand, 3)
    ensures !ReturnsNumber(number, rand)
  {
    if ReturnsNumber(number, rand) {
      var k :| 0 <= k < 3 && MeetsFirst(WalkOf(number, rand, k), Limit(k)) && RoundsSilent(number, rand, k);
      NeverMeets(WalkOf(number, rand, k), Limit(k));
    }
  }

  /**
   `findDivider`; `rand` are the values of the random generator. At most three rounds are made.
   The result is the number itself, or one, exactly in the stated cases; otherwise it is proper.
   */
  method FindDivider(number: nat, rand: nat -> nat) returns (divider: nat, ghost rounds: nat)
    requires 2 <= number < TWO64
    ensures Divides(divider, number) && rounds <= 3
    ensures number <= TWO63 ==> (divider == number <==> ReturnsNumber(number, rand))
    ensures number <= TWO63 ==> (divider == 1 <==> RoundsSilent(number, rand, 3))
  {
    var i := 0;
    var it := 0;
    rounds := 0;
    while i < 3 || it < 10000
      invariant i <= 3 && rounds == i && it >= i * (FIRST_LIMIT - 1)
      invariant number <= TWO63 ==> RoundsSilent(number, rand, i)
      decreases 3 - i
    {
      var w := Walk(rand(2 * i + 1) % (number - 1) + 1, (rand(2 * i) % 16 + 17) % number, number);
      WalkInRange(number, rand, i);
      LimitAtLeast(i);
      rounds := i + 1;
      var g := SearchRound(number, w.q, w.start, Limit(i));
      it := it + (Limit(i) - 1);
      if number <= TWO63 {
        OneMoreRound(number, rand, i, g);
      }
      if g != 1 {
        return g, rounds;
      }
      i := i + 1;
    }
    if number <= TWO63 {
      NoRoundMeets(number, rand);
    }
    DividesTimes(1, number);
    divider := 1;
  }

  /** A sequence that stays where it starts. */
  lemma {:induction false} StaysAtStart(w: Walk, lim: nat)
    requires w.Valid() && (w.start * w.start + w.q) % w.number == w.start && lim > 1
    ensures MeetsFirst(w, lim)
  {
    assert w.Orbit(0) == w.start;
    assert w.Orbit(1) == w.start;
    assert Meets(w, 1) && SilentBefore(w, 1);
  }

  lemma {:induction false} FirstRoundReturns(number: nat, rand: nat -> nat, w: Walk)
    requires number >= 2 && w == WalkOf(number, rand, 0) && MeetsFirst(w, FIRST_LIMIT)
    ensures ReturnsNumber(number, rand)
  {
    assert Limit(0) == FIRST_LIMIT && RoundsSilent(number, rand, 0);
  }

  /** For 21 and the random values 4 and 0 the sequence stays at one: the search returns 21. */
  lemma {:induction false} NumberReturned(rand: nat -> nat)
    requires rand(0) == 4 && rand(1) == 0
    ensures ReturnsNumber(21, rand)
  {
    var w := Walk(1, 0, 21);
    assert WalkOf(21, rand, 0) == w;
    StaysAtStart(w, FIRST_LIMIT);
    FirstRoundReturns(21, rand, w);
  }

  // ---------------------------------------------------------------- two prime factors

  ghost predicate IsPrime(p: nat) {
    p >= 2 && forall d: nat :: Divides(d, p) ==> d == 1 || d == p
  }

  /** A prime that divides a product divides one of its factors. */
  lemma {:induction false} Euclid(p: nat, a: nat, b: nat)
    requires IsPrime(p) && 0 < a < p && Divides(p, a * b)
    ensures Divides(p, b)
    decreases a
  {
    if a > 1 {
      var k, r := p / a, p % a;
      assert p == k * a + r;
      assert r != 0 by {
        if r == 0 {
          assert Divides(a, p);
        }
      }
      Distribute(k, a, r, b);
      assert (k * b) * a == k * (a * b);
      DividesMultiple(p, a * b, k);
      assert (a * b) * k == k * (a * b);
      DividesTimes(p, b);
      assert b * p == k * (a * b) + r * b;
      DividesSum(p, k * (a * b), r * b);
      Euclid(p, r, b);
    }
  }

  lemma {:induction false} EuclidAny(p: nat, a: nat, b: nat)
    requires IsPrime(p) && Divides(p, a * b)
    ensures Divides(p, a) || Divides(p, b)
  {
    var k, r := a / p, a % p;
    if r != 0 {
      assert a == k * p + r;
      Distribute(k, p, r, b);
      DividesTimes(p, k * b);
      DividesSum(p, (k * b) * p, r * b);
      Euclid(p, r, b);
    }
  }

  lemma {:induction false} CancelLeft(p: nat, a: nat, b: nat)
    requires p > 0 && p * a == p * b
    ensures a == b
  {
    assert a * p == p * a && b * p == p * b;
    UniqueDivision(p, a, 0, b, 0);
  }

  lemma {:induction false} DividerOfProduct(p: nat, q: nat, r: nat)
    requires IsPrime(p) && IsPrime(q) && Divides(r, p * q)
    ensures r == 1 || r == p || r == q || r == p * q
  {
    var s := QuotientOf(r, p * q);
    assert p * q == q * p && s * r == r * s;
    DividesTimes(p, q);
    EuclidAny(p, r, s);
    if Divides(p, r) {
      var t := QuotientOf(p, r);
      assert (t * p) * s == p * (t * s);
      CancelLeft(p, q, t * s);
      DividesTimes(t, s);
      assert s * t == t * s;
    } else {
      var t := QuotientOf(p, s);
      assert r * (t * p) == p * (r * t);
      CancelLeft(p, q, r * t);
      DividesTimes(r, t);
      assert t * r == r * t;
    }
  }

  /** `m_p` and `m_q` of the client, cut to 32 bits. */
  function Factors(pq: nat, div1: nat): (nat, nat)
    requires div1 > 0
  {
    var div2 := pq / div1;
    if div1 < div2 then (div1 % TWO32, div2 % TWO32) else (div2 % TWO32, div1 % TWO32)
  }

  lemma {:induction false} FactorsOfProper(p: nat, q: nat)
    requires 0 < p < q < TWO32
    ensures Factors(p * q, p) == (p, q) && Factors(p * q, q) == (p, q)
  {
    assert p * q == q * p;
    Div(p, q, 0);
    Div(q, p, 0);
  }

  lemma {:induction false} FactorsOfOther(n: nat)
    requires n > 1
    ensures Factors(n, 1).0 == 1 && Factors(n, n).0 == 1
  {
    Div(n, 1, 0);
  }

  /** The client finds exactly the two primes if and only if the divider is a proper one. */
  lemma {:induction false} FactorsFoundIff(p: nat, q: nat, r: nat)
    requires IsPrime(p) && IsPrime(q) && p < q < TWO32 && Divides(r, p * q)
    ensures Factors(p * q, r) == (p, q) <==> r != 1 && r != p * q
  {
    DividerOfProduct(p, q, r);
    MulMonotone(2, p, q);
    FactorsOfProper(p, q);
    FactorsOfOther(p * q);
  }
}
