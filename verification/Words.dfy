/** 64-bit words as naturals below 2^64, with the operations the configuration hash uses. */
module Words {

  const MOD := 0x1_0000_0000_0000_0000

  type Word = x: nat | x < MOD

  /** Truncation to 64 bits. */
  function Wrap(x: nat): Word { x % MOD }

  /** Wrapping addition. */
  function Add(a: Word, b: Word): Word { Wrap(a + b) }

  lemma AddAssociates(a: Word, b: Word, c: Word)
    ensures Add(a, Add(b, c)) == Add(Add(a, b), c)
  {
    AddThree(a, b, c);
    AddThree(c, a, b);
    AddCommutes(c, Add(a, b));
  }

  lemma AddCommutes(a: Word, b: Word)
    ensures Add(a, b) == Add(b, a)
  {}

  lemma AddThree(a: Word, b: Word, c: Word)
    ensures Add(a, Add(b, c)) == Wrap(a + b + c)
  {
    var q := (b + c) / MOD;
    var x := a + Add(b, c);
    ModUnique(a + b + c, x / MOD + q, x % MOD);
  }

  lemma AddInjective(a: Word, b: Word, c: Word)
    requires Add(a, c) == Add(b, c)
    ensures a == b
  {}

  function LowBit(a: nat, b: nat): nat { if a % 2 == b % 2 then 0 else 1 }

  /** Bitwise exclusive or. */
  function Xor(a: nat, b: nat): nat
    decreases a + b
  {
    if a == 0 && b == 0 then 0
    else LowBit(a, b) + 2 * Xor(a / 2, b / 2)
  }

  /** Logical shift right. */
  function Shr(x: nat, k: nat): nat
    decreases k
  {
    if k == 0 then x else Shr(x / 2, k - 1)
  }

  function Pow2(k: nat): nat {
    if k == 0 then 1 else 2 * Pow2(k - 1)
  }

  lemma Pow64()
    ensures Pow2(64) == MOD
  {
    assert Pow2(8) == 0x100;
    assert Pow2(16) == 0x10000;
    assert Pow2(24) == 0x1000000;
    assert Pow2(32) == 0x100000000;
    assert Pow2(40) == 0x10000000000;
    assert Pow2(48) == 0x1000000000000;
    assert Pow2(56) == 0x100000000000000;
  }

  lemma {:induction false} XorBound(a: nat, b: nat, k: nat)
    requires a < Pow2(k) && b < Pow2(k)
    ensures Xor(a, b) < Pow2(k)
    decreases k
  {
    if k > 0 {
      XorBound(a / 2, b / 2, k - 1);
    }
  }

  function XorWord(a: Word, b: Word): Word {
    Pow64(); XorBound(a, b, 64);
    Xor(a, b)
  }

  lemma {:induction false} XorCommutes(a: nat, b: nat)
    ensures Xor(a, b) == Xor(b, a)
    decreases a + b
  {
    if a + b > 0 {
      XorCommutes(a / 2, b / 2);
    }
  }

  /** The lowest bit and the rest of an exclusive or. */
  lemma XorParts(a: nat, b: nat)
    ensures Xor(a, b) / 2 == Xor(a / 2, b / 2)
    ensures Xor(a, b) % 2 == LowBit(a, b)
  {
    HalfOf(LowBit(a, b), Xor(a / 2, b / 2));
  }

  lemma HalfOf(low: nat, high: nat)
    requires low < 2
    ensures (low + 2 * high) / 2 == high && (low + 2 * high) % 2 == low
  {}

  lemma {:induction false} XorAssociates(a: nat, b: nat, c: nat)
    ensures Xor(Xor(a, b), c) == Xor(a, Xor(b, c))
    decreases a + b + c
  {
    if a + b + c > 0 {
      hide Xor;
      XorParts(a, b); XorParts(b, c);
      XorParts(Xor(a, b), c); XorParts(a, Xor(b, c));
      XorAssociates(a / 2, b / 2, c / 2);
      SameHalves(Xor(Xor(a, b), c), Xor(a, Xor(b, c)));
    }
  }

  lemma SameHalves(x: nat, y: nat)
    requires x / 2 == y / 2 && x % 2 == y % 2
    ensures x == y
  {}

  lemma {:induction false} XorUnits(a: nat)
    ensures Xor(a, 0) == a && Xor(a, a) == 0
  {
    if a > 0 {
      XorUnits(a / 2);
    }
  }

  /** Xor-ing twice with the same word gives the word back, so xor is injective. */
  lemma XorCancels(a: nat, b: nat)
    ensures Xor(Xor(a, b), b) == a
  {
    XorAssociates(a, b, b);
    XorUnits(a); XorUnits(b);
  }

  lemma {:induction false} ShrXor(a: nat, b: nat, k: nat)
    ensures Shr(Xor(a, b), k) == Xor(Shr(a, k), Shr(b, k))
    decreases k
  {
    if k > 0 {
      XorParts(a, b);
      ShrXor(a / 2, b / 2, k - 1);
    }
  }

  lemma {:induction false} ShrShr(x: nat, j: nat, k: nat)
    ensures Shr(Shr(x, j), k) == Shr(x, j + k)
    decreases j
  {
    if j > 0 {
      ShrShr(x / 2, j - 1, k);
    }
  }

  lemma {:induction false} ShrBound(x: nat, j: nat, k: nat)
    requires x < Pow2(j + k)
    ensures Shr(x, j) < Pow2(k)
    decreases j
  {
    if j > 0 {
      ShrBound(x / 2, j - 1, k);
    }
  }

  lemma ShrWord(x: Word, j: nat)
    requires j <= 64
    ensures Shr(x, j) < MOD
    ensures j == 64 ==> Shr(x, j) == 0
  {
    Pow64();
    ShrBound(x, j, 64 - j);
    PowMonotone(64 - j, 64);
  }

  lemma {:induction false} PowMonotone(j: nat, k: nat)
    requires j <= k
    ensures Pow2(j) <= Pow2(k)
    decreases k - j
  {
    if j < k {
      PowMonotone(j + 1, k);
    }
  }

  lemma ShrPast(x: Word, j: nat)
    requires j >= 64
    ensures Shr(x, j) == 0
  {
    ShrShr(x, 64, j - 64);
    ShrWord(x, 64);
    ShrZero(j - 64);
  }

  lemma {:induction false} ShrZero(k: nat)
    ensures Shr(0, k) == 0
  {
    if k > 0 {
      ShrZero(k - 1);
    }
  }

  /** x ^= x >> k. */
  function XorShift(x: Word, k: nat): Word
    requires k <= 64
  {
    ShrWord(x, k);
    XorWord(x, Shr(x, k))
  }

  /** For shifts of 22 bits and more, two further terms undo an xor-shift. */
  function UnXorShift(y: Word, k: nat): Word
    requires 22 <= k <= 32
  {
    ShrWord(y, k); ShrWord(y, 2 * k);
    XorWord(XorWord(y, Shr(y, k)), Shr(y, 2 * k))
  }

  lemma UndoXorShift(x: Word, k: nat)
    requires 22 <= k <= 32
    ensures UnXorShift(XorShift(x, k), k) == x
  {
    var a, b := Shr(x, k), Shr(x, 2 * k);
    var y := XorShift(x, k);
    ShrShr(x, k, k); ShrShr(x, k, 2 * k);
    ShrPast(x, 3 * k);
    ShrXor(x, a, k); ShrXor(x, a, 2 * k);
    XorUnits(b);
    assert Shr(y, k) == Xor(a, b) && Shr(y, 2 * k) == b;
    calc {
      Xor(Xor(Xor(x, a), Xor(a, b)), b);
      { XorAssociates(Xor(x, a), Xor(a, b), b); XorCancels(a, b); }
      Xor(Xor(x, a), a);
      { XorCancels(x, a); }
      x;
    }
  }

  lemma RedoXorShift(y: Word, k: nat)
    requires 22 <= k <= 32
    ensures XorShift(UnXorShift(y, k), k) == y
  {
    var a, b := Shr(y, k), Shr(y, 2 * k);
    var x := UnXorShift(y, k);
    ShrShr(y, k, k); ShrShr(y, 2 * k, k);
    ShrPast(y, 3 * k);
    ShrXor(Xor(y, a), b, k); ShrXor(y, a, k);
    XorUnits(Xor(a, b));
    assert Shr(x, k) == Xor(a, b);
    calc {
      Xor(Xor(Xor(y, a), b), Xor(a, b));
      { XorAssociates(y, a, b); }
      Xor(Xor(y, Xor(a, b)), Xor(a, b));
      { XorCancels(y, Xor(a, b)); }
      y;
    }
  }

  lemma ModUnique(x: int, q: int, r: nat)
    requires x == q * MOD + r && r < MOD
    ensures x % MOD == r
  {}

  const C1 := 0xbf58476d1ce4e5b9
  const C2 := 0x94d049bb133111eb
  const D1 := 0x96de1b173f119089
  const D2 := 0x319642b2d24d8ec3

  /** Multiplication by an odd constant is undone by its inverse modulo 2^64. */
  lemma MultiplyInverse(x: Word, c: nat, d: nat, t: nat)
    requires c * d == 1 + t * MOD
    ensures Wrap(Wrap(x * c) * d) == x
  {
    var q, r := x * c / MOD, x * c % MOD;
    calc {
      r * d;
      (x * c - q * MOD) * d;
      x * (c * d) - q * MOD * d;
      x * (1 + t * MOD) - q * MOD * d;
      { assert x * (1 + t * MOD) == x + x * t * MOD; assert q * MOD * d == q * d * MOD; }
      x + x * t * MOD - q * d * MOD;
      (x * t - q * d) * MOD + x;
    }
    ModUnique(r * d, x * t - q * d, x);
  }

  /** mix64, the splitmix64 finalizer. */
  function Mix64(x: Word): Word {
    XorShift(Wrap(XorShift(Wrap(XorShift(x, 30) * C1), 27) * C2), 31)
  }

  function Unmix64(y: Word): Word {
    UnXorShift(Wrap(UnXorShift(Wrap(UnXorShift(y, 31) * D2), 27) * D1), 30)
  }

  /** mix64 is a bijection on 64-bit words. */
  lemma Mix64Bijective(x: Word)
    ensures Unmix64(Mix64(x)) == x
    ensures Mix64(Unmix64(x)) == x
  {
    var t1, t2 := C1 * D1 / MOD, C2 * D2 / MOD;
    assert C1 * D1 == 1 + t1 * MOD && C2 * D2 == 1 + t2 * MOD;
    UnmixMix(x, t1, t2);
    MixUnmix(x, t1, t2);
  }

  lemma UnmixMix(x: Word, t1: nat, t2: nat)
    requires C1 * D1 == 1 + t1 * MOD && C2 * D2 == 1 + t2 * MOD
    ensures Unmix64(Mix64(x)) == x
  {
    var a := XorShift(x, 30);
    var b := Wrap(a * C1);
    var c := XorShift(b, 27);
    var d := Wrap(c * C2);
    UndoXorShift(d, 31);
    MultiplyInverse(c, C2, D2, t2);
    UndoXorShift(b, 27);
    MultiplyInverse(a, C1, D1, t1);
    UndoXorShift(x, 30);
  }

  lemma MixUnmix(y: Word, t1: nat, t2: nat)
    requires C1 * D1 == 1 + t1 * MOD && C2 * D2 == 1 + t2 * MOD
    ensures Mix64(Unmix64(y)) == y
  {
    var d := UnXorShift(y, 31);
    var c := Wrap(d * D2);
    var b := UnXorShift(c, 27);
    var a := Wrap(b * D1);
    RedoXorShift(a, 30);
    MultiplyInverse(b, D1, C1, t1);
    RedoXorShift(c, 27);
    MultiplyInverse(d, D2, C2, t2);
    RedoXorShift(y, 31);
  }

  /** The parts of a rotation: the k high bits and the rest. */
  lemma RotateParts(x: Word, a: nat, b: nat)
    requires a > 0 && b > 0 && a * b == MOD
    ensures x / b < a && x % b < b && x == x / b * b + x % b
    ensures Wrap(x * a) == x % b * a && x % b * a + x / b < MOD
  {
    var h, l := x / b, x % b;
    assert h < a by {
      if h >= a { MulMonotone(a, h, b); }
    }
    MulMonotone(l, b - 1, a);
    assert (b - 1) * a == MOD - a by { assert b * a == MOD; }
    assert x * a == h * MOD + l * a by {
      assert h * b * a == h * (b * a);
      assert (h * b + l) * a == h * b * a + l * a;
    }
    ModUnique(x * a, h, l * a);
  }

  lemma MulMonotone(x: int, y: int, c: nat)
    requires x <= y
    ensures x * c <= y * c
  {}

  lemma {:induction false} PowProduct(j: nat, k: nat)
    ensures Pow2(j) * Pow2(k) == Pow2(j + k)
  {
    if j > 0 {
      PowProduct(j - 1, k);
      assert 2 * Pow2(j - 1) * Pow2(k) == 2 * (Pow2(j - 1) * Pow2(k));
    }
  }

  /** The powers of two by which a rotation multiplies and divides. */
  lemma Amounts(k: nat)
    requires k <= 64
    ensures Pow2(k) > 0 && Pow2(64 - k) > 0 && Pow2(k) * Pow2(64 - k) == MOD
  {
    PowProduct(k, 64 - k);
    Pow64();
  }

  function Rotate(x: Word, a: nat, b: nat): Word
    requires a > 0 && b > 0 && a * b == MOD
  {
    RotateParts(x, a, b);
    Wrap(x * a) + x / b
  }

  /** rotl64: the two shifted parts have no bit in common. */
  function Rotl(x: Word, k: nat): Word
    requires k <= 64
  {
    Amounts(k);
    Rotate(x, Pow2(k), Pow2(64 - k))
  }

  lemma RotateBack(x: Word, a: nat, b: nat)
    requires a > 0 && b > 0 && a * b == MOD
    ensures b * a == MOD && Rotate(Rotate(x, a, b), b, a) == x
  {
    RotateParts(x, a, b);
    var h, l := x / b, x % b;
    assert Rotate(x, a, b) == l * a + h;
    DivideParts(l, h, a);
    RotateParts(l * a + h, b, a);
  }

  /** rotl64 is a bijection on 64-bit words, whatever the amount: rotating by the rest undoes it. */
  lemma RotlBijective(x: Word, k: nat)
    requires k <= 64
    ensures Rotl(Rotl(x, k), 64 - k) == x
    ensures Rotl(Rotl(x, 64 - k), k) == x
  {
    hide Rotate, Pow2;
    Amounts(k);
    Amounts(64 - k);
    RotateBack(x, Pow2(k), Pow2(64 - k));
    RotateBack(x, Pow2(64 - k), Pow2(k));
  }

  lemma DivideParts(q: nat, r: nat, a: nat)
    requires r < a
    ensures (q * a + r) / a == q && (q * a + r) % a == r
  {
    var d := (q * a + r) / a;
    MulStep(d, a);
    MulStep(q, a);
    if d < q { MulMonotone(d + 1, q, a); }
    if d > q { MulMonotone(q + 1, d, a); }
  }

  lemma MulStep(d: int, a: int)
    ensures (d + 1) * a == d * a + a
  {}

  /** The injectivity used by the hash proofs. */
  lemma Mix64Injective(x: Word, y: Word)
    ensures Mix64(x) == Mix64(y) ==> x == y
  {
    hide Mix64, Unmix64;
    Mix64Bijective(x); Mix64Bijective(y);
  }

  lemma RotlInjective(x: Word, y: Word, k: nat)
    requires k <= 64
    ensures Rotl(x, k) == Rotl(y, k) ==> x == y
  {
    hide Rotl;
    RotlBijective(x, k); RotlBijective(y, k);
  }

  lemma XorWordInjective(x: Word, y: Word, c: Word)
    ensures XorWord(x, c) == XorWord(y, c) ==> x == y
    ensures XorWord(c, x) == XorWord(c, y) ==> x == y
  {
    XorCancels(x, c); XorCancels(y, c);
    XorCommutes(x, c); XorCommutes(y, c);
  }
}
