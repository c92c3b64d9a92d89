/** Arithmetic in the field of 256 elements, as aes.py computes it: doubling, the shift-and-add
    product, and the walk through the powers of 3 that fills the S-box (section 4 of FIPS 197). */
module AesField {

  /** The sum in the field. */
  function Add(a: bv8, b: bv8): bv8 {
    a ^ b
  }

  /** `_xtime`: times x, modulo x^8 + x^4 + x^3 + x + 1. */
  function XTime(a: bv8): bv8 {
    if a & 0x80 != 0 then (a << 1) ^ 0x1b else a << 1
  }

  /** `a` when the lowest bit of `b` is set. */
  function Pick(a: bv8, b: bv8): bv8 {
    if b & 1 != 0 then a else 0
  }

  function Half(b: bv8): bv8 {
    b >> 1
  }

  /** The product, over the low `n` bits of `b`. */
  function MulBits(a: bv8, b: bv8, n: nat): bv8
    decreases n
  {
    if n == 0 then 0 else Add(Pick(a, b), MulBits(XTime(a), Half(b), n - 1))
  }

  function Mul(a: bv8, b: bv8): bv8 {
    MulBits(a, b, 8)
  }

  // ---- Linearity ----

  lemma XTimeLinear(a: bv8, b: bv8)
    ensures XTime(Add(a, b)) == Add(XTime(a), XTime(b))
  {
    TopBit(a, b);
    ShiftLeft(a, b);
    if a & 0x80 != 0 {
      if b & 0x80 != 0 {
      } else {
      }
    } else {
      if b & 0x80 != 0 {
      } else {
      }
    }
  }

  lemma TopBit(a: bv8, b: bv8)
    ensures (a ^ b) & 0x80 != 0 <==> ((a & 0x80 != 0) != (b & 0x80 != 0))
  {
  }

  lemma ShiftLeft(a: bv8, b: bv8)
    ensures (a ^ b) << 1 == (a << 1) ^ (b << 1)
  {
  }

  lemma PickLinear(a: bv8, b: bv8, c: bv8)
    ensures Pick(Add(a, b), c) == Add(Pick(a, c), Pick(b, c))
  {
  }

  lemma AddComm(a: bv8, b: bv8)
    ensures Add(a, b) == Add(b, a)
  {
  }

  lemma AddAssoc(a: bv8, b: bv8, c: bv8)
    ensures Add(Add(a, b), c) == Add(a, Add(b, c))
  {
  }

  lemma Regroup(a: bv8, b: bv8, c: bv8, d: bv8)
    ensures Add(Add(a, b), Add(c, d)) == Add(Add(a, c), Add(b, d))
  {
    hide *;
    AddAssoc(a, b, Add(c, d));
    AddAssoc(b, c, d);
    AddComm(b, c);
    AddAssoc(c, b, d);
    AddAssoc(a, c, Add(b, d));
  }

  lemma AddNone(a: bv8)
    ensures Add(a, 0) == a == Add(0, a) && Add(a, a) == 0
  {
  }

  lemma AddTwice(a: bv8, b: bv8)
    ensures Add(Add(a, b), b) == a
  {
    hide *;
    AddAssoc(a, b, b);
    AddNone(b);
    AddNone(a);
  }

  lemma MulBitsUnfold(a: bv8, b: bv8, n: nat)
    requires n > 0
    ensures MulBits(a, b, n) == Add(Pick(a, b), MulBits(XTime(a), Half(b), n - 1))
  {
    hide XTime;
    hide Pick;
    hide Add;
  }

  lemma MulBitsNone(a: bv8, b: bv8)
    ensures MulBits(a, b, 0) == 0
  {
  }

  lemma {:induction false} MulBitsLinear(a: bv8, b: bv8, c: bv8, n: nat)
    ensures MulBits(Add(a, b), c, n) == Add(MulBits(a, c, n), MulBits(b, c, n))
    decreases n
  {
    hide *;
    if n == 0 {
      MulBitsNone(Add(a, b), c);
      MulBitsNone(a, c);
      MulBitsNone(b, c);
      AddNone(0);
    } else {
      MulBitsUnfold(Add(a, b), c, n);
      MulBitsUnfold(a, c, n);
      MulBitsUnfold(b, c, n);
      XTimeLinear(a, b);
      PickLinear(a, b, c);
      MulBitsLinear(XTime(a), XTime(b), Half(c), n - 1);
      Regroup(Pick(a, c), Pick(b, c), MulBits(XTime(a), Half(c), n - 1), MulBits(XTime(b), Half(c), n - 1));
    }
  }

  /** Products distribute over sums. */
  lemma MulLinear(a: bv8, b: bv8, c: bv8)
    ensures Mul(Add(a, b), c) == Add(Mul(a, c), Mul(b, c))
  {
    hide Add;
    hide MulBits;
    MulBitsLinear(a, b, c, 8);
  }

  lemma {:induction false} MulBitsDoubles(a: bv8, b: bv8, n: nat)
    ensures MulBits(XTime(a), b, n) == XTime(MulBits(a, b, n))
    decreases n
  {
    hide *;
    if n == 0 {
      MulBitsNone(XTime(a), b);
      MulBitsNone(a, b);
      NothingDoubled();
    } else {
      MulBitsUnfold(XTime(a), b, n);
      MulBitsUnfold(a, b, n);
      MulBitsDoubles(XTime(a), Half(b), n - 1);
      XTimeLinear(Pick(a, b), MulBits(XTime(a), Half(b), n - 1));
      PickDoubles(a, b);
    }
  }

  lemma NothingDoubled()
    ensures XTime(0) == 0
  {
  }

  lemma PickDoubles(a: bv8, b: bv8)
    ensures XTime(Pick(a, b)) == Pick(XTime(a), b)
  {
  }

  lemma MulDoubles(a: bv8, b: bv8)
    ensures Mul(XTime(a), b) == XTime(Mul(a, b))
  {
    hide XTime;
    hide MulBits;
    MulBitsDoubles(a, b, 8);
  }

  lemma {:induction false} MulBitsByNone(a: bv8, n: nat)
    ensures MulBits(a, 0, n) == 0
    decreases n
  {
    hide XTime;
    if n > 0 {
      MulBitsByNone(XTime(a), n - 1);
    }
  }

  lemma {:induction false} MulBitsOfNone(b: bv8, n: nat)
    ensures MulBits(0, b, n) == 0
    decreases n
  {
    if n > 0 {
      MulBitsOfNone(Half(b), n - 1);
    }
  }

  /** A power of x picks out the bits it stands for. */
  lemma {:induction false} MulBitsOfBit(b: bv8, k: nat)
    requires k < 8
    ensures MulBits(1 << k, b, 8 - k) == b << k
    decreases 8 - k
  {
    hide *;
    MulBitsUnfold(1 << k, b, 8 - k);
    if k == 7 {
      MulBitsNone(XTime(1 << k), Half(b));
    } else {
      BitDoubles(k);
      MulBitsOfBit(Half(b), k + 1);
    }
    BitsSplit(b, k);
  }

  lemma BitDoubles(k: nat)
    requires k < 7
    ensures XTime(1 << k) == 1 << (k + 1)
  {
  }

  lemma BitsSplit(b: bv8, k: nat)
    requires k < 8
    ensures b << k == Add(Pick(1 << k, b), if k == 7 then 0 else Half(b) << (k + 1))
  {
  }

  lemma OneTimes(b: bv8)
    ensures Mul(1, b) == b && Mul(0, b) == 0
  {
    hide MulBits;
    MulBitsOfBit(b, 0);
    MulBitsOfNone(b, 8);
  }

  // ---- The powers of 3 ----

  /** One step of the walk: times 3. */
  function Step(p: bv8): bv8 {
    p ^ (p << 1) ^ (if p & 0x80 != 0 then 0x1b else 0)
  }

  /** The same step on the inverse: divided by 3. */
  function Back(q: bv8): bv8 {
    var q1 := q ^ (q << 1);
    var q2 := q1 ^ (q1 << 2);
    var q4 := q2 ^ (q2 << 4);
    q4 ^ (if q4 & 0x80 != 0 then 0x09 else 0)
  }

  lemma StepIs(p: bv8)
    ensures Step(p) == Add(p, XTime(p))
    ensures Back(Step(p)) == p == Step(Back(p))
  {
  }

  lemma StepMul(a: bv8, b: bv8)
    ensures Mul(Step(a), b) == Step(Mul(a, b))
  {
    hide *;
    StepIs(a);
    StepIs(Mul(a, b));
    MulLinear(a, XTime(a), b);
    MulDoubles(a, b);
  }

  function Pow(k: nat): bv8 {
    if k == 0 then 1 else Step(Pow(k - 1))
  }

  lemma {:induction false} PowAdd(a: nat, b: nat)
    ensures Mul(Pow(a), Pow(b)) == Pow(a + b)
    decreases a
  {
    hide Mul;
    hide Step;
    if a == 0 {
      OneTimes(Pow(b));
    } else {
      PowAdd(a - 1, b);
      StepMul(Pow(a - 1), Pow(b));
    }
  }

  lemma PowSeventeen(k: nat, p: bv8, p2: bv8, p4: bv8, p8: bv8, p16: bv8, p17: bv8)
    requires Pow(k) == p && Mul(p, p) == p2 && Mul(p2, p2) == p4 && Mul(p4, p4) == p8 && Mul(p8, p8) == p16
    requires Mul(p16, p) == p17
    ensures Pow(17 * k) == p17
  {
    hide *;
    PowAdd(k, k);
    PowAdd(2 * k, 2 * k);
    PowAdd(4 * k, 4 * k);
    PowAdd(8 * k, 8 * k);
    PowAdd(16 * k, k);
  }

  lemma PowSmall()
    ensures Pow(3) == 0x0f && Pow(5) == 0x33 && Pow(15) == 0x35
  {
  }

  lemma MulUnrolled(a: bv8, b: bv8)
    ensures var a1 := XTime(a); var a2 := XTime(a1); var a3 := XTime(a2); var a4 := XTime(a3); var a5 := XTime(a4);
            var a6 := XTime(a5); var a7 := XTime(a6);
            var b1 := Half(b); var b2 := Half(b1); var b3 := Half(b2); var b4 := Half(b3); var b5 := Half(b4);
            var b6 := Half(b5); var b7 := Half(b6);
            Mul(a, b) == Add(Pick(a, b), Add(Pick(a1, b1), Add(Pick(a2, b2), Add(Pick(a3, b3), Add(Pick(a4, b4),
                         Add(Pick(a5, b5), Add(Pick(a6, b6), Pick(a7, b7))))))))
  {
    var a1 := XTime(a); var a2 := XTime(a1); var a3 := XTime(a2); var a4 := XTime(a3); var a5 := XTime(a4);
    var a6 := XTime(a5); var a7 := XTime(a6);
    var b1 := Half(b); var b2 := Half(b1); var b3 := Half(b2); var b4 := Half(b3); var b5 := Half(b4);
    var b6 := Half(b5); var b7 := Half(b6);
    hide XTime;
    hide Pick;
    hide Add;
    hide Half;
    hide MulBits;
    MulBitsUnfold(a, b, 8);
    MulBitsUnfold(a1, b1, 7);
    MulBitsUnfold(a2, b2, 6);
    MulBitsUnfold(a3, b3, 5);
    MulBitsUnfold(a4, b4, 4);
    MulBitsUnfold(a5, b5, 3);
    MulBitsUnfold(a6, b6, 2);
    MulBitsUnfold(a7, b7, 1);
    MulBitsNone(XTime(a7), Half(b7));
    AddNone(Pick(a7, b7));
  }

  lemma Squares3()
    ensures Mul(0x0f, 0x0f) == 0x55 && Mul(0x55, 0x55) == 0xa1 && Mul(0xa1, 0xa1) == 0xf7 && Mul(0xf7, 0xf7) == 0x53
    ensures Mul(0x53, 0x0f) == 0x0c
  {
    MulUnrolled(0x0f, 0x0f);
    MulUnrolled(0x55, 0x55);
    MulUnrolled(0xa1, 0xa1);
    MulUnrolled(0xf7, 0xf7);
    MulUnrolled(0x53, 0x0f);
    hide Mul;
  }

  lemma Squares5()
    ensures Mul(0x33, 0x33) == 0x72 && Mul(0x72, 0x72) == 0xd8 && Mul(0xd8, 0xd8) == 0x6a && Mul(0x6a, 0x6a) == 0x83
    ensures Mul(0x83, 0x33) == 0xbd
  {
    MulUnrolled(0x33, 0x33);
    MulUnrolled(0x72, 0x72);
    MulUnrolled(0xd8, 0xd8);
    MulUnrolled(0x6a, 0x6a);
    MulUnrolled(0x83, 0x33);
    hide Mul;
  }

  lemma Squares15()
    ensures Mul(0x35, 0x35) == 0x66 && Mul(0x66, 0x66) == 0xd3 && Mul(0xd3, 0xd3) == 0x2f && Mul(0x2f, 0x2f) == 0x39
    ensures Mul(0x39, 0x35) == 0x01
  {
    MulUnrolled(0x35, 0x35);
    MulUnrolled(0x66, 0x66);
    MulUnrolled(0xd3, 0xd3);
    MulUnrolled(0x2f, 0x2f);
    MulUnrolled(0x39, 0x35);
    hide Mul;
  }

  /** The walk is back at 1 after 255 steps, and not after any of the three largest divisors of 255. */
  lemma PowLandmarks()
    ensures Pow(15) != 1 && Pow(51) != 1 && Pow(85) != 1 && Pow(255) == 1
  {
    hide Pow;
    hide Mul;
    PowSmall();
    Squares3();
    Squares5();
    Squares15();
    PowSeventeen(3, 0x0f, 0x55, 0xa1, 0xf7, 0x53, 0x0c);
    PowSeventeen(5, 0x33, 0x72, 0xd8, 0x6a, 0x83, 0xbd);
    PowSeventeen(15, 0x35, 0x66, 0xd3, 0x2f, 0x39, 0x01);
  }

  lemma {:induction false} PowMultiple(k: nat, q: nat)
    requires Pow(k) == 1
    ensures Pow(k * q) == 1
    decreases q
  {
    hide *;
    PowNone();
    if q == 0 {
      assert k * q == 0;
    } else {
      PowMultiple(k, q - 1);
      PowAdd(k, k * (q - 1));
      OneTimes(1);
      assert k + k * (q - 1) == k * q;
    }
  }

  lemma PowNone()
    ensures Pow(0) == 1
  {
  }

  lemma PowRemainder(k: nat, n: nat)
    requires k > 0 && Pow(k) == 1
    ensures Pow(n) == Pow(n % k)
  {
    hide *;
    PowMultiple(k, n / k);
    PowAdd(k * (n / k), n % k);
    OneTimes(Pow(n % k));
    assert k * (n / k) + n % k == n;
  }

  lemma DivisorsOf255(k: nat)
    requires 0 < k < 255 && 255 % k == 0
    ensures 15 % k == 0 || 51 % k == 0 || 85 % k == 0
  {
    var q := 255 / k;
    assert k * q == 255;
    if k <= 15 {
      assert k in {1, 3, 5, 15};
    } else {
      assert k * q >= 16 * q;
      assert q in {3, 5, 15};
      assert k in {17, 51, 85};
    }
  }

  /** 3 has order 255: the walk meets 1 only when it closes. */
  lemma {:induction false} NoEarlyReturn(k: nat)
    requires 0 < k < 255
    ensures Pow(k) != 1
    decreases k
  {
    hide *;
    if Pow(k) == 1 {
      PowLandmarks();
      PowRemainder(k, 255);
      PowNone();
      if 255 % k > 0 {
        NoEarlyReturn(255 % k);
      }
      DivisorsOf255(k);
      PowRemainder(k, 15);
      PowRemainder(k, 51);
      PowRemainder(k, 85);
      assert false;
    }
  }

  lemma {:induction false} PowDistinct(i: nat, j: nat)
    requires i < j < 255
    ensures Pow(i) != Pow(j)
    decreases i
  {
    hide *;
    PowNone();
    if i == 0 {
      NoEarlyReturn(j);
    } else {
      PowDistinct(i - 1, j - 1);
      PowUndo(i);
      PowUndo(j);
    }
  }

  lemma PowUndo(k: nat)
    requires k > 0
    ensures Pow(k - 1) == Back(Pow(k))
  {
    StepIs(Pow(k - 1));
    hide Step;
    hide Back;
  }

  lemma {:induction false} PowNotZero(k: nat)
    ensures Pow(k) != 0
  {
    if k > 0 {
      PowNotZero(k - 1);
      StepIs(Pow(k - 1));
    }
  }

  // ---- Every byte but 0 is a power of 3 ----

  /** The place of a byte in a table. */
  function Index(b: bv8): (i: nat)
    ensures i < 256
  {
    b as nat
  }

  ghost function Walked(n: nat): set<int> {
    set k | 0 <= k < n :: Index(Pow(k))
  }

  function UpTo(n: nat): set<int> {
    if n == 0 then {} else UpTo(n - 1) + {n}
  }

  lemma {:induction false} UpToHas(n: nat, x: int)
    ensures x in UpTo(n) <==> 1 <= x <= n
  {
    if n > 0 {
      UpToHas(n - 1, x);
    }
  }

  lemma {:induction false} UpToSize(n: nat)
    ensures |UpTo(n)| == n
  {
    if n > 0 {
      UpToSize(n - 1);
      UpToHas(n - 1, n);
    }
  }

  lemma SameByte(a: bv8, b: bv8)
    requires Index(a) == Index(b)
    ensures a == b
  {
  }

  lemma {:induction false} WalkedSize(n: nat)
    requires n <= 255
    ensures |Walked(n)| == n
  {
    hide Pow;
    hide Index;
    if n > 0 {
      WalkedSize(n - 1);
      var x := Index(Pow(n - 1));
      forall k | 0 <= k < n - 1 ensures Index(Pow(k)) != x {
        PowDistinct(k, n - 1);
        if Index(Pow(k)) == x {
          SameByte(Pow(k), Pow(n - 1));
        }
      }
      assert x !in Walked(n - 1);
      assert Walked(n) == Walked(n - 1) + {x};
    }
  }

  lemma WalkedRange()
    ensures Walked(255) <= UpTo(255)
  {
    hide Pow;
    hide Index;
    forall x | x in Walked(255) ensures x in UpTo(255) {
      var k :| 0 <= k < 255 && x == Index(Pow(k));
      PowNotZero(k);
      NotZero(Pow(k));
      UpToHas(255, x);
    }
  }

  lemma NotZero(b: bv8)
    requires b != 0
    ensures 1 <= Index(b) <= 255
  {
  }

  lemma FullSubset(a: set<int>, b: set<int>)
    requires a <= b && |a| == |b|
    ensures a == b
  {
    assert |b - a| == 0;
    assert b == a + (b - a);
  }

  /** The walk meets every byte but 0. */
  lemma WalkCovers(b: bv8)
    requires b != 0
    ensures exists k :: 0 <= k < 255 && Pow(k) == b
  {
    hide Pow;
    hide Index;
    hide UpTo;
    WalkedSize(255);
    UpToSize(255);
    WalkedRange();
    FullSubset(Walked(255), UpTo(255));
    NotZero(b);
    UpToHas(255, Index(b));
    var k :| 0 <= k < 255 && Index(Pow(k)) == Index(b);
    SameByte(Pow(k), b);
  }

  ghost function Log(b: bv8): (k: nat)
    requires b != 0
    ensures k < 255 && Pow(k) == b
  {
    WalkCovers(b);
    var k :| 0 <= k < 255 && Pow(k) == b;
    k
  }

  lemma MulByNone(a: bv8)
    ensures Mul(a, 0) == 0 == Mul(0, a)
  {
    hide MulBits;
    MulBitsByNone(a, 8);
    MulBitsOfNone(a, 8);
  }

  /** The product is commutative and associative, because the non-zero bytes form a cycle. */
  lemma FieldLaws(a: bv8, b: bv8, c: bv8)
    ensures Mul(a, b) == Mul(b, a)
    ensures Mul(Mul(a, b), c) == Mul(a, Mul(b, c))
  {
    hide *;
    MulByNone(a);
    MulByNone(b);
    MulByNone(c);
    MulByNone(Mul(a, b));
    MulByNone(Mul(b, c));
    if a != 0 && b != 0 {
      var i, j := Log(a), Log(b);
      PowAdd(i, j);
      PowAdd(j, i);
      if c != 0 {
        var k := Log(c);
        PowAdd(j, k);
        PowAdd(i + j, k);
        PowAdd(i, j + k);
      }
    }
  }

  /** The inverse, and 0 for 0. */
  ghost function Inverse(b: bv8): bv8 {
    if b == 0 then 0 else Pow(255 - Log(b))
  }

  lemma InverseIs(b: bv8)
    requires b != 0
    ensures Mul(b, Inverse(b)) == 1
  {
    PowLandmarks();
    PowAdd(Log(b), 255 - Log(b));
    hide Pow;
    hide Mul;
  }

  lemma InverseUnique(b: bv8, c: bv8)
    requires Mul(b, c) == 1
    ensures c == Inverse(b)
  {
    hide *;
    MulByNone(c);
    assert b != 0;
    var i := Inverse(b);
    InverseIs(b);
    FieldLaws(b, i, c);
    FieldLaws(i, b, c);
    OneTimes(c);
    OneTimes(i);
    FieldLaws(i, 1, 1);
  }

  lemma InverseTwice(b: bv8)
    ensures Inverse(Inverse(b)) == b
  {
    InverseOfNone();
    hide *;
    if b != 0 {
      InverseIs(b);
      FieldLaws(b, Inverse(b), 1);
      InverseUnique(Inverse(b), b);
    }
  }

  lemma InverseOfNone()
    ensures Inverse(0) == 0
  {
  }

  lemma InverseOfPow(k: nat)
    requires k <= 255
    ensures Inverse(Pow(k)) == Pow(255 - k)
  {
    hide *;
    PowAdd(k, 255 - k);
    PowLandmarks();
    InverseUnique(Pow(k), Pow(255 - k));
  }
}
