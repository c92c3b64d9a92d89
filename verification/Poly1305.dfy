/** The Poly1305 authenticator of aead.py (section 2.5 of RFC 8439). */
module Poly1305 {

  // ---- Little-endian numbers ----

  function Val(b: bv8): (v: nat)
    ensures v < 256
  {
    b as nat
  }

  /** `int.from_bytes(b, "little")` */
  function FromLE(b: seq<bv8>): nat {
    if b == [] then 0 else Val(b[0]) + 256 * FromLE(b[1..])
  }

  function LowByte(v: nat): bv8 {
    (v % 256) as bv8
  }

  /** The `n` lowest bytes of a number. */
  function ToLE(v: nat, n: nat): (b: seq<bv8>)
    ensures |b| == n
    decreases n
  {
    if n == 0 then [] else [LowByte(v)] + ToLE(v / 256, n - 1)
  }

  function Power(b: nat, e: nat): nat {
    if e == 0 then 1 else b * Power(b, e - 1)
  }

  lemma ByteBack(v: nat)
    requires v < 256
    ensures Val(v as bv8) == v
  {
  }

  lemma LowByteIs(v: nat)
    ensures Val(LowByte(v)) == v % 256
  {
    ByteBack(v % 256);
  }

  lemma {:induction false} LERoundTrip(v: nat, n: nat)
    requires v < Power(256, n)
    ensures FromLE(ToLE(v, n)) == v
    decreases n
  {
    hide Val;
    hide LowByte;
    if n > 0 {
      LowByteIs(v);
      assert ToLE(v, n)[1..] == ToLE(v / 256, n - 1);
      assert Power(256, n) == 256 * Power(256, n - 1);
      LERoundTrip(v / 256, n - 1);
    }
  }

  /** Numbers that fit are told apart by their bytes. */
  lemma LEInjective(v: nat, w: nat, n: nat)
    requires v < Power(256, n) && w < Power(256, n) && ToLE(v, n) == ToLE(w, n)
    ensures v == w
  {
    hide *;
    LERoundTrip(v, n);
    LERoundTrip(w, n);
  }

  lemma {:induction false} FromLEJoin(a: seq<bv8>, b: seq<bv8>)
    ensures FromLE(a + b) == FromLE(a) + Power(256, |a|) * FromLE(b)
    decreases |a|
  {
    hide Val;
    if a == [] {
      assert a + b == b;
    } else {
      FromLEJoin(a[1..], b);
      assert (a + b)[1..] == a[1..] + b;
      Distribute(256, FromLE(a[1..]), Power(256, |a| - 1), FromLE(b));
    }
  }

  lemma Distribute(k: nat, a: nat, p: nat, b: nat)
    ensures k * (a + p * b) == k * a + (k * p) * b
  {
  }

  // ---- Bits of a number ----

  /** `a & b` */
  function And(a: nat, b: nat): nat {
    if a == 0 || b == 0 then 0 else (if a % 2 == 1 && b % 2 == 1 then 1 else 0) + 2 * And(a / 2, b / 2)
  }

  lemma {:induction false} AndLow(a: nat, k: nat)
    ensures Power(2, k) > 0 && And(a, Power(2, k) - 1) == a % Power(2, k)
    decreases k
  {
    if k > 0 {
      AndLow(a / 2, k - 1);
      var p := Power(2, k - 1);
      assert (2 * p - 1) / 2 == p - 1;
      HalfMod(a, p);
      if a == 0 {
        assert 0 % (2 * p) == 0;
      }
    }
  }

  lemma HalfMod(a: nat, p: nat)
    requires p > 0
    ensures a % (2 * p) == a % 2 + 2 * (a / 2 % p)
  {
    var q, r := a / 2 / p, a / 2 % p;
    assert a == 2 * (p * q + r) + a % 2;
    assert a == (2 * p) * q + (2 * r + a % 2) by {
      assert 2 * (p * q) == (2 * p) * q;
    }
    DivisionUnique(a, 2 * p, q, 2 * r + a % 2);
  }

  lemma MulGrows(d: nat, x: nat, y: nat)
    requires x <= y
    ensures d * x <= d * y
  {
  }

  lemma DivisionUnique(a: nat, d: nat, q: nat, r: nat)
    requires d > 0 && r < d && a == d * q + r
    ensures a % d == r && a / d == q
  {
    var q1 := a / d;
    assert a == d * q1 + a % d;
    if q < q1 {
      MulGrows(d, q + 1, q1);
    } else if q1 < q {
      MulGrows(d, q1 + 1, q);
    }
  }

  /** Low and high parts of two numbers meet separately. */
  lemma {:induction false} AndParts(x: nat, a: nat, m: nat, b: nat, k: nat)
    requires x < Power(2, k) && m < Power(2, k)
    ensures And(x + Power(2, k) * a, m + Power(2, k) * b) == And(x, m) + Power(2, k) * And(a, b)
    decreases k
  {
    hide *;
    PowerNext(2, k);
    if k == 0 {
      AndUnfold(0, 0);
      assert x == 0 && m == 0;
    } else {
      var p := Power(2, k - 1);
      HalfOfParts(x, a, p);
      HalfOfParts(m, b, p);
      AndParts(x / 2, a, m / 2, b, k - 1);
      AndUnfold(x + 2 * p * a, m + 2 * p * b);
      AndUnfold(x, m);
      Twice(p, And(a, b));
    }
  }

  lemma Twice(p: nat, x: nat)
    ensures 2 * (p * x) == 2 * p * x
  {
  }

  lemma PowerNext(b: nat, e: nat)
    ensures Power(b, 0) == 1 && (e > 0 ==> Power(b, e) == b * Power(b, e - 1))
  {
  }

  lemma HalfOfParts(x: nat, a: nat, p: nat)
    ensures (x + 2 * p * a) / 2 == x / 2 + p * a && (x + 2 * p * a) % 2 == x % 2
  {
    assert x + 2 * p * a == x + 2 * (p * a);
  }

  lemma AndUnfold(a: nat, b: nat)
    ensures And(a, b) == (if a % 2 == 1 && b % 2 == 1 then 1 else 0) + 2 * And(a / 2, b / 2)
  {
  }

  // ---- The clamped multiplier ----

  const CLAMP: nat := 0x0ffffffc_0ffffffc_0ffffffc_0fffffff

  function MaskByte(i: nat): nat {
    if i % 4 == 3 then 15 else if i % 4 == 0 && i > 0 then 252 else 255
  }

  function MaskValue(i: nat, n: nat): nat
    decreases n
  {
    if n == 0 then 0 else MaskByte(i) + 256 * MaskValue(i + 1, n - 1)
  }

  lemma ClampBytes()
    ensures MaskValue(0, 16) == CLAMP
  {
    assert MaskValue(12, 4) == 0x0ffffffc;
    assert MaskValue(8, 8) == 0x0ffffffc_0ffffffc;
    assert MaskValue(4, 12) == 0x0ffffffc_0ffffffc_0ffffffc;
  }

  /** The standard's wording: four bytes stay below 16, three are divisible by 4. */
  function ClampByte(v: nat, i: nat): nat {
    if i % 4 == 3 then v % 16 else if i % 4 == 0 && i > 0 then v / 4 * 4 else v
  }

  function ClampedValue(b: seq<bv8>, i: nat): nat
    decreases |b|
  {
    if b == [] then 0 else ClampByte(Val(b[0]), i) + 256 * ClampedValue(b[1..], i + 1)
  }

  lemma PowersOf2()
    ensures Power(2, 4) == 16 && Power(2, 6) == 64 && Power(2, 8) == 256
  {
  }

  lemma AndByte(v: nat, i: nat)
    requires v < 256
    ensures And(v, MaskByte(i)) == ClampByte(v, i)
  {
    hide *;
    PowersOf2();
    AndLow(v, 4);
    AndLow(v, 8);
    And252(v);
    MaskByteIs(v, i);
  }

  lemma And252(v: nat)
    requires v < 256
    ensures And(v, 252) == v / 4 * 4
  {
    hide *;
    PowersOf2();
    AndUnfold(v, 252);
    AndUnfold(v / 2, 126);
    assert v / 2 / 2 == v / 4;
    AndLow(v / 4, 6);
    assert v / 4 % 64 == v / 4;
  }

  lemma MaskByteIs(v: nat, i: nat)
    ensures (MaskByte(i) == 15 && ClampByte(v, i) == v % 16)
            || (MaskByte(i) == 252 && ClampByte(v, i) == v / 4 * 4)
            || (MaskByte(i) == 255 && ClampByte(v, i) == v)
  {
  }

  lemma {:induction false} AndIsClamp(b: seq<bv8>, i: nat)
    ensures And(FromLE(b), MaskValue(i, |b|)) == ClampedValue(b, i)
    decreases |b|
  {
    hide And;
    hide Val;
    hide MaskByte;
    hide ClampByte;
    hide Power;
    if b == [] {
      AndUnfold(0, 0);
    } else {
      AndIsClamp(b[1..], i + 1);
      AndByte(Val(b[0]), i);
      PowersOf2();
      MaskByteIs(0, i);
      AndParts(Val(b[0]), FromLE(b[1..]), MaskByte(i), MaskValue(i + 1, |b| - 1), 8);
    }
  }

  /** The mask of the program does what the standard asks of the first half of the key. */
  lemma ClampIsStandard(b: seq<bv8>)
    requires |b| == 16
    ensures And(FromLE(b), CLAMP) == ClampedValue(b, 0)
  {
    hide *;
    ClampBytes();
    AndIsClamp(b, 0);
  }

  // ---- The polynomial ----

  /** 2^130 - 5 */
  const P: nat := 1361129467683753853853498429727072845819
  const TWO128: nat := 0x1_00000000_00000000_00000000_00000000

  function BlockSize(n: nat): (r: nat)
    ensures r <= n && r <= 16 && (n > 0 ==> r > 0)
  {
    if n < 16 then n else 16
  }

  function BlockCount(n: nat): nat {
    (n + 15) / 16
  }

  /** A block read as a number, with one more byte that is 1. */
  function Coefficient(block: seq<bv8>): nat {
    FromLE(block + [1])
  }

  /** The first block times r to the number of blocks, and so on down to the last block times r: an
      exact sum, without any remainder taken. */
  function Poly(msg: seq<bv8>, r: nat): nat
    decreases |msg|
  {
    if msg == [] then 0
    else
      var n := BlockSize(|msg|);
      Coefficient(msg[..n]) * Power(r, BlockCount(|msg|)) + Poly(msg[n..], r)
  }

  /** The tag of the standard. */
  function Tag(msg: seq<bv8>, key: seq<bv8>): (t: seq<bv8>)
    requires |key| == 32
    ensures |t| == 16
  {
    ToLE((Poly(msg, ClampedValue(key[..16], 0)) % P + FromLE(key[16..])) % TWO128, 16)
  }

  lemma PIs()
    ensures P == Power(2, 130) - 5 && TWO128 == Power(2, 128) == Power(256, 16)
  {
    SmallPowers();
    PowerSum(2, 16, 16);
    PowerSum(2, 32, 32);
    PowerSum(2, 64, 64);
    PowerSum(2, 128, 2);
    PowerSum(256, 2, 2);
    PowerSum(256, 4, 4);
    PowerSum(256, 8, 8);
    hide Power;
  }

  lemma SmallPowers()
    ensures Power(2, 2) == 4 && Power(2, 16) == 0x1_0000 == Power(256, 2)
  {
    assert Power(256, 1) == 256;
  }

  lemma Positive()
    ensures P > 0 && TWO128 > 0
  {
  }

  lemma {:induction false} PowerSum(b: nat, d: nat, e: nat)
    ensures Power(b, d + e) == Power(b, d) * Power(b, e)
    decreases d
  {
    if d > 0 {
      PowerSum(b, d - 1, e);
      assert b * (Power(b, d - 1) * Power(b, e)) == b * Power(b, d - 1) * Power(b, e);
    }
  }

  // ---- Remainders ----

  lemma ModShift(x: nat, z: nat)
    ensures (P * z + x) % P == x % P
  {
  }

  lemma ModTimes(a: nat, k: nat)
    ensures (a % P * k) % P == (a * k) % P
  {
    var q, r := a / P, a % P;
    assert a == P * q + r;
    Spread(P, q, r, k);
    ModShift(r * k, q * k);
  }

  lemma Spread(p: nat, q: nat, r: nat, k: nat)
    ensures (p * q + r) * k == p * (q * k) + r * k
  {
  }

  lemma ModPlus(a: nat, b: nat, c: nat)
    requires a % P == b % P
    ensures (a + c) % P == (b + c) % P
  {
  }

  /** One turn of Horner's rule, remainders and all. */
  lemma HornerStep(acc: nat, n: nat, r: nat, power: nat, rest: nat)
    ensures ((acc + n) % P * r % P * power + rest) % P == (acc * (r * power) + (n * (r * power) + rest)) % P
  {
    hide *;
    Positive();
    var sum := acc + n;
    ModTimes(sum, r);
    ModTimes(sum % P * r, power);
    ModTimes(sum * r, power);
    ModPlus(sum % P * r % P * power, sum * r * power, rest);
    Expand(acc, n, r, power);
  }

  lemma Expand(a: nat, n: nat, r: nat, p: nat)
    ensures (a + n) * r * p == a * (r * p) + n * (r * p)
  {
  }

  // ---- The program ----

  lemma FullCoefficient(block: seq<bv8>)
    requires |block| == 16
    ensures Coefficient(block) == FromLE(block) + TWO128
  {
    FromLEJoin(block, [1]);
    PIs();
    assert FromLE([1]) == 1 by {
      assert Val(1) == 1;
    }
    hide Power;
    hide FromLE;
  }

  lemma PolyNext(msg: seq<bv8>, i: nat, r: nat)
    requires i < |msg|
    ensures var n := BlockSize(|msg| - i);
            && BlockCount(|msg| - i) == BlockCount(|msg| - i - n) + 1
            && Poly(msg[i..], r) ==
               Coefficient(msg[i..i + n]) * (r * Power(r, BlockCount(|msg| - i - n))) + Poly(msg[i + n..], r)
  {
    hide Coefficient;
    var n := BlockSize(|msg| - i);
    assert msg[i..][..n] == msg[i..i + n] && msg[i..][n..] == msg[i + n..];
    assert BlockCount(|msg| - i) == BlockCount(|msg| - i - n) + 1;
  }

  lemma PolyOfNothing(msg: seq<bv8>, r: nat)
    ensures Poly(msg[|msg|..], r) == 0 && Power(r, BlockCount(0)) == 1
    ensures msg[0..] == msg
  {
  }

  /** `_poly1305_mac`: remainders at every step, and still the standard's tag. */
  method Poly1305Mac(msg: seq<bv8>, key: seq<bv8>) returns (tag: seq<bv8>)
    requires |key| == 32
    ensures tag == Tag(msg, key)
  {
    hide *;
    Positive();
    var r := And(FromLE(key[..16]), CLAMP);
    ClampIsStandard(key[..16]);
    var s := FromLE(key[16..]);
    var acc: nat, i: nat := 0, 0;
    PolyOfNothing(msg, r);
    while i < |msg|
      invariant i <= |msg| && acc < P
      invariant (acc * Power(r, BlockCount(|msg| - i)) + Poly(msg[i..], r)) % P == Poly(msg, r) % P
    {
      var size := BlockSize(|msg| - i);
      var block := msg[i..i + size];
      var n := Numbered(block);
      PolyNext(msg, i, r);
      var power := Power(r, BlockCount(|msg| - i - size));
      PowerNext(r, BlockCount(|msg| - i));
      HornerStep(acc, n, r, power, Poly(msg[i + size..], r));
      acc := (acc + n) % P;
      acc := acc * r % P;
      i := i + size;
    }
    TagIs(msg, key, acc);
    LowHalf(acc + s);

    acc := And(acc + s, TWO128 - 1);
    tag := ToLE(acc, 16);
  }

  lemma LowHalf(v: nat)
    ensures TWO128 > 0 && And(v, TWO128 - 1) == v % TWO128
  {
    hide *;
    Positive();
    PIs();
    AndLow(v, 128);
  }

  method Numbered(block: seq<bv8>) returns (n: nat)
    requires |block| <= 16
    ensures n == Coefficient(block)
  {
    hide FromLE;
    if |block| < 16 {
      n := FromLE(block + [1]);
    } else {
      FullCoefficient(block);
      n := FromLE(block) + TWO128;
    }
  }

  lemma TagIs(msg: seq<bv8>, key: seq<bv8>, acc: nat)
    requires |key| == 32 && acc < P && acc % P == Poly(msg, ClampedValue(key[..16], 0)) % P
    ensures TWO128 > 0 && Tag(msg, key) == ToLE((acc + FromLE(key[16..])) % TWO128, 16)
  {
    hide Poly;
    hide ClampedValue;
    hide FromLE;
    hide ToLE;
    assert acc % P == acc;
  }
}
