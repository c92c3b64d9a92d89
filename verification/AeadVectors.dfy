/** Known answers of RFC 8439 for the tag and for the sealed box. */
module AeadVectors {
  import opened ChaCha
  import opened Poly1305
  import opened Aead
  import opened ChaChaVectors

  // ---- Numbers from bytes ----

  function Number(b0: bv8, b1: bv8, b2: bv8, b3: bv8): nat {
    Val(b0) + 0x100 * Val(b1) + 0x1_0000 * Val(b2) + 0x100_0000 * Val(b3)
  }

  lemma FirstByte(b: bv8, rest: seq<bv8>)
    ensures FromLE([b] + rest) == Val(b) + 256 * FromLE(rest)
  {
    hide Val;
    assert ([b] + rest)[1..] == rest;
  }

  lemma FourBytes(b: seq<bv8>)
    requires |b| == 4
    ensures FromLE(b) == Number(b[0], b[1], b[2], b[3])
  {
    hide Val;
    FirstByte(b[0], b[1..]);
    FirstByte(b[1], b[2..]);
    FirstByte(b[2], b[3..]);
    FirstByte(b[3], []);
    assert b == [b[0]] + b[1..] && b[1..] == [b[1]] + b[2..] && b[2..] == [b[2]] + b[3..] && b[3..] == [b[3]] + [];
    assert FromLE([]) == 0;
    hide FromLE;
  }

  /** Sixteen bytes, as four words. */
  datatype Words = Words(a: seq<bv8>, b: seq<bv8>, c: seq<bv8>, d: seq<bv8>)

  predicate Four(w: Words) {
    |w.a| == 4 && |w.b| == 4 && |w.c| == 4 && |w.d| == 4
  }

  function Joined(w: Words): (b: seq<bv8>)
    requires Four(w)
    ensures |b| == 16
  {
    w.a + w.b + w.c + w.d
  }

  function Total(a: nat, b: nat, c: nat, d: nat): nat {
    a + 0x1_00000000 * b + 0x1_00000000_00000000 * c + 0x1_00000000_00000000_00000000 * d
  }

  function Value(w: Words): nat
    requires Four(w)
  {
    Total(Number(w.a[0], w.a[1], w.a[2], w.a[3]), Number(w.b[0], w.b[1], w.b[2], w.b[3]),
          Number(w.c[0], w.c[1], w.c[2], w.c[3]), Number(w.d[0], w.d[1], w.d[2], w.d[3]))
  }

  lemma ValueIs(w: Words)
    requires Four(w)
    ensures FromLE(Joined(w)) == Value(w)
  {
    hide FromLE;
    hide Number;
    FourBytes(w.a);
    FourBytes(w.b);
    FourBytes(w.c);
    FourBytes(w.d);
    FromLEJoin(w.c, w.d);
    FromLEJoin(w.b, w.c + w.d);
    FromLEJoin(w.a, w.b + (w.c + w.d));
    assert Joined(w) == w.a + (w.b + (w.c + w.d));
    assert Power(256, 4) == 0x1_00000000;
    hide *;
    TotalIs(FromLE(w.a), FromLE(w.b), FromLE(w.c), FromLE(w.d));
    ValueMeans(w);
  }

  lemma ValueMeans(w: Words)
    requires Four(w)
    ensures Value(w) == Total(Number(w.a[0], w.a[1], w.a[2], w.a[3]), Number(w.b[0], w.b[1], w.b[2], w.b[3]),
                              Number(w.c[0], w.c[1], w.c[2], w.c[3]), Number(w.d[0], w.d[1], w.d[2], w.d[3]))
  {
    hide Number;
    hide Total;
  }

  lemma TotalIs(a: nat, b: nat, c: nat, d: nat)
    ensures a + 0x1_00000000 * (b + 0x1_00000000 * (c + 0x1_00000000 * d)) == Total(a, b, c, d)
  {
  }

  /** The clamped number of the first half of a key. */
  function Clamped(b: seq<bv8>, first: bool): nat
    requires |b| == 4
  {
    (if first then Val(b[0]) else Val(b[0]) / 4 * 4) + 0x100 * Val(b[1]) + 0x1_0000 * Val(b[2])
    + 0x100_0000 * (Val(b[3]) % 16)
  }

  function ClampedNumber(w: Words): nat
    requires Four(w)
  {
    Total(Clamped(w.a, true), Clamped(w.b, false), Clamped(w.c, false), Clamped(w.d, false))
  }

  lemma ClampFirst(b: bv8, rest: seq<bv8>, i: nat)
    ensures ClampedValue([b] + rest, i) == ClampByte(Val(b), i) + 256 * ClampedValue(rest, i + 1)
  {
    hide Val;
    hide ClampByte;
    assert ([b] + rest)[1..] == rest;
  }

  lemma ClampFour(b: seq<bv8>, rest: seq<bv8>, i: nat)
    requires |b| == 4 && i % 4 == 0
    ensures ClampedValue(b + rest, i) == Clamped(b, i == 0) + 0x1_00000000 * ClampedValue(rest, i + 4)
  {
    hide *;
    FourOnto(b, rest);
    ClampFirst(b[0], b[1..] + rest, i);
    ClampFirst(b[1], b[2..] + rest, i + 1);
    ClampFirst(b[2], b[3..] + rest, i + 2);
    ClampFirst(b[3], rest, i + 3);
    ClampedSum(Val(b[0]), Val(b[1]), Val(b[2]), Val(b[3]), i, ClampedValue(rest, i + 4));
    ClampedOf(b, i == 0);
  }

  lemma FourOnto(b: seq<bv8>, rest: seq<bv8>)
    requires |b| == 4
    ensures b + rest == [b[0]] + (b[1..] + rest) && b[1..] + rest == [b[1]] + (b[2..] + rest)
    ensures b[2..] + rest == [b[2]] + (b[3..] + rest) && b[3..] + rest == [b[3]] + rest
  {
  }

  lemma ClampedOf(b: seq<bv8>, first: bool)
    requires |b| == 4
    ensures Clamped(b, first) == (if first then Val(b[0]) else Val(b[0]) / 4 * 4) + 0x100 * Val(b[1])
                                 + 0x1_0000 * Val(b[2]) + 0x100_0000 * (Val(b[3]) % 16)
  {
    hide Val;
  }

  lemma ClampedSum(v0: nat, v1: nat, v2: nat, v3: nat, i: nat, rest: nat)
    requires i % 4 == 0
    ensures ClampByte(v0, i) + 256 * (ClampByte(v1, i + 1) + 256 * (ClampByte(v2, i + 2)
            + 256 * (ClampByte(v3, i + 3) + 256 * rest))) ==
            (if i == 0 then v0 else v0 / 4 * 4) + 0x100 * v1 + 0x1_0000 * v2 + 0x100_0000 * (v3 % 16)
            + 0x1_00000000 * rest
  {
  }

  lemma ClampedIs(w: Words)
    requires Four(w)
    ensures ClampedValue(Joined(w), 0) == ClampedNumber(w)
  {
    hide *;
    ClampedMeans(w);
    ClampFour(w.a, w.b + (w.c + (w.d + [])), 0);
    ClampFour(w.b, w.c + (w.d + []), 4);
    ClampFour(w.c, w.d + [], 8);
    ClampFour(w.d, [], 12);
    TotalIs(Clamped(w.a, true), Clamped(w.b, false), Clamped(w.c, false), Clamped(w.d, false));
  }

  lemma ClampedMeans(w: Words)
    requires Four(w)
    ensures |w.a| == 4 && |w.b| == 4 && |w.c| == 4 && |w.d| == 4 && ClampedValue([], 16) == 0
    ensures Joined(w) == w.a + (w.b + (w.c + (w.d + [])))
    ensures ClampedNumber(w) == Total(Clamped(w.a, true), Clamped(w.b, false), Clamped(w.c, false), Clamped(w.d, false))
  {
    hide Clamped;
    hide Total;
  }

  // ---- The polynomial, block by block ----

  function Running(acc: nat, rest: seq<bv8>, r: nat): nat {
    (acc * Power(r, BlockCount(|rest|)) + Poly(rest, r)) % P
  }

  /** The accumulator after one more number. */
  function Next(acc: nat, n: nat, r: nat): nat {
    (acc + n) % P * r % P
  }

  /** One block taken in. */
  lemma Absorb(block: seq<bv8>, rest: seq<bv8>, r: nat, acc: nat)
    requires |block| == 16 || (0 < |block| < 16 && rest == [])
    ensures Running(Next(acc, Coefficient(block), r), rest, r) == Running(acc, block + rest, r)
  {
    hide *;
    var msg, power := block + rest, Power(r, BlockCount(|rest|));
    PolyOfMore(block, rest, r);
    NextIs(acc, Coefficient(block), r);
    HornerStep(acc, Coefficient(block), r, power, Poly(rest, r));
    RunningIs(Next(acc, Coefficient(block), r), rest, r);
    RunningIs(acc, msg, r);
  }

  lemma PolyOfMore(block: seq<bv8>, rest: seq<bv8>, r: nat)
    requires |block| == 16 || (0 < |block| < 16 && rest == [])
    ensures var power := Power(r, BlockCount(|rest|));
            && Power(r, BlockCount(|block + rest|)) == r * power
            && Poly(block + rest, r) == Coefficient(block) * (r * power) + Poly(rest, r)
  {
    var msg := block + rest;
    BlockSizeIs(block, rest);
    hide Coefficient;
    hide BlockSize;
    PolyNext(msg, 0, r);
    assert msg[0..] == msg && msg[0..0 + |block|] == block && msg[0 + |block|..] == rest;
    hide Poly;
    hide BlockCount;
  }

  lemma BlockSizeIs(block: seq<bv8>, rest: seq<bv8>)
    requires |block| == 16 || (0 < |block| < 16 && rest == [])
    ensures BlockSize(|block + rest|) == |block| && BlockSize(|block + rest| - 0) == |block|
  {
  }

  lemma RunningIs(acc: nat, rest: seq<bv8>, r: nat)
    ensures Running(acc, rest, r) == (acc * Power(r, BlockCount(|rest|)) + Poly(rest, r)) % P
  {
    hide Power;
    hide Poly;
  }

  lemma AbsorbWords(w: Words, rest: seq<bv8>, r: nat, acc: nat, next: nat)
    requires Four(w) && next == Next(acc, Value(w) + TWO128, r)
    ensures Running(next, rest, r) == Running(acc, Joined(w) + rest, r)
  {
    hide *;
    ValueIs(w);
    FullCoefficient(Joined(w));
    Absorb(Joined(w), rest, r, acc);
  }

  lemma NextIs(acc: nat, n: nat, r: nat)
    ensures P > 0 && Next(acc, n, r) == (acc + n) % P * r % P
  {
  }

  lemma {:induction false} BytesBack(b: seq<bv8>)
    ensures ToLE(FromLE(b), |b|) == b
    decreases |b|
  {
    if b != [] {
      BytesBack(b[1..]);
      LowOf(b[0], FromLE(b[1..]));
    }
  }

  lemma LowOf(b: bv8, n: nat)
    ensures (Val(b) + 256 * n) / 256 == n && LowByte(Val(b) + 256 * n) == b
  {
    assert (Val(b) + 256 * n) % 256 == Val(b);
  }

  lemma Ends(acc: nat, msg: seq<bv8>, r: nat)
    ensures P > 0 && Running(acc, [], r) == acc % P && Running(0, msg, r) == Poly(msg, r) % P
  {
    assert BlockCount(0) == 0;
    hide BlockCount;
  }

  /** The tag, once everything is taken in. */
  lemma TagFrom(msg: seq<bv8>, kr: Words, ks: Words, r: nat, acc: nat, tag: Words)
    requires Four(kr) && Four(ks) && Four(tag) && acc < P
    requires r == ClampedNumber(kr)
    requires Running(acc, [], r) == Running(0, msg, r) && Value(tag) == (acc + Value(ks)) % TWO128
    ensures Tag(msg, Joined(kr) + Joined(ks)) == Joined(tag)
  {
    hide *;
    var key := Joined(kr) + Joined(ks);
    assert key[..16] == Joined(kr) && key[16..] == Joined(ks);
    Ends(acc, msg, r);
    ClampedIs(kr);
    ValueIs(ks);
    ValueIs(tag);
    BytesBack(Joined(tag));
    TagIs(msg, key, acc);
  }

  // ---- The tag of section 2.5.2 ----

  const POLY_R: Words :=
    Words([0x85, 0xd6, 0xbe, 0x78], [0x57, 0x55, 0x6d, 0x33],
          [0x7f, 0x44, 0x52, 0xfe], [0x42, 0xd5, 0x06, 0xa8])

  const POLY_S: Words :=
    Words([0x01, 0x03, 0x80, 0x8a], [0xfb, 0x0d, 0xb2, 0xfd],
          [0x4a, 0xbf, 0xf6, 0xaf], [0x41, 0x49, 0xf5, 0x1b])

  const POLY_TAG: Words :=
    Words([0xa8, 0x06, 0x1d, 0xc1], [0x30, 0x51, 0x36, 0xc6],
          [0xc2, 0x2b, 0x8b, 0xaf], [0x0c, 0x01, 0x27, 0xa9])

  const R: nat := 0x806d540_0e52447c_036d5554_08bed685

  const TEXT1: Words :=
    Words([0x43, 0x72, 0x79, 0x70], [0x74, 0x6f, 0x67, 0x72],
          [0x61, 0x70, 0x68, 0x69], [0x63, 0x20, 0x46, 0x6f])

  const TEXT2: Words :=
    Words([0x72, 0x75, 0x6d, 0x20], [0x52, 0x65, 0x73, 0x65],
          [0x61, 0x72, 0x63, 0x68], [0x20, 0x47, 0x72, 0x6f])

  const TEXT_ACC1: nat := 0x2_c88c7784_9d64ae91_47ddeb88_e69c83fc
  const TEXT_ACC2: nat := 0x2_d8adaf23_b0337fa7_cccfb4ea_344b30de

  lemma TextValue1()
    ensures Four(TEXT1) && Value(TEXT1) == 0x6f462063_69687061_72676f74_70797243
  {
  }

  lemma TextStep1()
    ensures Four(TEXT1) && Next(0, Value(TEXT1) + TWO128, R) == TEXT_ACC1
  {
    hide Value;
    hide Four;
    TextValue1();
  }

  lemma TextValue2()
    ensures Four(TEXT2) && Value(TEXT2) == 0x6f724720_68637261_65736552_206d7572
  {
  }

  lemma TextStep2()
    ensures Four(TEXT2) && Next(TEXT_ACC1, Value(TEXT2) + TWO128, R) == TEXT_ACC2
  {
    hide Value;
    hide Four;
    TextValue2();
  }

  const TEXT_ACC3: nat := 0x2_8d31b7ca_ff946c77_c8844335_369d03a7
  const LAST: seq<bv8> := [0x75, 0x70]

  /** "Cryptographic Forum Research Group" */
  function Text(): seq<bv8>
    requires Four(TEXT1) && Four(TEXT2)
  {
    Joined(TEXT1) + (Joined(TEXT2) + LAST)
  }

  lemma TextStep3()
    ensures |LAST| == 2 && Next(TEXT_ACC2, Coefficient(LAST), R) == TEXT_ACC3
  {
    LastOfText();
    hide Coefficient;
  }

  lemma LastOfText()
    ensures Coefficient(LAST) == 0x1_7075
  {
    FirstByte(0x75, [0x70, 1]);
    FirstByte(0x70, [1]);
    FirstByte(1, []);
    var u: seq<bv8>, p: seq<bv8>, one: seq<bv8> := [0x75], [0x70], [1];
    assert LAST + one == u + (p + one) && p + one == [0x70, 1] && one + [] == one;
    assert FromLE([]) == 0;
    assert Val(0x75) == 0x75 && Val(0x70) == 0x70 && Val(1) == 1;
    hide FromLE;
  }

  lemma TextTurns()
    requires Four(TEXT1) && Four(TEXT2)
    ensures Running(0, Text(), R) == Running(TEXT_ACC3, [], R)
  {
    TextIs();
    hide *;
    TextStep1();
    TextStep2();
    TextStep3();
    AbsorbWords(TEXT1, Joined(TEXT2) + LAST, R, 0, TEXT_ACC1);
    AbsorbWords(TEXT2, LAST, R, TEXT_ACC1, TEXT_ACC2);
    Absorb(LAST, [], R, TEXT_ACC2);
    assert LAST + [] == LAST;
  }

  lemma TextIs()
    requires Four(TEXT1) && Four(TEXT2)
    ensures Text() == Joined(TEXT1) + (Joined(TEXT2) + LAST)
  {
    hide Joined;
  }

  lemma PolyKeyPart1()
    ensures Four(POLY_R) && Clamped(POLY_R.a, true) == 0x8bed685
  {
  }

  lemma PolyKeyPart2()
    ensures Four(POLY_R) && Clamped(POLY_R.b, false) == 0x36d5554
  {
  }

  lemma PolyKeyPart3()
    ensures Four(POLY_R) && Clamped(POLY_R.c, false) == 0xe52447c
  {
  }

  lemma PolyKeyPart4()
    ensures Four(POLY_R) && Clamped(POLY_R.d, false) == 0x806d540
  {
  }

  lemma PolyKey()
    ensures Four(POLY_R) && ClampedNumber(POLY_R) == R
  {
    hide Clamped;
    hide Four;
    PolyKeyPart1();
    PolyKeyPart2();
    PolyKeyPart3();
    PolyKeyPart4();
  }

  lemma PolyTagValue()
    ensures Four(POLY_TAG) && Value(POLY_TAG) == 0xa927010c_af8b2bc2_c6365130_c11d06a8
  {
  }

  lemma PolySValue()
    ensures Four(POLY_S) && Value(POLY_S) == 0x1bf54941_aff6bf4a_fdb20dfb_8a800301
  {
  }

  lemma PolyEnd()
    ensures Four(POLY_S) && Four(POLY_TAG) && TEXT_ACC3 < P && TWO128 > 0
    ensures Value(POLY_TAG) == (TEXT_ACC3 + Value(POLY_S)) % TWO128
  {
    hide Value;
    hide Four;
    PolyTagValue();
    PolySValue();
  }

  lemma TagVector()
    ensures Four(TEXT1) && Four(TEXT2) && Four(POLY_R) && Four(POLY_S) && Four(POLY_TAG)
    ensures Tag(Text(), Joined(POLY_R) + Joined(POLY_S)) == Joined(POLY_TAG)
  {
    hide *;
    TextStep1();
    TextStep2();
    PolyKey();
    PolyEnd();
    TextTurns();
    TagFrom(Text(), POLY_R, POLY_S, R, TEXT_ACC3, POLY_TAG);
  }

  // ---- The box of section 2.8.2 ----

  const OTK_R: Words :=
    Words([0x7b, 0xac, 0x2b, 0x25], [0x2d, 0xb4, 0x47, 0xaf],
          [0x09, 0xb6, 0x7a, 0x55], [0xa4, 0xe9, 0x55, 0x84])

  const OTK_S: Words :=
    Words([0x0a, 0xe1, 0xd6, 0x73], [0x10, 0x75, 0xd9, 0xeb],
          [0x2a, 0x93, 0x75, 0x78], [0x3e, 0xd5, 0x53, 0xff])

  const BOX_TAG: Words :=
    Words([0x1a, 0xe1, 0x0b, 0x59], [0x4f, 0x09, 0xe2, 0x6a],
          [0x7e, 0x90, 0x2e, 0xcb], [0xd0, 0x60, 0x06, 0x91])

  const BOX_R: nat := 0x455e9a4_057ab608_0f47b42c_052bac7b

  const BOX1: Words :=
    Words([0x50, 0x51, 0x52, 0x53], [0xc0, 0xc1, 0xc2, 0xc3],
          [0xc4, 0xc5, 0xc6, 0xc7], [0x00, 0x00, 0x00, 0x00])

  const BOX2: Words :=
    Words([0xd3, 0x1a, 0x8d, 0x34], [0x64, 0x8e, 0x60, 0xdb],
          [0x7b, 0x86, 0xaf, 0xbc], [0x53, 0xef, 0x7e, 0xc2])

  const BOX3: Words :=
    Words([0xa4, 0xad, 0xed, 0x51], [0x29, 0x6e, 0x08, 0xfe],
          [0xa9, 0xe2, 0xb5, 0xa7], [0x36, 0xee, 0x62, 0xd6])

  const BOX4: Words :=
    Words([0x3d, 0xbe, 0xa4, 0x5e], [0x8c, 0xa9, 0x67, 0x12],
          [0x82, 0xfa, 0xfb, 0x69], [0xda, 0x92, 0x72, 0x8b])

  const BOX5: Words :=
    Words([0x1a, 0x71, 0xde, 0x0a], [0x9e, 0x06, 0x0b, 0x29],
          [0x05, 0xd6, 0xa5, 0xb6], [0x7e, 0xcd, 0x3b, 0x36])

  const BOX6: Words :=
    Words([0x92, 0xdd, 0xbd, 0x7f], [0x2d, 0x77, 0x8b, 0x8c],
          [0x98, 0x03, 0xae, 0xe3], [0x28, 0x09, 0x1b, 0x58])

  const BOX7: Words :=
    Words([0xfa, 0xb3, 0x24, 0xe4], [0xfa, 0xd6, 0x75, 0x94],
          [0x55, 0x85, 0x80, 0x8b], [0x48, 0x31, 0xd7, 0xbc])

  const BOX8: Words :=
    Words([0x3f, 0xf4, 0xde, 0xf0], [0x8e, 0x4b, 0x7a, 0x9d],
          [0xe5, 0x76, 0xd2, 0x65], [0x86, 0xce, 0xc6, 0x4b])

  const BOX9: Words :=
    Words([0x61, 0x16, 0x00, 0x00], [0x00, 0x00, 0x00, 0x00],
          [0x00, 0x00, 0x00, 0x00], [0x00, 0x00, 0x00, 0x00])

  const BOX10: Words :=
    Words([0x0c, 0x00, 0x00, 0x00], [0x00, 0x00, 0x00, 0x00],
          [0x72, 0x00, 0x00, 0x00], [0x00, 0x00, 0x00, 0x00])

  const BOX_ACC1: nat := 0x1_bb22680b_abc3dcdc_0a0c9a38_3695c4a3
  const BOX_ACC2: nat := 0x2_c2889271_8bbf4b43_9094be1a_6c562472
  const BOX_ACC3: nat := 0xeac8e912_bae4da39_e51785ab_d7d75a22
  const BOX_ACC4: nat := 0x2_e436ba90_aad02f9f_26f5ba1f_b88aa27e
  const BOX_ACC5: nat := 0x3_1f99048e_9c70cca6_00087c40_6d08158b
  const BOX_ACC6: nat := 0x3_54f95352_0211257e_35c6d4de_fa90b0be
  const BOX_ACC7: nat := 0x2_4a6f8710_0374b108_dc05c7e1_5ec3bdfd
  const BOX_ACC8: nat := 0xc3349da1_9703f736_bc0fd003_f69230ec
  const BOX_ACC9: nat := 0x3_a0ca8e12_eb289ffe_3e49c453_3704051d
  const BOX_ACC10: nat := 0x1_91b28b92_52b8fd53_7f08943e_e5350010

  lemma BoxValue1()
    ensures Four(BOX1) && Value(BOX1) == 0xc7c6c5c4_c3c2c1c0_53525150
  {
  }

  lemma BoxStep1()
    ensures Four(BOX1) && Next(0, Value(BOX1) + TWO128, BOX_R) == BOX_ACC1
  {
    hide Value;
    hide Four;
    BoxValue1();
  }

  lemma BoxValue2()
    ensures Four(BOX2) && Value(BOX2) == 0xc27eef53_bcaf867b_db608e64_348d1ad3
  {
  }

  lemma BoxStep2()
    ensures Four(BOX2) && Next(BOX_ACC1, Value(BOX2) + TWO128, BOX_R) == BOX_ACC2
  {
    hide Value;
    hide Four;
    BoxValue2();
  }

  lemma BoxValue3()
    ensures Four(BOX3) && Value(BOX3) == 0xd662ee36_a7b5e2a9_fe086e29_51edada4
  {
  }

  lemma BoxStep3()
    ensures Four(BOX3) && Next(BOX_ACC2, Value(BOX3) + TWO128, BOX_R) == BOX_ACC3
  {
    hide Value;
    hide Four;
    BoxValue3();
  }

  lemma BoxValue4()
    ensures Four(BOX4) && Value(BOX4) == 0x8b7292da_69fbfa82_1267a98c_5ea4be3d
  {
  }

  lemma BoxStep4()
    ensures Four(BOX4) && Next(BOX_ACC3, Value(BOX4) + TWO128, BOX_R) == BOX_ACC4
  {
    hide Value;
    hide Four;
    BoxValue4();
  }

  lemma BoxValue5()
    ensures Four(BOX5) && Value(BOX5) == 0x363bcd7e_b6a5d605_290b069e_0ade711a
  {
  }

  lemma BoxStep5()
    ensures Four(BOX5) && Next(BOX_ACC4, Value(BOX5) + TWO128, BOX_R) == BOX_ACC5
  {
    hide Value;
    hide Four;
    BoxValue5();
  }

  lemma BoxValue6()
    ensures Four(BOX6) && Value(BOX6) == 0x581b0928_e3ae0398_8c8b772d_7fbddd92
  {
  }

  lemma BoxStep6()
    ensures Four(BOX6) && Next(BOX_ACC5, Value(BOX6) + TWO128, BOX_R) == BOX_ACC6
  {
    hide Value;
    hide Four;
    BoxValue6();
  }

  lemma BoxValue7()
    ensures Four(BOX7) && Value(BOX7) == 0xbcd73148_8b808555_9475d6fa_e424b3fa
  {
  }

  lemma BoxStep7()
    ensures Four(BOX7) && Next(BOX_ACC6, Value(BOX7) + TWO128, BOX_R) == BOX_ACC7
  {
    hide Value;
    hide Four;
    BoxValue7();
  }

  lemma BoxValue8()
    ensures Four(BOX8) && Value(BOX8) == 0x4bc6ce86_65d276e5_9d7a4b8e_f0def43f
  {
  }

  lemma BoxStep8()
    ensures Four(BOX8) && Next(BOX_ACC7, Value(BOX8) + TWO128, BOX_R) == BOX_ACC8
  {
    hide Value;
    hide Four;
    BoxValue8();
  }

  lemma BoxValue9()
    ensures Four(BOX9) && Value(BOX9) == 0x1661
  {
  }

  lemma BoxStep9()
    ensures Four(BOX9) && Next(BOX_ACC8, Value(BOX9) + TWO128, BOX_R) == BOX_ACC9
  {
    hide Value;
    hide Four;
    BoxValue9();
  }

  lemma BoxValue10()
    ensures Four(BOX10) && Value(BOX10) == 0x72_00000000_0000000c
  {
  }

  lemma BoxStep10()
    ensures Four(BOX10) && Next(BOX_ACC9, Value(BOX10) + TWO128, BOX_R) == BOX_ACC10
  {
    hide Value;
    hide Four;
    BoxValue10();
  }

  lemma BoxKeyPart1()
    ensures Four(OTK_R) && Clamped(OTK_R.a, true) == 0x52bac7b
  {
  }

  lemma BoxKeyPart2()
    ensures Four(OTK_R) && Clamped(OTK_R.b, false) == 0xf47b42c
  {
  }

  lemma BoxKeyPart3()
    ensures Four(OTK_R) && Clamped(OTK_R.c, false) == 0x57ab608
  {
  }

  lemma BoxKeyPart4()
    ensures Four(OTK_R) && Clamped(OTK_R.d, false) == 0x455e9a4
  {
  }

  lemma BoxKey()
    ensures Four(OTK_R) && ClampedNumber(OTK_R) == BOX_R
  {
    hide Clamped;
    hide Four;
    BoxKeyPart1();
    BoxKeyPart2();
    BoxKeyPart3();
    BoxKeyPart4();
  }

  lemma BoxTagValue()
    ensures Four(BOX_TAG) && Value(BOX_TAG) == 0x910660d0_cb2e907e_6ae2094f_590be11a
  {
  }

  lemma BoxSValue()
    ensures Four(OTK_S) && Value(OTK_S) == 0xff53d53e_7875932a_ebd97510_73d6e10a
  {
  }

  lemma BoxEnd()
    ensures Four(OTK_S) && Four(BOX_TAG) && BOX_ACC10 < P && TWO128 > 0
    ensures Value(BOX_TAG) == (BOX_ACC10 + Value(OTK_S)) % TWO128
  {
    hide Value;
    hide Four;
    BoxTagValue();
    BoxSValue();
  }

  function Chain(ws: seq<Words>): seq<bv8>
    requires forall k :: 0 <= k < |ws| ==> Four(ws[k])
  {
    if ws == [] then [] else Joined(ws[0]) + Chain(ws[1..])
  }

  lemma {:induction false} AbsorbChain(ws: seq<Words>, accs: seq<nat>, r: nat)
    requires (forall k :: 0 <= k < |ws| ==> Four(ws[k])) && |accs| == |ws| + 1
    requires forall k :: 0 <= k < |ws| ==> accs[k + 1] == Next(accs[k], Value(ws[k]) + TWO128, r)
    ensures Running(accs[0], Chain(ws), r) == Running(accs[|ws|], [], r)
    decreases |ws|
  {
    hide Four;
    hide Value;
    hide Next;
    hide Running;
    hide Joined;
    if ws != [] {
      AbsorbWords(ws[0], Chain(ws[1..]), r, accs[0], accs[1]);
      AbsorbChain(ws[1..], accs[1..], r);
    }
  }

  const BOX: seq<Words> := [BOX1, BOX2, BOX3, BOX4, BOX5, BOX6, BOX7, BOX8, BOX9, BOX10]

  lemma BoxFours()
    ensures |BOX| == 10 && forall k :: 0 <= k < |BOX| ==> Four(BOX[k])
  {
  }

  lemma BoxTurns()
    requires forall k :: 0 <= k < |BOX| ==> Four(BOX[k])
    ensures Running(0, Chain(BOX), BOX_R) == Running(BOX_ACC10, [], BOX_R)
  {
    BoxAt();
    hide *;
    var accs := [0, BOX_ACC1, BOX_ACC2, BOX_ACC3, BOX_ACC4, BOX_ACC5, BOX_ACC6, BOX_ACC7, BOX_ACC8, BOX_ACC9,
                 BOX_ACC10];
    forall k | 0 <= k < 10 ensures accs[k + 1] == Next(accs[k], Value(BOX[k]) + TWO128, BOX_R) {
      if k == 0 { BoxStep1(); }
      if k == 1 { BoxStep2(); }
      if k == 2 { BoxStep3(); }
      if k == 3 { BoxStep4(); }
      if k == 4 { BoxStep5(); }
      if k == 5 { BoxStep6(); }
      if k == 6 { BoxStep7(); }
      if k == 7 { BoxStep8(); }
      if k == 8 { BoxStep9(); }
      if k == 9 { BoxStep10(); }
    }
    AbsorbChain(BOX, accs, BOX_R);
  }

  lemma BoxAt()
    ensures |BOX| == 10
    ensures BOX[0] == BOX1 && BOX[1] == BOX2 && BOX[2] == BOX3 && BOX[3] == BOX4 && BOX[4] == BOX5
    ensures BOX[5] == BOX6 && BOX[6] == BOX7 && BOX[7] == BOX8 && BOX[8] == BOX9 && BOX[9] == BOX10
  {
  }

  // ---- What the box is made of ----

  const AAD: seq<bv8> := [0x50, 0x51, 0x52, 0x53] + [0xc0, 0xc1, 0xc2, 0xc3] + [0xc4, 0xc5, 0xc6, 0xc7]
  const REST: seq<bv8> := [0x61, 0x16]

  function Ciphertext(): seq<bv8>
    requires forall k :: 0 <= k < |BOX| ==> Four(BOX[k])
    requires |BOX| == 10
  {
    Chain(BOX[1..8]) + REST
  }

  lemma {:induction false} ChainLength(ws: seq<Words>)
    requires forall k :: 0 <= k < |ws| ==> Four(ws[k])
    ensures |Chain(ws)| == 16 * |ws|
    decreases |ws|
  {
    hide Four;
    if ws != [] {
      ChainLength(ws[1..]);
    }
  }

  lemma {:induction false} ChainJoin(a: seq<Words>, b: seq<Words>)
    requires (forall k :: 0 <= k < |a| ==> Four(a[k])) && (forall k :: 0 <= k < |b| ==> Four(b[k]))
    requires forall k :: 0 <= k < |a + b| ==> Four((a + b)[k])
    ensures Chain(a + b) == Chain(a) + Chain(b)
    decreases |a|
  {
    hide Four;
    hide Joined;
    if a == [] {
      assert a + b == b;
    } else {
      assert (a + b)[1..] == a[1..] + b;
      ChainJoin(a[1..], b);
    }
  }

  lemma ChainOne(w: Words)
    requires Four(w)
    ensures Chain([w]) == Joined(w)
  {
    hide Joined;
    assert [w][1..] == [];
  }

  lemma FirstBlock()
    ensures Four(BOX1) && |AAD| == 12 && AAD + Pad16(12) == Joined(BOX1)
  {
    assert Pad16(12) == [0, 0, 0, 0];
  }

  lemma NinthBlock()
    ensures Four(BOX9) && |REST| == 2 && REST + Pad16(114) == Joined(BOX9)
  {
    assert Pad16(114) == [0, 0, 0, 0, 0, 0, 0, 0, 0, 0, 0, 0, 0, 0];
  }

  lemma TenthBlock()
    ensures Four(BOX10) && ToLE(12, 8) + ToLE(114, 8) == Joined(BOX10)
  {
    hide ToLE;
    SmallLength(12, 12);
    SmallLength(114, 114);
  }

  lemma SmallLength(n: nat, b: bv8)
    requires n < 256 && LowByte(n) == b
    ensures ToLE(n, 8) == [b, 0, 0, 0, 0, 0, 0, 0]
  {
    hide *;
    MoreLE(n, 7);
    ZeroLength(7);
    assert n / 256 == 0;
  }

  lemma MoreLE(v: nat, n: nat)
    ensures ToLE(v, n + 1) == [LowByte(v)] + ToLE(v / 256, n)
  {
    hide LowByte;
  }

  lemma {:induction false} ZeroLength(k: nat)
    ensures ToLE(0, k) == seq(k, i => 0)
  {
    if k > 0 {
      ZeroLength(k - 1);
      assert LowByte(0) == 0;
    }
  }

  lemma BoxIsMacData()
    requires |BOX| == 10 && forall k :: 0 <= k < |BOX| ==> Four(BOX[k])
    ensures MacData(AAD, Ciphertext()) == Chain(BOX)
  {
    BoxAt();
    hide BOX;
    hide Four;
    hide ToLE;
    hide Pad16;
    hide AAD;
    hide REST;
    hide Joined;
    hide Chain;
    FirstBlock();
    NinthBlock();
    TenthBlock();
    ChainLength(BOX[1..8]);
    ChainOne(BOX[0]);
    ChainOne(BOX[8]);
    ChainOne(BOX[9]);
    assert BOX == ([BOX[0]] + BOX[1..8]) + ([BOX[8]] + [BOX[9]]);
    ChainJoin([BOX[0]], BOX[1..8]);
    ChainJoin([BOX[8]], [BOX[9]]);
    ChainJoin([BOX[0]] + BOX[1..8], [BOX[8]] + [BOX[9]]);
    assert |Ciphertext()| == 114;
    Associate(AAD, Pad16(12), Chain(BOX[1..8]), REST, Pad16(114), ToLE(12, 8), ToLE(114, 8));
  }

  lemma Associate(a: seq<bv8>, p: seq<bv8>, c: seq<bv8>, t: seq<bv8>, q: seq<bv8>, m: seq<bv8>, n: seq<bv8>)
    ensures a + p + (c + t) + q + m + n == (a + p) + c + ((t + q) + (m + n))
  {
  }

  lemma BoxKeys()
    ensures Four(OTK_R) && Four(OTK_S) && |SEAL_KEY| == 32 && |SEAL_NONCE| == 12
    ensures OneTimeKey(SEAL_KEY, SEAL_NONCE) == Joined(OTK_R) + Joined(OTK_S)
  {
    ZeroVector();
    hide BlockOf;
    hide SEAL_KEY;
    hide SEAL_NONCE;
  }

  /** The tag of the sealed box, with the one-time key, the padding and the lengths behind it. */
  lemma BoxVector()
    ensures |BOX| == 10 && (forall k :: 0 <= k < |BOX| ==> Four(BOX[k])) && Four(BOX_TAG)
    ensures |SEAL_KEY| == 32 && |SEAL_NONCE| == 12
    ensures TagOf(SEAL_KEY, SEAL_NONCE, AAD, Ciphertext()) == Joined(BOX_TAG)
  {
    hide *;
    BoxFours();
    BoxKeys();
    BoxKey();
    BoxEnd();
    BoxTurns();
    BoxIsMacData();
    TagFrom(Chain(BOX), OTK_R, OTK_S, BOX_R, BOX_ACC10, BOX_TAG);
    TagOfIs(SEAL_KEY, SEAL_NONCE, AAD, Ciphertext());
  }

  lemma TagOfIs(key: seq<bv8>, nonce: seq<bv8>, aad: seq<bv8>, cipher: seq<bv8>)
    requires |key| == 32 && |nonce| == 12
    ensures TagOf(key, nonce, aad, cipher) == Tag(MacData(aad, cipher), OneTimeKey(key, nonce))
  {
    hide Tag;
    hide MacData;
    hide OneTimeKey;
  }

  /** The keystream of the box begins with block 1: "Ladi" becomes the first word of the ciphertext. */
  lemma FirstWordVector(plain: seq<bv8>)
    requires |plain| >= 4 && plain[..4] == [0x4c, 0x61, 0x64, 0x69] && |plain| < TWO64
    ensures |SEAL_KEY| == 32 && |SEAL_NONCE| == 12
    ensures var box := Seal(SEAL_KEY, SEAL_NONCE, plain, AAD);
            box.Done? && |box.bytes| == |plain| + 16 && box.bytes[..4] == [0xd3, 0x1a, 0x8d, 0x34]
  {
    OneVector();
    FirstBlock();
    hide SEAL_KEY;
    hide SEAL_NONCE;
    hide AAD;
    hide BlockOf;
    hide TagOf;
    var cipher := Stream(SEAL_KEY, 1, SEAL_NONCE, plain);
    forall i | 0 <= i < 4
      ensures plain[i] == plain[..4][i] && cipher[i] == XorByte(plain[i], BlockOf(SEAL_KEY, 1, SEAL_NONCE)[i])
    {
    }
  }

}
