/** Known answers of FIPS 197: the example of appendix B, and words of the key expansions of appendix A. */
module AesVectors {
  import opened AesField
  import opened AesSbox
  import opened AesRounds
  import opened AesCipher
  import opened AesModes

  /** The product, turn by turn. */
  function Times(a: bv8, b: bv8): bv8 {
    var a1 := XTime(a); var a2 := XTime(a1); var a3 := XTime(a2); var a4 := XTime(a3);
    var a5 := XTime(a4); var a6 := XTime(a5); var a7 := XTime(a6);
    var b1 := Half(b); var b2 := Half(b1); var b3 := Half(b2); var b4 := Half(b3);
    var b5 := Half(b4); var b6 := Half(b5); var b7 := Half(b6);
    Add(Pick(a, b), Add(Pick(a1, b1), Add(Pick(a2, b2), Add(Pick(a3, b3), Add(Pick(a4, b4),
    Add(Pick(a5, b5), Add(Pick(a6, b6), Pick(a7, b7))))))))
  }

  lemma TimesIs(a: bv8, b: bv8)
    ensures Times(a, b) == Mul(a, b)
  {
    hide Mul;
    hide Add;
    hide Pick;
    hide XTime;
    hide Half;
    MulUnrolled(a, b);
  }

  function Either(x: bv8, b: bv8, mask: bv8): bv8 {
    if b & mask != 0 then x else 0
  }

  lemma PickIs(x: bv8, c: bv8, b: bv8, mask: bv8)
    requires c & 1 != 0 <==> b & mask != 0
    ensures Pick(x, c) == Either(x, b, mask)
  {
  }

  function Chosen(b: bv8, x0: bv8, x1: bv8, x2: bv8, x3: bv8, x4: bv8, x5: bv8, x6: bv8, x7: bv8): bv8 {
    Add(Either(x0, b, 1), Add(Either(x1, b, 2), Add(Either(x2, b, 4), Add(Either(x3, b, 8),
    Add(Either(x4, b, 16), Add(Either(x5, b, 32), Add(Either(x6, b, 64), Either(x7, b, 128))))))))
  }

  lemma Picked(b: bv8, x0: bv8, x1: bv8, x2: bv8, x3: bv8, x4: bv8, x5: bv8, x6: bv8, x7: bv8)
    ensures var b1 := Half(b); var b2 := Half(b1); var b3 := Half(b2); var b4 := Half(b3);
            var b5 := Half(b4); var b6 := Half(b5); var b7 := Half(b6);
            Add(Pick(x0, b), Add(Pick(x1, b1), Add(Pick(x2, b2), Add(Pick(x3, b3), Add(Pick(x4, b4),
            Add(Pick(x5, b5), Add(Pick(x6, b6), Pick(x7, b7)))))))) == Chosen(b, x0, x1, x2, x3, x4, x5, x6, x7)
  {
    hide *;
    hide Half;
    var b1 := Half(b);
    var b2 := Half(b1);
    var b3 := Half(b2);
    var b4 := Half(b3);
    var b5 := Half(b4);
    var b6 := Half(b5);
    Bits(b);
    PickIs(x0, b, b, 1);
    PickIs(x1, b1, b, 2);
    PickIs(x2, b2, b, 4);
    PickIs(x3, b3, b, 8);
    PickIs(x4, b4, b, 16);
    PickIs(x5, b5, b, 32);
    PickIs(x6, b6, b, 64);
    PickIs(x7, Half(b6), b, 128);
    ChosenIs(b, x0, x1, x2, x3, x4, x5, x6, x7);
  }

  lemma ChosenIs(b: bv8, x0: bv8, x1: bv8, x2: bv8, x3: bv8, x4: bv8, x5: bv8, x6: bv8, x7: bv8)
    ensures Chosen(b, x0, x1, x2, x3, x4, x5, x6, x7) ==
            Add(Either(x0, b, 1), Add(Either(x1, b, 2), Add(Either(x2, b, 4), Add(Either(x3, b, 8),
            Add(Either(x4, b, 16), Add(Either(x5, b, 32), Add(Either(x6, b, 64), Either(x7, b, 128))))))))
  {
    hide Add;
    hide Either;
  }

  lemma Bits(b: bv8)
    ensures var b1 := Half(b); var b2 := Half(b1); var b3 := Half(b2); var b4 := Half(b3);
            var b5 := Half(b4); var b6 := Half(b5); var b7 := Half(b6);
            (b1 & 1 != 0 <==> b & 2 != 0) && (b2 & 1 != 0 <==> b & 4 != 0) && (b3 & 1 != 0 <==> b & 8 != 0) &&
            (b4 & 1 != 0 <==> b & 16 != 0) && (b5 & 1 != 0 <==> b & 32 != 0) &&
            (b6 & 1 != 0 <==> b & 64 != 0) && (b7 & 1 != 0 <==> b & 128 != 0)
  {
  }

  lemma XTimeIs(a: bv8)
    ensures XTime(a) == (a << 1) ^ (if a & 0x80 != 0 then 0x1b else 0)
  {
  }

  /** Whether the product is 1, in one expression. */
  predicate Reciprocals(a: bv8, b: bv8) {
    var a1 := (a << 1) ^ (if a & 0x80 != 0 then 0x1b else 0);
    var a2 := (a1 << 1) ^ (if a1 & 0x80 != 0 then 0x1b else 0);
    var a3 := (a2 << 1) ^ (if a2 & 0x80 != 0 then 0x1b else 0);
    var a4 := (a3 << 1) ^ (if a3 & 0x80 != 0 then 0x1b else 0);
    var a5 := (a4 << 1) ^ (if a4 & 0x80 != 0 then 0x1b else 0);
    var a6 := (a5 << 1) ^ (if a5 & 0x80 != 0 then 0x1b else 0);
    var a7 := (a6 << 1) ^ (if a6 & 0x80 != 0 then 0x1b else 0);
    Chosen(b, a, a1, a2, a3, a4, a5, a6, a7) == 1
  }

  lemma ReciprocalsIs(a: bv8, b: bv8)
    requires Reciprocals(a, b)
    ensures Mul(a, b) == 1
  {
    hide Mul;
    hide XTime;
    hide Chosen;
    hide Add;
    hide Pick;
    hide Half;
    TimesIs(a, b);
    var a1 := XTime(a);
    var a2 := XTime(a1);
    var a3 := XTime(a2);
    var a4 := XTime(a3);
    var a5 := XTime(a4);
    var a6 := XTime(a5);
    XTimeIs(a);
    XTimeIs(a1);
    XTimeIs(a2);
    XTimeIs(a3);
    XTimeIs(a4);
    XTimeIs(a5);
    XTimeIs(a6);
    Picked(b, a, a1, a2, a3, a4, a5, a6, XTime(a6));
  }

  /** `r` is the substitution of `b`. */
  predicate Shown(b: bv8, r: bv8) {
    var i := ((r << 1) | (r >> 7)) ^ ((r << 3) | (r >> 5)) ^ ((r << 6) | (r >> 2)) ^ 0x05;
    (b == 0 && i == 0) || Reciprocals(b, i)
  }

  lemma UnaffineIs(r: bv8)
    ensures Unaffine(r) == ((r << 1) | (r >> 7)) ^ ((r << 3) | (r >> 5)) ^ ((r << 6) | (r >> 2)) ^ 0x05
  {
  }

  lemma SubByteIs(b: bv8, r: bv8)
    requires Shown(b, r)
    ensures SubByte(b) == r
  {
    hide Reciprocals;
    hide Mul;
    hide Affine;
    hide Unaffine;
    hide Inverse;
    UnaffineIs(r);
    UnaffineUndone(r);
    var i := Unaffine(r);
    if b == 0 && i == 0 {
      InverseOfNone();
    } else {
      ReciprocalsIs(b, i);
      InverseUnique(b, i);
    }
  }

  lemma SubWordIs(w: Word, r: Word)
    requires Shown(w.b0, r.b0) && Shown(w.b1, r.b1) && Shown(w.b2, r.b2) && Shown(w.b3, r.b3)
    ensures SubWord(w) == r
  {
    hide Shown;
    hide SubByte;
    SubByteIs(w.b0, r.b0);
    SubByteIs(w.b1, r.b1);
    SubByteIs(w.b2, r.b2);
    SubByteIs(w.b3, r.b3);
  }

  lemma MixColumnsIs(s: Grid)
    ensures MixColumns(s) == Grid(MixedColumn(s.c0), MixedColumn(s.c1), MixedColumn(s.c2), MixedColumn(s.c3))
  {
    hide MixedColumn;
    hide Blend;
    MixedColumnIs(s.c0);
    MixedColumnIs(s.c1);
    MixedColumnIs(s.c2);
    MixedColumnIs(s.c3);
  }

  // ---- Appendix B: the states after each round, and the round keys ----

  const S0: Grid := Grid(Word(0x19, 0x3d, 0xe3, 0xbe), Word(0xa0, 0xf4, 0xe2, 0x2b),
                         Word(0x9a, 0xc6, 0x8d, 0x2a), Word(0xe9, 0xf8, 0x48, 0x08))
  const S1: Grid := Grid(Word(0xa4, 0x9c, 0x7f, 0xf2), Word(0x68, 0x9f, 0x35, 0x2b),
                         Word(0x6b, 0x5b, 0xea, 0x43), Word(0x02, 0x6a, 0x50, 0x49))
  const S2: Grid := Grid(Word(0xaa, 0x8f, 0x5f, 0x03), Word(0x61, 0xdd, 0xe3, 0xef),
                         Word(0x82, 0xd2, 0x4a, 0xd2), Word(0x68, 0x32, 0x46, 0x9a))
  const S3: Grid := Grid(Word(0x48, 0x6c, 0x4e, 0xee), Word(0x67, 0x1d, 0x9d, 0x0d),
                         Word(0x4d, 0xe3, 0xb1, 0x38), Word(0xd6, 0x5f, 0x58, 0xe7))
  const S4: Grid := Grid(Word(0xe0, 0x92, 0x7f, 0xe8), Word(0xc8, 0x63, 0x63, 0xc0),
                         Word(0xd9, 0xb1, 0x35, 0x50), Word(0x85, 0xb8, 0xbe, 0x01))
  const S5: Grid := Grid(Word(0xf1, 0x00, 0x6f, 0x55), Word(0xc1, 0x92, 0x4c, 0xef),
                         Word(0x7c, 0xc8, 0x8b, 0x32), Word(0x5d, 0xb5, 0xd5, 0x0c))
  const S6: Grid := Grid(Word(0x26, 0x0e, 0x2e, 0x17), Word(0x3d, 0x41, 0xb7, 0x7d),
                         Word(0xe8, 0x64, 0x72, 0xa9), Word(0xfd, 0xd2, 0x8b, 0x25))
  const S7: Grid := Grid(Word(0x5a, 0x41, 0x42, 0xb1), Word(0x19, 0x49, 0xdc, 0x1f),
                         Word(0xa3, 0xe0, 0x19, 0x65), Word(0x7a, 0x8c, 0x04, 0x0c))
  const S8: Grid := Grid(Word(0xea, 0x83, 0x5c, 0xf0), Word(0x04, 0x45, 0x33, 0x2d),
                         Word(0x65, 0x5d, 0x98, 0xad), Word(0x85, 0x96, 0xb0, 0xc5))
  const S9: Grid := Grid(Word(0xeb, 0x40, 0xf2, 0x1e), Word(0x59, 0x2e, 0x38, 0x84),
                         Word(0x8b, 0xa1, 0x13, 0xe7), Word(0x1b, 0xc3, 0x42, 0xd2))

  const K0: Grid := Grid(Word(0x2b, 0x7e, 0x15, 0x16), Word(0x28, 0xae, 0xd2, 0xa6),
                         Word(0xab, 0xf7, 0x15, 0x88), Word(0x09, 0xcf, 0x4f, 0x3c))
  const K1: Grid := Grid(Word(0xa0, 0xfa, 0xfe, 0x17), Word(0x88, 0x54, 0x2c, 0xb1),
                         Word(0x23, 0xa3, 0x39, 0x39), Word(0x2a, 0x6c, 0x76, 0x05))
  const K2: Grid := Grid(Word(0xf2, 0xc2, 0x95, 0xf2), Word(0x7a, 0x96, 0xb9, 0x43),
                         Word(0x59, 0x35, 0x80, 0x7a), Word(0x73, 0x59, 0xf6, 0x7f))
  const K3: Grid := Grid(Word(0x3d, 0x80, 0x47, 0x7d), Word(0x47, 0x16, 0xfe, 0x3e),
                         Word(0x1e, 0x23, 0x7e, 0x44), Word(0x6d, 0x7a, 0x88, 0x3b))
  const K4: Grid := Grid(Word(0xef, 0x44, 0xa5, 0x41), Word(0xa8, 0x52, 0x5b, 0x7f),
                         Word(0xb6, 0x71, 0x25, 0x3b), Word(0xdb, 0x0b, 0xad, 0x00))
  const K5: Grid := Grid(Word(0xd4, 0xd1, 0xc6, 0xf8), Word(0x7c, 0x83, 0x9d, 0x87),
                         Word(0xca, 0xf2, 0xb8, 0xbc), Word(0x11, 0xf9, 0x15, 0xbc))
  const K6: Grid := Grid(Word(0x6d, 0x88, 0xa3, 0x7a), Word(0x11, 0x0b, 0x3e, 0xfd),
                         Word(0xdb, 0xf9, 0x86, 0x41), Word(0xca, 0x00, 0x93, 0xfd))
  const K7: Grid := Grid(Word(0x4e, 0x54, 0xf7, 0x0e), Word(0x5f, 0x5f, 0xc9, 0xf3),
                         Word(0x84, 0xa6, 0x4f, 0xb2), Word(0x4e, 0xa6, 0xdc, 0x4f))
  const K8: Grid := Grid(Word(0xea, 0xd2, 0x73, 0x21), Word(0xb5, 0x8d, 0xba, 0xd2),
                         Word(0x31, 0x2b, 0xf5, 0x60), Word(0x7f, 0x8d, 0x29, 0x2f))
  const K9: Grid := Grid(Word(0xac, 0x77, 0x66, 0xf3), Word(0x19, 0xfa, 0xdc, 0x21),
                         Word(0x28, 0xd1, 0x29, 0x41), Word(0x57, 0x5c, 0x00, 0x6e))
  const K10: Grid := Grid(Word(0xd0, 0x14, 0xf9, 0xa8), Word(0xc9, 0xee, 0x25, 0x89),
                         Word(0xe1, 0x3f, 0x0c, 0xc8), Word(0xb6, 0x63, 0x0c, 0xa6))

  lemma Round1()
    ensures AddKey(MixColumns(ShiftRows(SubBytes(S0))), K1) == S1
  {
    SubWordIs(S0.c0, Word(0xd4, 0x27, 0x11, 0xae));
    SubWordIs(S0.c1, Word(0xe0, 0xbf, 0x98, 0xf1));
    SubWordIs(S0.c2, Word(0xb8, 0xb4, 0x5d, 0xe5));
    SubWordIs(S0.c3, Word(0x1e, 0x41, 0x52, 0x30));
    MixColumnsIs(ShiftRows(SubBytes(S0)));
    hide SubWord;
    hide MixColumns;
  }

  lemma Round2()
    ensures AddKey(MixColumns(ShiftRows(SubBytes(S1))), K2) == S2
  {
    SubWordIs(S1.c0, Word(0x49, 0xde, 0xd2, 0x89));
    SubWordIs(S1.c1, Word(0x45, 0xdb, 0x96, 0xf1));
    SubWordIs(S1.c2, Word(0x7f, 0x39, 0x87, 0x1a));
    SubWordIs(S1.c3, Word(0x77, 0x02, 0x53, 0x3b));
    MixColumnsIs(ShiftRows(SubBytes(S1)));
    hide SubWord;
    hide MixColumns;
  }

  lemma Round3()
    ensures AddKey(MixColumns(ShiftRows(SubBytes(S2))), K3) == S3
  {
    SubWordIs(S2.c0, Word(0xac, 0x73, 0xcf, 0x7b));
    SubWordIs(S2.c1, Word(0xef, 0xc1, 0x11, 0xdf));
    SubWordIs(S2.c2, Word(0x13, 0xb5, 0xd6, 0xb5));
    SubWordIs(S2.c3, Word(0x45, 0x23, 0x5a, 0xb8));
    MixColumnsIs(ShiftRows(SubBytes(S2)));
    hide SubWord;
    hide MixColumns;
  }

  lemma Round4()
    ensures AddKey(MixColumns(ShiftRows(SubBytes(S3))), K4) == S4
  {
    SubWordIs(S3.c0, Word(0x52, 0x50, 0x2f, 0x28));
    SubWordIs(S3.c1, Word(0x85, 0xa4, 0x5e, 0xd7));
    SubWordIs(S3.c2, Word(0xe3, 0x11, 0xc8, 0x07));
    SubWordIs(S3.c3, Word(0xf6, 0xcf, 0x6a, 0x94));
    MixColumnsIs(ShiftRows(SubBytes(S3)));
    hide SubWord;
    hide MixColumns;
  }

  lemma Round5()
    ensures AddKey(MixColumns(ShiftRows(SubBytes(S4))), K5) == S5
  {
    SubWordIs(S4.c0, Word(0xe1, 0x4f, 0xd2, 0x9b));
    SubWordIs(S4.c1, Word(0xe8, 0xfb, 0xfb, 0xba));
    SubWordIs(S4.c2, Word(0x35, 0xc8, 0x96, 0x53));
    SubWordIs(S4.c3, Word(0x97, 0x6c, 0xae, 0x7c));
    MixColumnsIs(ShiftRows(SubBytes(S4)));
    hide SubWord;
    hide MixColumns;
  }

  lemma Round6()
    ensures AddKey(MixColumns(ShiftRows(SubBytes(S5))), K6) == S6
  {
    SubWordIs(S5.c0, Word(0xa1, 0x63, 0xa8, 0xfc));
    SubWordIs(S5.c1, Word(0x78, 0x4f, 0x29, 0xdf));
    SubWordIs(S5.c2, Word(0x10, 0xe8, 0x3d, 0x23));
    SubWordIs(S5.c3, Word(0x4c, 0xd5, 0x03, 0xfe));
    MixColumnsIs(ShiftRows(SubBytes(S5)));
    hide SubWord;
    hide MixColumns;
  }

  lemma Round7()
    ensures AddKey(MixColumns(ShiftRows(SubBytes(S6))), K7) == S7
  {
    SubWordIs(S6.c0, Word(0xf7, 0xab, 0x31, 0xf0));
    SubWordIs(S6.c1, Word(0x27, 0x83, 0xa9, 0xff));
    SubWordIs(S6.c2, Word(0x9b, 0x43, 0x40, 0xd3));
    SubWordIs(S6.c3, Word(0x54, 0xb5, 0x3d, 0x3f));
    MixColumnsIs(ShiftRows(SubBytes(S6)));
    hide SubWord;
    hide MixColumns;
  }

  lemma Round8()
    ensures AddKey(MixColumns(ShiftRows(SubBytes(S7))), K8) == S8
  {
    SubWordIs(S7.c0, Word(0xbe, 0x83, 0x2c, 0xc8));
    SubWordIs(S7.c1, Word(0xd4, 0x3b, 0x86, 0xc0));
    SubWordIs(S7.c2, Word(0x0a, 0xe1, 0xd4, 0x4d));
    SubWordIs(S7.c3, Word(0xda, 0x64, 0xf2, 0xfe));
    MixColumnsIs(ShiftRows(SubBytes(S7)));
    hide SubWord;
    hide MixColumns;
  }

  lemma Round9()
    ensures AddKey(MixColumns(ShiftRows(SubBytes(S8))), K9) == S9
  {
    SubWordIs(S8.c0, Word(0x87, 0xec, 0x4a, 0x8c));
    SubWordIs(S8.c1, Word(0xf2, 0x6e, 0xc3, 0xd8));
    SubWordIs(S8.c2, Word(0x4d, 0x4c, 0x46, 0x95));
    SubWordIs(S8.c3, Word(0x97, 0x90, 0xe7, 0xa6));
    MixColumnsIs(ShiftRows(SubBytes(S8)));
    hide SubWord;
    hide MixColumns;
  }

  // ---- Appendix A: the key expansions ----

  const KEY: seq<bv8> :=
    [0x2b, 0x7e, 0x15, 0x16, 0x28, 0xae, 0xd2, 0xa6, 0xab, 0xf7, 0x15, 0x88, 0x09, 0xcf, 0x4f, 0x3c]

  const KEY24: seq<bv8> :=
    [0x8e, 0x73, 0xb0, 0xf7, 0xda, 0x0e, 0x64, 0x52, 0xc8, 0x10, 0xf3, 0x2b, 0x80, 0x90, 0x79, 0xe5,
     0x62, 0xf8, 0xea, 0xd2, 0x52, 0x2c, 0x6b, 0x7b]

  const KEY32: seq<bv8> :=
    [0x60, 0x3d, 0xeb, 0x10, 0x15, 0xca, 0x71, 0xbe, 0x2b, 0x73, 0xae, 0xf0, 0x85, 0x7d, 0x77, 0x81,
     0x1f, 0x35, 0x2c, 0x07, 0x3b, 0x61, 0x08, 0xd7, 0x2d, 0x98, 0x10, 0xa3, 0x09, 0x14, 0xdf, 0xf4]

  /** Words `4 * j` to `4 * j + 3` of a schedule. */
  ghost function KeyGrid(key: seq<bv8>, j: nat): Grid
    requires KeySize(|key|)
  {
    Grid(KeyWord(key, 4 * j), KeyWord(key, 4 * j + 1), KeyWord(key, 4 * j + 2), KeyWord(key, 4 * j + 3))
  }

  function NextGrid(k: Grid, r: Word, c: bv8): Grid {
    var w0 := XorWord(k.c0, r.(b0 := Add(r.b0, c)));
    var w1 := XorWord(k.c1, w0);
    var w2 := XorWord(k.c2, w1);
    Grid(w0, w1, w2, XorWord(k.c3, w2))
  }

  lemma Unscrambled(t: Word, i: nat, nk: nat)
    requires 0 < nk <= i && i % nk != 0 && (nk <= 6 || i % nk != 4)
    ensures Scrambled(t, i, nk) == t
  {
  }

  lemma KeyTurn(key: seq<bv8>, j: nat, k: Grid, r: Word, c: bv8)
    requires |key| == 16 && KeyGrid(key, j) == k && SubWord(RotWord(k.c3)) == r && Doubled(j) == c
    ensures KeyGrid(key, j + 1) == NextGrid(k, r, c)
  {
    hide KeyWord;
    hide SubWord;
    hide RotWord;
    hide XorWord;
    hide Doubled;
    KeyWordNext(key, 4 * j + 4);
    KeyWordNext(key, 4 * j + 5);
    KeyWordNext(key, 4 * j + 6);
    KeyWordNext(key, 4 * j + 7);
    Unscrambled(KeyWord(key, 4 * j + 4), 4 * j + 5, 4);
    Unscrambled(KeyWord(key, 4 * j + 5), 4 * j + 6, 4);
    Unscrambled(KeyWord(key, 4 * j + 6), 4 * j + 7, 4);
  }

  lemma Key0()
    ensures KeyGrid(KEY, 0) == K0
  {
    KeyWordFirst(KEY, 0);
    KeyWordFirst(KEY, 1);
    KeyWordFirst(KEY, 2);
    KeyWordFirst(KEY, 3);
    hide KeyWord;
  }

  lemma Constants()
    ensures Doubled(0) == 0x01 && Doubled(1) == 0x02 && Doubled(2) == 0x04 && Doubled(3) == 0x08 && Doubled(4) == 0x10
    ensures Doubled(5) == 0x20 && Doubled(6) == 0x40 && Doubled(7) == 0x80 && Doubled(8) == 0x1b && Doubled(9) == 0x36
  {
  }

  lemma Turn1()
    ensures SubWord(RotWord(K0.c3)) == Word(0x8a, 0x84, 0xeb, 0x01)
    ensures NextGrid(K0, Word(0x8a, 0x84, 0xeb, 0x01), 0x01) == K1
  {
    SubWordIs(RotWord(K0.c3), Word(0x8a, 0x84, 0xeb, 0x01));
    hide SubWord;
  }

  /** The first round key after the key itself: words 4 to 7 of appendix A.1. */
  lemma Key1()
    ensures KeyGrid(KEY, 1) == K1
  {
    hide SubWord;
    hide RotWord;
    hide NextGrid;
    hide KeyGrid;
    Constants();
    Turn1();
    Key0();
    KeyTurn(KEY, 0, K0, Word(0x8a, 0x84, 0xeb, 0x01), 0x01);
  }

  lemma Turn2()
    ensures SubWord(RotWord(K1.c3)) == Word(0x50, 0x38, 0x6b, 0xe5)
    ensures NextGrid(K1, Word(0x50, 0x38, 0x6b, 0xe5), 0x02) == K2
  {
    SubWordIs(RotWord(K1.c3), Word(0x50, 0x38, 0x6b, 0xe5));
    hide SubWord;
  }

  lemma Key2()
    ensures KeyGrid(KEY, 2) == K2
  {
    hide SubWord;
    hide RotWord;
    hide NextGrid;
    hide KeyGrid;
    Constants();
    Turn2();
    Key1();
    KeyTurn(KEY, 1, K1, Word(0x50, 0x38, 0x6b, 0xe5), 0x02);
  }

  lemma Turn3()
    ensures SubWord(RotWord(K2.c3)) == Word(0xcb, 0x42, 0xd2, 0x8f)
    ensures NextGrid(K2, Word(0xcb, 0x42, 0xd2, 0x8f), 0x04) == K3
  {
    SubWordIs(RotWord(K2.c3), Word(0xcb, 0x42, 0xd2, 0x8f));
    hide SubWord;
  }

  lemma Key3()
    ensures KeyGrid(KEY, 3) == K3
  {
    hide SubWord;
    hide RotWord;
    hide NextGrid;
    hide KeyGrid;
    Constants();
    Turn3();
    Key2();
    KeyTurn(KEY, 2, K2, Word(0xcb, 0x42, 0xd2, 0x8f), 0x04);
  }

  lemma Turn4()
    ensures SubWord(RotWord(K3.c3)) == Word(0xda, 0xc4, 0xe2, 0x3c)
    ensures NextGrid(K3, Word(0xda, 0xc4, 0xe2, 0x3c), 0x08) == K4
  {
    SubWordIs(RotWord(K3.c3), Word(0xda, 0xc4, 0xe2, 0x3c));
    hide SubWord;
  }

  lemma Key4()
    ensures KeyGrid(KEY, 4) == K4
  {
    hide SubWord;
    hide RotWord;
    hide NextGrid;
    hide KeyGrid;
    Constants();
    Turn4();
    Key3();
    KeyTurn(KEY, 3, K3, Word(0xda, 0xc4, 0xe2, 0x3c), 0x08);
  }

  lemma Turn5()
    ensures SubWord(RotWord(K4.c3)) == Word(0x2b, 0x95, 0x63, 0xb9)
    ensures NextGrid(K4, Word(0x2b, 0x95, 0x63, 0xb9), 0x10) == K5
  {
    SubWordIs(RotWord(K4.c3), Word(0x2b, 0x95, 0x63, 0xb9));
    hide SubWord;
  }

  lemma Key5()
    ensures KeyGrid(KEY, 5) == K5
  {
    hide SubWord;
    hide RotWord;
    hide NextGrid;
    hide KeyGrid;
    Constants();
    Turn5();
    Key4();
    KeyTurn(KEY, 4, K4, Word(0x2b, 0x95, 0x63, 0xb9), 0x10);
  }

  lemma Turn6()
    ensures SubWord(RotWord(K5.c3)) == Word(0x99, 0x59, 0x65, 0x82)
    ensures NextGrid(K5, Word(0x99, 0x59, 0x65, 0x82), 0x20) == K6
  {
    SubWordIs(RotWord(K5.c3), Word(0x99, 0x59, 0x65, 0x82));
    hide SubWord;
  }

  lemma Key6()
    ensures KeyGrid(KEY, 6) == K6
  {
    hide SubWord;
    hide RotWord;
    hide NextGrid;
    hide KeyGrid;
    Constants();
    Turn6();
    Key5();
    KeyTurn(KEY, 5, K5, Word(0x99, 0x59, 0x65, 0x82), 0x20);
  }

  lemma Turn7()
    ensures SubWord(RotWord(K6.c3)) == Word(0x63, 0xdc, 0x54, 0x74)
    ensures NextGrid(K6, Word(0x63, 0xdc, 0x54, 0x74), 0x40) == K7
  {
    SubWordIs(RotWord(K6.c3), Word(0x63, 0xdc, 0x54, 0x74));
    hide SubWord;
  }

  lemma Key7()
    ensures KeyGrid(KEY, 7) == K7
  {
    hide SubWord;
    hide RotWord;
    hide NextGrid;
    hide KeyGrid;
    Constants();
    Turn7();
    Key6();
    KeyTurn(KEY, 6, K6, Word(0x63, 0xdc, 0x54, 0x74), 0x40);
  }

  lemma Turn8()
    ensures SubWord(RotWord(K7.c3)) == Word(0x24, 0x86, 0x84, 0x2f)
    ensures NextGrid(K7, Word(0x24, 0x86, 0x84, 0x2f), 0x80) == K8
  {
    SubWordIs(RotWord(K7.c3), Word(0x24, 0x86, 0x84, 0x2f));
    hide SubWord;
  }

  lemma Key8()
    ensures KeyGrid(KEY, 8) == K8
  {
    hide SubWord;
    hide RotWord;
    hide NextGrid;
    hide KeyGrid;
    Constants();
    Turn8();
    Key7();
    KeyTurn(KEY, 7, K7, Word(0x24, 0x86, 0x84, 0x2f), 0x80);
  }

  lemma Turn9()
    ensures SubWord(RotWord(K8.c3)) == Word(0x5d, 0xa5, 0x15, 0xd2)
    ensures NextGrid(K8, Word(0x5d, 0xa5, 0x15, 0xd2), 0x1b) == K9
  {
    SubWordIs(RotWord(K8.c3), Word(0x5d, 0xa5, 0x15, 0xd2));
    hide SubWord;
  }

  lemma Key9()
    ensures KeyGrid(KEY, 9) == K9
  {
    hide SubWord;
    hide RotWord;
    hide NextGrid;
    hide KeyGrid;
    Constants();
    Turn9();
    Key8();
    KeyTurn(KEY, 8, K8, Word(0x5d, 0xa5, 0x15, 0xd2), 0x1b);
  }

  lemma Turn10()
    ensures SubWord(RotWord(K9.c3)) == Word(0x4a, 0x63, 0x9f, 0x5b)
    ensures NextGrid(K9, Word(0x4a, 0x63, 0x9f, 0x5b), 0x36) == K10
  {
    SubWordIs(RotWord(K9.c3), Word(0x4a, 0x63, 0x9f, 0x5b));
    hide SubWord;
  }

  /** The last round key: words 40 to 43 of appendix A.1. */
  lemma Key10()
    ensures KeyGrid(KEY, 10) == K10
  {
    hide SubWord;
    hide RotWord;
    hide NextGrid;
    hide KeyGrid;
    Constants();
    Turn10();
    Key9();
    KeyTurn(KEY, 9, K9, Word(0x4a, 0x63, 0x9f, 0x5b), 0x36);
  }

  const BLOCK: seq<bv8> :=
    [0x32, 0x43, 0xf6, 0xa8, 0x88, 0x5a, 0x30, 0x8d, 0x31, 0x31, 0x98, 0xa2, 0xe0, 0x37, 0x07, 0x34]

  const SEALED: seq<bv8> :=
    [0x39, 0x25, 0x84, 0x1d, 0x02, 0xdc, 0x09, 0xfb, 0xdc, 0x11, 0x85, 0x97, 0x19, 0x6a, 0x0b, 0x32]

  const END: Grid := Grid(Word(0x39, 0x25, 0x84, 0x1d), Word(0x02, 0xdc, 0x09, 0xfb),
                          Word(0xdc, 0x11, 0x85, 0x97), Word(0x19, 0x6a, 0x0b, 0x32))

  lemma Last()
    ensures AddKey(ShiftRows(SubBytes(S9)), K10) == END
  {
    SubWordIs(S9.c0, Word(0xe9, 0x09, 0x89, 0x72));
    SubWordIs(S9.c1, Word(0xcb, 0x31, 0x07, 0x5f));
    SubWordIs(S9.c2, Word(0x3d, 0x32, 0x7d, 0x94));
    SubWordIs(S9.c3, Word(0xaf, 0x2e, 0x2c, 0xb5));
    hide SubWord;
  }

  lemma KeyAt(j: nat)
    requires j <= 10
    ensures |Schedule(KEY)| == 44 && RoundKey(Schedule(KEY), j) == KeyGrid(KEY, j)
  {
    hide KeyWord;
  }

  lemma First()
    ensures AddKey(ToGrid(BLOCK), K0) == S0
  {
  }

  lemma Begin()
    ensures |Schedule(KEY)| == 44 && Forward(Schedule(KEY), ToGrid(BLOCK), 0) == S0
  {
    hide Schedule;
    hide AddKey;
    hide ToGrid;
    hide RoundKey;
    hide KeyGrid;
    KeyAt(0);
    Key0();
    First();
    Ends(Schedule(KEY), 10, ToGrid(BLOCK));
  }

  lemma Next(r: nat, s: Grid, k: Grid, t: Grid)
    requires r < 9 && |Schedule(KEY)| == 44 && Forward(Schedule(KEY), ToGrid(BLOCK), r) == s
    requires KeyGrid(KEY, r + 1) == k && AddKey(MixColumns(ShiftRows(SubBytes(s))), k) == t
    ensures Forward(Schedule(KEY), ToGrid(BLOCK), r + 1) == t
  {
    hide Schedule;
    hide AddKey;
    hide MixColumns;
    hide ShiftRows;
    hide SubBytes;
    hide ToGrid;
    hide RoundKey;
    hide KeyGrid;
    KeyAt(r + 1);
    ForwardNext(Schedule(KEY), ToGrid(BLOCK), r);
  }

  lemma State1()
    ensures |Schedule(KEY)| == 44 && Forward(Schedule(KEY), ToGrid(BLOCK), 1) == S1
  {
    hide Schedule;
    hide AddKey;
    hide MixColumns;
    hide ShiftRows;
    hide SubBytes;
    hide ToGrid;
    hide KeyGrid;
    Begin();
    Key1();
    Round1();
    Next(0, S0, K1, S1);
  }

  lemma State2()
    ensures |Schedule(KEY)| == 44 && Forward(Schedule(KEY), ToGrid(BLOCK), 2) == S2
  {
    hide Schedule;
    hide AddKey;
    hide MixColumns;
    hide ShiftRows;
    hide SubBytes;
    hide ToGrid;
    hide KeyGrid;
    State1();
    Key2();
    Round2();
    Next(1, S1, K2, S2);
  }

  lemma State3()
    ensures |Schedule(KEY)| == 44 && Forward(Schedule(KEY), ToGrid(BLOCK), 3) == S3
  {
    hide Schedule;
    hide AddKey;
    hide MixColumns;
    hide ShiftRows;
    hide SubBytes;
    hide ToGrid;
    hide KeyGrid;
    State2();
    Key3();
    Round3();
    Next(2, S2, K3, S3);
  }

  lemma State4()
    ensures |Schedule(KEY)| == 44 && Forward(Schedule(KEY), ToGrid(BLOCK), 4) == S4
  {
    hide Schedule;
    hide AddKey;
    hide MixColumns;
    hide ShiftRows;
    hide SubBytes;
    hide ToGrid;
    hide KeyGrid;
    State3();
    Key4();
    Round4();
    Next(3, S3, K4, S4);
  }

  lemma State5()
    ensures |Schedule(KEY)| == 44 && Forward(Schedule(KEY), ToGrid(BLOCK), 5) == S5
  {
    hide Schedule;
    hide AddKey;
    hide MixColumns;
    hide ShiftRows;
    hide SubBytes;
    hide ToGrid;
    hide KeyGrid;
    State4();
    Key5();
    Round5();
    Next(4, S4, K5, S5);
  }

  lemma State6()
    ensures |Schedule(KEY)| == 44 && Forward(Schedule(KEY), ToGrid(BLOCK), 6) == S6
  {
    hide Schedule;
    hide AddKey;
    hide MixColumns;
    hide ShiftRows;
    hide SubBytes;
    hide ToGrid;
    hide KeyGrid;
    State5();
    Key6();
    Round6();
    Next(5, S5, K6, S6);
  }

  lemma State7()
    ensures |Schedule(KEY)| == 44 && Forward(Schedule(KEY), ToGrid(BLOCK), 7) == S7
  {
    hide Schedule;
    hide AddKey;
    hide MixColumns;
    hide ShiftRows;
    hide SubBytes;
    hide ToGrid;
    hide KeyGrid;
    State6();
    Key7();
    Round7();
    Next(6, S6, K7, S7);
  }

  lemma State8()
    ensures |Schedule(KEY)| == 44 && Forward(Schedule(KEY), ToGrid(BLOCK), 8) == S8
  {
    hide Schedule;
    hide AddKey;
    hide MixColumns;
    hide ShiftRows;
    hide SubBytes;
    hide ToGrid;
    hide KeyGrid;
    State7();
    Key8();
    Round8();
    Next(7, S7, K8, S8);
  }

  lemma State9()
    ensures |Schedule(KEY)| == 44 && Forward(Schedule(KEY), ToGrid(BLOCK), 9) == S9
  {
    hide Schedule;
    hide AddKey;
    hide MixColumns;
    hide ShiftRows;
    hide SubBytes;
    hide ToGrid;
    hide KeyGrid;
    State8();
    Key9();
    Round9();
    Next(8, S8, K9, S9);
  }

  lemma EndIs()
    ensures ToBytes(END) == SEALED
  {
  }

  /** The cipher example of appendix B. */
  lemma BlockVector()
    ensures EncryptBlock(KEY, BLOCK) == SEALED
  {
    hide Schedule;
    hide AddKey;
    hide ShiftRows;
    hide SubBytes;
    hide ToGrid;
    hide ToBytes;
    hide KeyGrid;
    hide RoundKey;
    hide Encrypt;
    State9();
    KeyAt(10);
    Key10();
    Last();
    EndIs();
    Ends(Schedule(KEY), 10, ToGrid(BLOCK));
    EncryptBlockIs(KEY, BLOCK);
  }

  lemma Long6()
    ensures Scrambled(Word(0x52, 0x2c, 0x6b, 0x7b), 6, 6) == Word(0x70, 0x7f, 0x21, 0x00)
  {
    SubWordIs(Word(0x2c, 0x6b, 0x7b, 0x52), Word(0x71, 0x7f, 0x21, 0x00));
    assert Doubled(0) == 1;
    hide SubWord;
  }

  lemma Long8()
    ensures Scrambled(Word(0x09, 0x14, 0xdf, 0xf4), 8, 8) == Word(0xfb, 0x9e, 0xbf, 0x01)
  {
    SubWordIs(Word(0x14, 0xdf, 0xf4, 0x09), Word(0xfa, 0x9e, 0xbf, 0x01));
    assert Doubled(0) == 1;
    hide SubWord;
  }

  lemma Long12()
    ensures Scrambled(Word(0x20, 0x67, 0xfc, 0xde), 12, 8) == Word(0xb7, 0x85, 0xb0, 0x1d)
  {
    SubWordIs(Word(0x20, 0x67, 0xfc, 0xde), Word(0xb7, 0x85, 0xb0, 0x1d));
    assert Doubled(0) == 1;
    hide SubWord;
  }

  lemma Word24At6()
    ensures KeyWord(KEY24, 6) == Word(0xfe, 0x0c, 0x91, 0xf7)
  {
    hide KeyWord;
    hide Scrambled;
    KeyWordFirst(KEY24, 5);
    KeyWordFirst(KEY24, 0);
    KeyWordNext(KEY24, 6);
    Long6();
  }

  lemma Word32At8()
    ensures KeyWord(KEY32, 8) == Word(0x9b, 0xa3, 0x54, 0x11)
  {
    hide KeyWord;
    hide Scrambled;
    KeyWordFirst(KEY32, 7);
    KeyWordFirst(KEY32, 0);
    KeyWordNext(KEY32, 8);
    Long8();
  }

  lemma Word32At9()
    ensures KeyWord(KEY32, 9) == Word(0x8e, 0x69, 0x25, 0xaf)
  {
    hide KeyWord;
    hide Scrambled;
    Word32At8();
    KeyWordFirst(KEY32, 1);
    KeyWordNext(KEY32, 9);
    Unscrambled(KeyWord(KEY32, 8), 9, 8);
  }

  lemma Word32At10()
    ensures KeyWord(KEY32, 10) == Word(0xa5, 0x1a, 0x8b, 0x5f)
  {
    hide KeyWord;
    hide Scrambled;
    Word32At9();
    KeyWordFirst(KEY32, 2);
    KeyWordNext(KEY32, 10);
    Unscrambled(KeyWord(KEY32, 9), 10, 8);
  }

  lemma Word32At11()
    ensures KeyWord(KEY32, 11) == Word(0x20, 0x67, 0xfc, 0xde)
  {
    hide KeyWord;
    hide Scrambled;
    Word32At10();
    KeyWordFirst(KEY32, 3);
    KeyWordNext(KEY32, 11);
    Unscrambled(KeyWord(KEY32, 10), 11, 8);
  }

  lemma Word32At12()
    ensures KeyWord(KEY32, 12) == Word(0xa8, 0xb0, 0x9c, 0x1a)
  {
    hide KeyWord;
    hide Scrambled;
    Word32At11();
    KeyWordFirst(KEY32, 4);
    KeyWordNext(KEY32, 12);
    Long12();
  }

  /** The numbers of rounds for the three lengths. */
  lemma RoundsAre()
    ensures KeySize(|KEY|) && KeySize(|KEY24|) && KeySize(|KEY32|)
    ensures KeyRounds(|KEY|) == 10 && KeyRounds(|KEY24|) == 12 && KeyRounds(|KEY32|) == 14
  {
  }
}
