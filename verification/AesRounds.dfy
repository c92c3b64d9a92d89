/** The rounds of AES on values (section 5 of FIPS 197), and why decryption undoes encryption.

    A state is four columns of four bytes, the order in which a block's bytes and a key's words come. */
module AesRounds {
  import opened AesField
  import opened AesSbox

  datatype Word = Word(b0: bv8, b1: bv8, b2: bv8, b3: bv8)
  datatype Grid = Grid(c0: Word, c1: Word, c2: Word, c3: Word)

  function XorWord(a: Word, b: Word): Word {
    Word(Add(a.b0, b.b0), Add(a.b1, b.b1), Add(a.b2, b.b2), Add(a.b3, b.b3))
  }

  function AddKey(s: Grid, k: Grid): Grid {
    Grid(XorWord(s.c0, k.c0), XorWord(s.c1, k.c1), XorWord(s.c2, k.c2), XorWord(s.c3, k.c3))
  }

  ghost function SubWord(w: Word): Word {
    Word(SubByte(w.b0), SubByte(w.b1), SubByte(w.b2), SubByte(w.b3))
  }

  ghost function SubBytes(s: Grid): Grid {
    Grid(SubWord(s.c0), SubWord(s.c1), SubWord(s.c2), SubWord(s.c3))
  }

  ghost function InvSubWord(w: Word): Word {
    Word(InvSubByte(w.b0), InvSubByte(w.b1), InvSubByte(w.b2), InvSubByte(w.b3))
  }

  ghost function InvSubBytes(s: Grid): Grid {
    Grid(InvSubWord(s.c0), InvSubWord(s.c1), InvSubWord(s.c2), InvSubWord(s.c3))
  }

  /** Row r moves r columns to the left. */
  function ShiftRows(s: Grid): Grid {
    Grid(Word(s.c0.b0, s.c1.b1, s.c2.b2, s.c3.b3),
         Word(s.c1.b0, s.c2.b1, s.c3.b2, s.c0.b3),
         Word(s.c2.b0, s.c3.b1, s.c0.b2, s.c1.b3),
         Word(s.c3.b0, s.c0.b1, s.c1.b2, s.c2.b3))
  }

  /** Row r moves r columns to the right. */
  function InvShiftRows(s: Grid): Grid {
    Grid(Word(s.c0.b0, s.c3.b1, s.c2.b2, s.c1.b3),
         Word(s.c1.b0, s.c0.b1, s.c3.b2, s.c2.b3),
         Word(s.c2.b0, s.c1.b1, s.c0.b2, s.c3.b3),
         Word(s.c3.b0, s.c2.b1, s.c1.b2, s.c0.b3))
  }

  function Sum(a: bv8, b: bv8, c: bv8, d: bv8): bv8 {
    Add(Add(a, b), Add(c, d))
  }

  function Dot(a: Word, k: Word): bv8 {
    Sum(Mul(a.b0, k.b0), Mul(a.b1, k.b1), Mul(a.b2, k.b2), Mul(a.b3, k.b3))
  }

  function Turned(k: Word): Word {
    Word(k.b3, k.b0, k.b1, k.b2)
  }

  /** A column times a polynomial, modulo x^4 + 1. */
  function Blend(k: Word, a: Word): Word {
    Word(Dot(a, k), Dot(a, Turned(k)), Dot(a, Turned(Turned(k))), Dot(a, Turned(Turned(Turned(k)))))
  }

  const MIX: Word := Word(2, 3, 1, 1)
  const UNMIX: Word := Word(14, 11, 13, 9)

  function MixColumns(s: Grid): Grid {
    Grid(Blend(MIX, s.c0), Blend(MIX, s.c1), Blend(MIX, s.c2), Blend(MIX, s.c3))
  }

  function InvMixColumns(s: Grid): Grid {
    Grid(Blend(UNMIX, s.c0), Blend(UNMIX, s.c1), Blend(UNMIX, s.c2), Blend(UNMIX, s.c3))
  }

  // ---- Every step can be undone ----

  lemma XorTwice(a: Word, b: Word)
    ensures XorWord(XorWord(a, b), b) == a
  {
    hide Add;
    AddTwice(a.b0, b.b0);
    AddTwice(a.b1, b.b1);
    AddTwice(a.b2, b.b2);
    AddTwice(a.b3, b.b3);
  }

  lemma AddKeyTwice(s: Grid, k: Grid)
    ensures AddKey(AddKey(s, k), k) == s
  {
    hide XorWord;
    XorTwice(s.c0, k.c0);
    XorTwice(s.c1, k.c1);
    XorTwice(s.c2, k.c2);
    XorTwice(s.c3, k.c3);
  }

  lemma SubWordUndone(w: Word)
    ensures InvSubWord(SubWord(w)) == w == SubWord(InvSubWord(w))
  {
    hide SubByte;
    hide InvSubByte;
    SubByteInverse(w.b0);
    SubByteInverse(w.b1);
    SubByteInverse(w.b2);
    SubByteInverse(w.b3);
  }

  lemma SubBytesUndone(s: Grid)
    ensures InvSubBytes(SubBytes(s)) == s == SubBytes(InvSubBytes(s))
  {
    hide SubWord;
    hide InvSubWord;
    SubWordUndone(s.c0);
    SubWordUndone(s.c1);
    SubWordUndone(s.c2);
    SubWordUndone(s.c3);
  }

  lemma ShiftRowsUndone(s: Grid)
    ensures InvShiftRows(ShiftRows(s)) == s == ShiftRows(InvShiftRows(s))
  {
  }

  // ---- Mixing ----

  /** A weighted sum, scaled. */
  lemma DotScaled(a: Word, l: Word, k: bv8)
    ensures Mul(Dot(a, l), k) ==
            Sum(Mul(a.b0, Mul(l.b0, k)), Mul(a.b1, Mul(l.b1, k)), Mul(a.b2, Mul(l.b2, k)), Mul(a.b3, Mul(l.b3, k)))
  {
    hide Mul;
    hide Add;
    var p0, p1, p2, p3 := Mul(a.b0, l.b0), Mul(a.b1, l.b1), Mul(a.b2, l.b2), Mul(a.b3, l.b3);
    MulLinear(Add(p0, p1), Add(p2, p3), k);
    MulLinear(p0, p1, k);
    MulLinear(p2, p3, k);
    FieldLaws(a.b0, l.b0, k);
    FieldLaws(a.b1, l.b1, k);
    FieldLaws(a.b2, l.b2, k);
    FieldLaws(a.b3, l.b3, k);
  }

  /** Rows and columns of a sum of sixteen change places. */
  lemma SumsTurned(x0: Word, x1: Word, x2: Word, x3: Word)
    ensures Sum(Sum(x0.b0, x0.b1, x0.b2, x0.b3), Sum(x1.b0, x1.b1, x1.b2, x1.b3),
                Sum(x2.b0, x2.b1, x2.b2, x2.b3), Sum(x3.b0, x3.b1, x3.b2, x3.b3)) ==
            Sum(Sum(x0.b0, x1.b0, x2.b0, x3.b0), Sum(x0.b1, x1.b1, x2.b1, x3.b1),
                Sum(x0.b2, x1.b2, x2.b2, x3.b2), Sum(x0.b3, x1.b3, x2.b3, x3.b3))
  {
    hide Add;
    SumsPaired(x0, x1);
    SumsPaired(x2, x3);
    Regroup(Add(Add(x0.b0, x1.b0), Add(x0.b1, x1.b1)), Add(Add(x0.b2, x1.b2), Add(x0.b3, x1.b3)),
            Add(Add(x2.b0, x3.b0), Add(x2.b1, x3.b1)), Add(Add(x2.b2, x3.b2), Add(x2.b3, x3.b3)));
    Regroup(Add(x0.b0, x1.b0), Add(x0.b1, x1.b1), Add(x2.b0, x3.b0), Add(x2.b1, x3.b1));
    Regroup(Add(x0.b2, x1.b2), Add(x0.b3, x1.b3), Add(x2.b2, x3.b2), Add(x2.b3, x3.b3));
  }

  lemma SumsPaired(x: Word, y: Word)
    ensures Add(Sum(x.b0, x.b1, x.b2, x.b3), Sum(y.b0, y.b1, y.b2, y.b3)) ==
            Add(Add(Add(x.b0, y.b0), Add(x.b1, y.b1)), Add(Add(x.b2, y.b2), Add(x.b3, y.b3)))
  {
    hide Add;
    Regroup(Add(x.b0, x.b1), Add(x.b2, x.b3), Add(y.b0, y.b1), Add(y.b2, y.b3));
    Regroup(x.b0, x.b1, y.b0, y.b1);
    Regroup(x.b2, x.b3, y.b2, y.b3);
  }

  lemma MulOfSum(a: bv8, m: Word)
    ensures Mul(a, Sum(m.b0, m.b1, m.b2, m.b3)) == Sum(Mul(a, m.b0), Mul(a, m.b1), Mul(a, m.b2), Mul(a, m.b3))
  {
    hide Mul;
    hide Add;
    var s := Sum(m.b0, m.b1, m.b2, m.b3);
    FieldLaws(a, s, 1);
    FieldLaws(a, m.b0, 1);
    FieldLaws(a, m.b1, 1);
    FieldLaws(a, m.b2, 1);
    FieldLaws(a, m.b3, 1);
    MulLinear(Add(m.b0, m.b1), Add(m.b2, m.b3), a);
    MulLinear(m.b0, m.b1, a);
    MulLinear(m.b2, m.b3, a);
  }

  /** One row of a product of two matrices. */
  lemma DotOfDots(a: Word, l0: Word, l1: Word, l2: Word, l3: Word, k: Word)
    ensures Dot(Word(Dot(a, l0), Dot(a, l1), Dot(a, l2), Dot(a, l3)), k) ==
            Dot(a, Word(Dot(Word(l0.b0, l1.b0, l2.b0, l3.b0), k), Dot(Word(l0.b1, l1.b1, l2.b1, l3.b1), k),
                    Dot(Word(l0.b2, l1.b2, l2.b2, l3.b2), k), Dot(Word(l0.b3, l1.b3, l2.b3, l3.b3), k)))
  {
    hide Mul;
    hide Sum;
    DotScaled(a, l0, k.b0);
    DotScaled(a, l1, k.b1);
    DotScaled(a, l2, k.b2);
    DotScaled(a, l3, k.b3);
    SumsTurned(Scaled(a, l0, k.b0), Scaled(a, l1, k.b1), Scaled(a, l2, k.b2), Scaled(a, l3, k.b3));
    MulOfSum(a.b0, Word(Mul(l0.b0, k.b0), Mul(l1.b0, k.b1), Mul(l2.b0, k.b2), Mul(l3.b0, k.b3)));
    MulOfSum(a.b1, Word(Mul(l0.b1, k.b0), Mul(l1.b1, k.b1), Mul(l2.b1, k.b2), Mul(l3.b1, k.b3)));
    MulOfSum(a.b2, Word(Mul(l0.b2, k.b0), Mul(l1.b2, k.b1), Mul(l2.b2, k.b2), Mul(l3.b2, k.b3)));
    MulOfSum(a.b3, Word(Mul(l0.b3, k.b0), Mul(l1.b3, k.b1), Mul(l2.b3, k.b2), Mul(l3.b3, k.b3)));
  }

  function Scaled(a: Word, l: Word, k: bv8): Word {
    Word(Mul(a.b0, Mul(l.b0, k)), Mul(a.b1, Mul(l.b1, k)), Mul(a.b2, Mul(l.b2, k)), Mul(a.b3, Mul(l.b3, k)))
  }

  /** Row of `k` against every column of the matrix of `l`. */
  function RowProduct(l: Word, row: Word): Word {
    Word(Dot(Word(l.b0, l.b3, l.b2, l.b1), row), Dot(Word(l.b1, l.b0, l.b3, l.b2), row),
     Dot(Word(l.b2, l.b1, l.b0, l.b3), row), Dot(Word(l.b3, l.b2, l.b1, l.b0), row))
  }

  /** The two polynomials multiply to 1. */
  predicate Reciprocal(k: Word, l: Word) {
    && RowProduct(l, k) == Word(1, 0, 0, 0)
    && RowProduct(l, Turned(k)) == Word(0, 1, 0, 0)
    && RowProduct(l, Turned(Turned(k))) == Word(0, 0, 1, 0)
    && RowProduct(l, Turned(Turned(Turned(k)))) == Word(0, 0, 0, 1)
  }

  lemma BlendRow(l: Word, a: Word, row: Word)
    ensures Dot(Blend(l, a), row) == Dot(a, RowProduct(l, row))
  {
    hide Dot;
    DotOfDots(a, l, Turned(l), Turned(Turned(l)), Turned(Turned(Turned(l))), row);
  }

  lemma Unit(a: Word)
    ensures Dot(a, Word(1, 0, 0, 0)) == a.b0 && Dot(a, Word(0, 1, 0, 0)) == a.b1
    ensures Dot(a, Word(0, 0, 1, 0)) == a.b2 && Dot(a, Word(0, 0, 0, 1)) == a.b3
  {
    hide Mul;
    hide Add;
    UnitTerm(a.b0);
    UnitTerm(a.b1);
    UnitTerm(a.b2);
    UnitTerm(a.b3);
    AddNone(0);
  }

  lemma UnitTerm(a: bv8)
    ensures Mul(a, 1) == a && Mul(a, 0) == 0 && Add(a, 0) == a == Add(0, a)
  {
    hide *;
    FieldLaws(a, 1, 1);
    OneTimes(a);
    MulByNone(a);
    AddNone(a);
  }

  lemma BlendUndone(k: Word, l: Word, a: Word)
    requires Reciprocal(k, l)
    ensures Blend(k, Blend(l, a)) == a
  {
    hide Dot;
    hide RowProduct;
    BlendRow(l, a, k);
    BlendRow(l, a, Turned(k));
    BlendRow(l, a, Turned(Turned(k)));
    BlendRow(l, a, Turned(Turned(Turned(k))));
    Unit(a);
  }

  lemma MixProducts()
    ensures Mul(2, 14) == 28 && Mul(2, 11) == 22 && Mul(2, 13) == 26 && Mul(2, 9) == 18
    ensures Mul(3, 14) == 18 && Mul(3, 11) == 29 && Mul(3, 13) == 23 && Mul(3, 9) == 27
    ensures Mul(1, 14) == 14 && Mul(1, 11) == 11 && Mul(1, 13) == 13 && Mul(1, 9) == 9
  {
    hide Mul;
    MulUnrolled(2, 14);
    MulUnrolled(2, 11);
    MulUnrolled(2, 13);
    MulUnrolled(2, 9);
    MulUnrolled(3, 14);
    MulUnrolled(3, 11);
    MulUnrolled(3, 13);
    MulUnrolled(3, 9);
    MulUnrolled(1, 14);
    MulUnrolled(1, 11);
    MulUnrolled(1, 13);
    MulUnrolled(1, 9);
  }

  lemma UnmixProducts()
    ensures Mul(14, 2) == 28 && Mul(11, 2) == 22 && Mul(13, 2) == 26 && Mul(9, 2) == 18
    ensures Mul(14, 3) == 18 && Mul(11, 3) == 29 && Mul(13, 3) == 23 && Mul(9, 3) == 27
    ensures Mul(14, 1) == 14 && Mul(11, 1) == 11 && Mul(13, 1) == 13 && Mul(9, 1) == 9
  {
    hide Mul;
    MixProducts();
    FieldLaws(14, 2, 0);
    FieldLaws(11, 2, 0);
    FieldLaws(13, 2, 0);
    FieldLaws(9, 2, 0);
    FieldLaws(14, 3, 0);
    FieldLaws(11, 3, 0);
    FieldLaws(13, 3, 0);
    FieldLaws(9, 3, 0);
    FieldLaws(14, 1, 0);
    FieldLaws(11, 1, 0);
    FieldLaws(13, 1, 0);
    FieldLaws(9, 1, 0);
  }

  lemma MixReciprocal()
    ensures Reciprocal(UNMIX, MIX)
  {
    hide Mul;
    MixProducts();
  }

  lemma UnmixReciprocal()
    ensures Reciprocal(MIX, UNMIX)
  {
    hide Mul;
    UnmixProducts();
  }

  lemma MixColumnsUndone(s: Grid)
    ensures InvMixColumns(MixColumns(s)) == s == MixColumns(InvMixColumns(s))
  {
    hide Blend;
    hide Reciprocal;
    MixReciprocal();
    UnmixReciprocal();
    BlendUndone(UNMIX, MIX, s.c0);
    BlendUndone(UNMIX, MIX, s.c1);
    BlendUndone(UNMIX, MIX, s.c2);
    BlendUndone(UNMIX, MIX, s.c3);
    BlendUndone(MIX, UNMIX, s.c0);
    BlendUndone(MIX, UNMIX, s.c1);
    BlendUndone(MIX, UNMIX, s.c2);
    BlendUndone(MIX, UNMIX, s.c3);
  }

  // ---- The cipher ----

  /** A key schedule long enough for `nr` rounds. */
  predicate Scheduled(w: seq<Word>, nr: nat) {
    nr > 0 && |w| == 4 * (nr + 1)
  }

  function RoundKey(w: seq<Word>, rnd: nat): Grid
    requires 4 * rnd + 4 <= |w|
  {
    Grid(w[4 * rnd], w[4 * rnd + 1], w[4 * rnd + 2], w[4 * rnd + 3])
  }

  /** The state after round `rnd` of an encryption. */
  ghost function Forward(w: seq<Word>, s: Grid, rnd: nat): Grid
    requires 4 * rnd + 4 <= |w|
  {
    if rnd == 0 then AddKey(s, RoundKey(w, 0))
    else AddKey(MixColumns(ShiftRows(SubBytes(Forward(w, s, rnd - 1)))), RoundKey(w, rnd))
  }

  ghost function Encrypt(w: seq<Word>, nr: nat, s: Grid): Grid
    requires Scheduled(w, nr)
  {
    AddKey(ShiftRows(SubBytes(Forward(w, s, nr - 1))), RoundKey(w, nr))
  }

  /** The state of a decryption once the rounds above `rnd` are undone. */
  ghost function Backward(w: seq<Word>, nr: nat, t: Grid, rnd: nat): Grid
    requires Scheduled(w, nr) && rnd < nr
    decreases nr - rnd
  {
    if rnd == nr - 1 then AddKey(t, RoundKey(w, nr))
    else InvMixColumns(AddKey(InvSubBytes(InvShiftRows(Backward(w, nr, t, rnd + 1))), RoundKey(w, rnd + 1)))
  }

  ghost function Decrypt(w: seq<Word>, nr: nat, t: Grid): Grid
    requires Scheduled(w, nr)
  {
    AddKey(InvSubBytes(InvShiftRows(Backward(w, nr, t, 0))), RoundKey(w, 0))
  }

  lemma ForwardNext(w: seq<Word>, s: Grid, rnd: nat)
    requires 4 * rnd + 8 <= |w|
    ensures Forward(w, s, rnd + 1) ==
            AddKey(MixColumns(ShiftRows(SubBytes(Forward(w, s, rnd)))), RoundKey(w, rnd + 1))
  {
    hide AddKey;
    hide MixColumns;
    hide ShiftRows;
    hide SubBytes;
    hide RoundKey;
  }

  lemma BackwardNext(w: seq<Word>, nr: nat, t: Grid, rnd: nat)
    requires Scheduled(w, nr) && rnd + 1 < nr
    ensures Backward(w, nr, t, rnd) ==
            InvMixColumns(AddKey(InvSubBytes(InvShiftRows(Backward(w, nr, t, rnd + 1))), RoundKey(w, rnd + 1)))
  {
    hide AddKey;
    hide InvMixColumns;
    hide InvShiftRows;
    hide InvSubBytes;
    hide RoundKey;
  }

  lemma Ends(w: seq<Word>, nr: nat, s: Grid)
    requires Scheduled(w, nr)
    ensures |w| == 4 * (nr + 1) && nr > 0
    ensures Forward(w, s, 0) == AddKey(s, RoundKey(w, 0))
    ensures Backward(w, nr, s, nr - 1) == AddKey(s, RoundKey(w, nr))
    ensures Encrypt(w, nr, s) == AddKey(ShiftRows(SubBytes(Forward(w, s, nr - 1))), RoundKey(w, nr))
    ensures Decrypt(w, nr, s) == AddKey(InvSubBytes(InvShiftRows(Backward(w, nr, s, 0))), RoundKey(w, 0))
  {
    hide AddKey;
    hide ShiftRows;
    hide SubBytes;
    hide InvMixColumns;
    hide InvShiftRows;
    hide InvSubBytes;
    hide RoundKey;
  }

  /** Going back meets the states of going forward. */
  lemma {:induction false} BackMeetsForward(w: seq<Word>, nr: nat, s: Grid, rnd: nat)
    requires |w| == 4 * (nr + 1) && Scheduled(w, nr) && rnd < nr
    ensures Backward(w, nr, Encrypt(w, nr, s), rnd) == ShiftRows(SubBytes(Forward(w, s, rnd)))
    decreases nr - rnd
  {
    hide *;
    var t := Encrypt(w, nr, s);
    Ends(w, nr, s);
    Ends(w, nr, t);
    if rnd == nr - 1 {
      AddKeyTwice(ShiftRows(SubBytes(Forward(w, s, nr - 1))), RoundKey(w, nr));
    } else {
      BackMeetsForward(w, nr, s, rnd + 1);
      BackwardNext(w, nr, t, rnd);
      ForwardNext(w, s, rnd);
      ShiftRowsUndone(SubBytes(Forward(w, s, rnd + 1)));
      SubBytesUndone(Forward(w, s, rnd + 1));
      AddKeyTwice(MixColumns(ShiftRows(SubBytes(Forward(w, s, rnd)))), RoundKey(w, rnd + 1));
      MixColumnsUndone(ShiftRows(SubBytes(Forward(w, s, rnd))));
    }
  }

  /** Going forward meets the states of going back. */
  lemma {:induction false} ForwardMeetsBack(w: seq<Word>, nr: nat, t: Grid, rnd: nat)
    requires |w| == 4 * (nr + 1) && Scheduled(w, nr) && rnd < nr
    ensures Forward(w, Decrypt(w, nr, t), rnd) == InvSubBytes(InvShiftRows(Backward(w, nr, t, rnd)))
    decreases rnd
  {
    hide *;
    var s := Decrypt(w, nr, t);
    Ends(w, nr, s);
    Ends(w, nr, t);
    if rnd == 0 {
      AddKeyTwice(InvSubBytes(InvShiftRows(Backward(w, nr, t, 0))), RoundKey(w, 0));
    } else {
      var back := InvSubBytes(InvShiftRows(Backward(w, nr, t, rnd)));
      ForwardMeetsBack(w, nr, t, rnd - 1);
      BackwardNext(w, nr, t, rnd - 1);
      ForwardNext(w, s, rnd - 1);
      SubBytesUndone(InvShiftRows(Backward(w, nr, t, rnd - 1)));
      ShiftRowsUndone(Backward(w, nr, t, rnd - 1));
      MixColumnsUndone(AddKey(back, RoundKey(w, rnd)));
      AddKeyTwice(back, RoundKey(w, rnd));
    }
  }

  /** For every schedule and state, decryption undoes encryption and encryption undoes decryption. */
  lemma CipherInverse(w: seq<Word>, nr: nat, s: Grid)
    requires Scheduled(w, nr)
    ensures Decrypt(w, nr, Encrypt(w, nr, s)) == s == Encrypt(w, nr, Decrypt(w, nr, s))
  {
    hide *;
    Ends(w, nr, s);
    var t, u := Encrypt(w, nr, s), Decrypt(w, nr, s);
    Ends(w, nr, t);
    Ends(w, nr, u);
    BackMeetsForward(w, nr, s, 0);
    ShiftRowsUndone(SubBytes(Forward(w, s, 0)));
    SubBytesUndone(Forward(w, s, 0));
    AddKeyTwice(s, RoundKey(w, 0));
    ForwardMeetsBack(w, nr, s, nr - 1);
    SubBytesUndone(InvShiftRows(Backward(w, nr, s, nr - 1)));
    ShiftRowsUndone(Backward(w, nr, s, nr - 1));
    AddKeyTwice(s, RoundKey(w, nr));
  }
}
