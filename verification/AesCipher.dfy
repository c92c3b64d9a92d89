/** The working part of aes.py: the key expansion, the round functions that overwrite a 4x4 state,
    and the block cipher built from them. */
module AesCipher {
  import opened Common
  import opened AesField
  import opened AesSbox
  import opened AesRounds

  // ---- Key expansion ----

  const RCON: seq<bv8> :=
    [0x01, 0x02, 0x04, 0x08, 0x10, 0x20, 0x40, 0x80, 0x1b, 0x36, 0x6c, 0xd8, 0xab, 0x4d]

  /** x to the power of `j`. */
  function Doubled(j: nat): bv8 {
    if j == 0 then 1 else XTime(Doubled(j - 1))
  }

  lemma RconIs(j: nat)
    requires j < 14
    ensures RCON[j] == Doubled(j)
  {
    assert Doubled(7) == 0x80;
    assert Doubled(13) == 0x4d;
  }

  predicate KeySize(n: nat) {
    n == 16 || n == 24 || n == 32
  }

  function KeyRounds(n: nat): nat {
    n / 4 + 6
  }

  function WordAt(b: seq<bv8>, i: nat): Word
    requires 4 * i + 4 <= |b|
  {
    Word(b[4 * i], b[4 * i + 1], b[4 * i + 2], b[4 * i + 3])
  }

  function RotWord(w: Word): Word {
    Word(w.b1, w.b2, w.b3, w.b0)
  }

  lemma AtLeastOne(i: nat, nk: nat)
    requires 0 < nk <= i
    ensures i / nk >= 1
  {
  }

  /** What the word before contributes to word `i` (section 5.2 of FIPS 197). */
  ghost function Scrambled(t: Word, i: nat, nk: nat): Word
    requires 0 < nk <= i
  {
    AtLeastOne(i, nk);
    if i % nk == 0 then
      var sub := SubWord(RotWord(t));
      sub.(b0 := Add(sub.b0, Doubled(i / nk - 1)))
    else if nk > 6 && i % nk == 4 then SubWord(t)
    else t
  }

  ghost function KeyWord(key: seq<bv8>, i: nat): Word
    requires KeySize(|key|)
    decreases i
  {
    var nk := |key| / 4;
    if i < nk then WordAt(key, i)
    else XorWord(KeyWord(key, i - nk), Scrambled(KeyWord(key, i - 1), i, nk))
  }

  /** The schedule: `4 * (rounds + 1)` words. */
  ghost function Schedule(key: seq<bv8>): (w: seq<Word>)
    requires KeySize(|key|)
    ensures Scheduled(w, KeyRounds(|key|))
  {
    seq(4 * (KeyRounds(|key|) + 1), i requires 0 <= i => KeyWord(key, i))
  }

  function Lookup(box: seq<bv8>, w: Word): Word
    requires |box| == 256
  {
    Word(box[Index(w.b0)], box[Index(w.b1)], box[Index(w.b2)], box[Index(w.b3)])
  }

  lemma LookupIsSub(box: seq<bv8>, w: Word)
    requires IsSbox(box)
    ensures |box| == 256 && Lookup(box, w) == SubWord(w)
  {
    hide Index;
    hide SubByte;
  }

  lemma LookupIsInvSub(box: seq<bv8>, w: Word)
    requires IsInvSbox(box)
    ensures |box| == 256 && Lookup(box, w) == InvSubWord(w)
  {
    hide Index;
    hide InvSubByte;
  }

  lemma KeyWordNext(key: seq<bv8>, i: nat)
    requires KeySize(|key|) && |key| / 4 <= i
    ensures KeyWord(key, i) ==
            XorWord(KeyWord(key, i - |key| / 4), Scrambled(KeyWord(key, i - 1), i, |key| / 4))
  {
    hide XorWord;
    hide Scrambled;
  }

  lemma KeyWordFirst(key: seq<bv8>, i: nat)
    requires KeySize(|key|) && i < |key| / 4
    ensures KeyWord(key, i) == WordAt(key, i)
  {
    hide XorWord;
    hide Scrambled;
  }

  lemma ScheduleIs(key: seq<bv8>, w: seq<Word>)
    requires KeySize(|key|) && |w| == 4 * (KeyRounds(|key|) + 1)
    requires forall k :: 0 <= k < |w| ==> w[k] == KeyWord(key, k)
    ensures w == Schedule(key)
  {
    hide KeyWord;
  }

  /** `_key_expansion`: every table index is in range, and the words are the schedule. */
  method KeyExpansion(key: seq<bv8>, sbox: array<bv8>) returns (w: seq<Word>, nr: nat)
    requires KeySize(|key|) && sbox.Length == 256 && IsSbox(sbox[..])
    ensures nr == KeyRounds(|key|) && w == Schedule(key)
  {
    hide KeyWord;
    hide Scrambled;
    hide Schedule;
    hide IsSbox;
    hide XorWord;
    hide WordAt;
    var nk := |key| / 4;
    nr := if nk == 4 then 10 else if nk == 6 then 12 else 14;
    w := [];
    for i := 0 to nk
      invariant |w| == i
      invariant forall k :: 0 <= k < i ==> w[k] == KeyWord(key, k)
    {
      KeyWordFirst(key, i);
      w := w + [WordAt(key, i)];
    }
    for i := nk to 4 * (nr + 1)
      invariant |w| == i
      invariant forall k :: 0 <= k < i ==> w[k] == KeyWord(key, k)
    {
      var temp := Temp(w[i - 1], i, nk, sbox);
      KeyWordNext(key, i);
      w := w + [XorWord(w[i - nk], temp)];
    }
    ScheduleIs(key, w);
  }

  method Temp(last: Word, i: nat, nk: nat, sbox: array<bv8>) returns (temp: Word)
    requires 0 < nk <= i && i / nk <= 14 && sbox.Length == 256 && IsSbox(sbox[..])
    ensures temp == Scrambled(last, i, nk)
  {
    hide IsSbox;
    hide SubWord;
    hide Lookup;
    temp := last;
    if i % nk == 0 {
      temp := RotWord(temp);
      LookupIsSub(sbox[..], temp);
      temp := Lookup(sbox[..], temp);
      RconIs(i / nk - 1);
      temp := temp.(b0 := Add(temp.b0, RCON[i / nk - 1]));
    } else if nk > 6 && i % nk == 4 {
      LookupIsSub(sbox[..], temp);
      temp := Lookup(sbox[..], temp);
    }
  }

  // ---- The state ----

  /** The columns of four rows. */
  function FromRows(rows: seq<Word>): Grid
    requires |rows| == 4
  {
    Grid(Word(rows[0].b0, rows[1].b0, rows[2].b0, rows[3].b0), Word(rows[0].b1, rows[1].b1, rows[2].b1, rows[3].b1),
         Word(rows[0].b2, rows[1].b2, rows[2].b2, rows[3].b2), Word(rows[0].b3, rows[1].b3, rows[2].b3, rows[3].b3))
  }

  /** A state, which the program keeps as a list of rows. */
  ghost function GridOf(state: array<Word>): Grid
    requires state.Length == 4
    reads state
  {
    FromRows(state[..])
  }

  function ByteOf(w: Word, r: nat): bv8
    requires r < 4
  {
    if r == 0 then w.b0 else if r == 1 then w.b1 else if r == 2 then w.b2 else w.b3
  }

  function WithByte(w: Word, r: nat, b: bv8): Word
    requires r < 4
  {
    if r == 0 then w.(b0 := b) else if r == 1 then w.(b1 := b) else if r == 2 then w.(b2 := b) else w.(b3 := b)
  }

  function Column(g: Grid, c: nat): Word
    requires c < 4
  {
    if c == 0 then g.c0 else if c == 1 then g.c1 else if c == 2 then g.c2 else g.c3
  }

  function WithColumn(g: Grid, c: nat, w: Word): Grid
    requires c < 4
  {
    if c == 0 then g.(c0 := w) else if c == 1 then g.(c1 := w) else if c == 2 then g.(c2 := w) else g.(c3 := w)
  }

  /** One byte of a state replaced. */
  method SetByte(state: array<Word>, r: nat, c: nat, b: bv8)
    requires state.Length == 4 && r < 4 && c < 4
    modifies state
    ensures GridOf(state) == WithColumn(old(GridOf(state)), c, WithByte(Column(old(GridOf(state)), c), r, b))
  {
    RowSet(state[..], r, c, b);
    hide FromRows;
    hide WithByte;
    hide WithColumn;
    hide Column;
    ghost var was := state[..];
    state[r] := WithByte(state[r], c, b);
    assert state[..] == was[r := WithByte(was[r], c, b)];
  }

  lemma RowSet(rows: seq<Word>, r: nat, c: nat, b: bv8)
    requires |rows| == 4 && r < 4 && c < 4
    ensures var g := FromRows(rows);
            FromRows(rows[r := WithByte(rows[r], c, b)]) == WithColumn(g, c, WithByte(Column(g, c), r, b))
  {
    if r == 0 {
    } else if r == 1 {
    } else if r == 2 {
    } else {
    }
  }

  method GetByte(state: array<Word>, r: nat, c: nat) returns (b: bv8)
    requires state.Length == 4 && r < 4 && c < 4
    ensures b == ByteOf(Column(GridOf(state), c), r)
  {
    b := ByteOf(state[r], c);
  }

  /** The first `r` bytes of one word, then the others of another. */
  function Spliced(a: Word, b: Word, r: nat): Word {
    Word(if r > 0 then a.b0 else b.b0, if r > 1 then a.b1 else b.b1, if r > 2 then a.b2 else b.b2,
         if r > 3 then a.b3 else b.b3)
  }

  /** The first `c` columns of one state, then the others of another. */
  function SplicedGrid(a: Grid, b: Grid, c: nat): Grid {
    Grid(if c > 0 then a.c0 else b.c0, if c > 1 then a.c1 else b.c1, if c > 2 then a.c2 else b.c2,
         if c > 3 then a.c3 else b.c3)
  }

  lemma SpliceNext(a: Word, b: Word, r: nat)
    requires r < 4
    ensures ByteOf(Spliced(a, b, r), r) == ByteOf(b, r)
    ensures WithByte(Spliced(a, b, r), r, ByteOf(a, r)) == Spliced(a, b, r + 1)
  {
  }

  lemma SpliceEnds(a: Word, b: Word)
    ensures Spliced(a, b, 0) == b && Spliced(a, b, 4) == a
  {
  }

  lemma SpliceGridNext(a: Grid, b: Grid, c: nat)
    requires c < 4
    ensures Column(SplicedGrid(a, b, c), c) == Column(b, c)
    ensures WithColumn(SplicedGrid(a, b, c), c, Column(a, c)) == SplicedGrid(a, b, c + 1)
    ensures WithColumn(SplicedGrid(a, b, c), c, Column(b, c)) == SplicedGrid(a, b, c)
  {
  }

  lemma SpliceGridEnds(a: Grid, b: Grid)
    ensures SplicedGrid(a, b, 0) == b && SplicedGrid(a, b, 4) == a
  {
  }

  lemma ColumnSet(g: Grid, c: nat, v: Word, w: Word)
    requires c < 4
    ensures Column(WithColumn(g, c, v), c) == v && WithColumn(WithColumn(g, c, v), c, w) == WithColumn(g, c, w)
  {
  }

  /** `_add_round_key` */
  method AddRoundKey(state: array<Word>, w: seq<Word>, rnd: nat)
    requires state.Length == 4 && 4 * rnd + 4 <= |w|
    modifies state
    ensures GridOf(state) == AddKey(old(GridOf(state)), RoundKey(w, rnd))
  {
    hide *;
    ghost var was := GridOf(state);
    ghost var goal := AddKey(was, RoundKey(w, rnd));
    SpliceGridEnds(goal, was);
    for c := 0 to 4
      invariant GridOf(state) == SplicedGrid(goal, was, c)
    {
      SpliceGridNext(goal, was, c);
      KeyColumn(was, w, rnd, c);
      SpliceEnds(Column(goal, c), Column(was, c));
      for r := 0 to 4
        invariant GridOf(state) ==
                  WithColumn(SplicedGrid(goal, was, c), c, Spliced(Column(goal, c), Column(was, c), r))
      {
        var b := GetByte(state, r, c);
        ColumnSet(SplicedGrid(goal, was, c), c, Spliced(Column(goal, c), Column(was, c), r),
                  Spliced(Column(goal, c), Column(was, c), r + 1));
        SpliceNext(Column(goal, c), Column(was, c), r);
        XorByte(Column(was, c), w[rnd * 4 + c], r);
        SetByte(state, r, c, Add(b, ByteOf(w[rnd * 4 + c], r)));
      }
    }
  }

  lemma KeyColumn(s: Grid, w: seq<Word>, rnd: nat, c: nat)
    requires 4 * rnd + 4 <= |w| && c < 4
    ensures Column(AddKey(s, RoundKey(w, rnd)), c) == XorWord(Column(s, c), w[rnd * 4 + c])
  {
    hide XorWord;
  }

  lemma XorByte(a: Word, b: Word, r: nat)
    requires r < 4
    ensures ByteOf(XorWord(a, b), r) == Add(ByteOf(a, r), ByteOf(b, r))
  {
    hide Add;
  }

  function LookupAll(box: seq<bv8>, s: Grid): Grid
    requires |box| == 256
  {
    Grid(Lookup(box, s.c0), Lookup(box, s.c1), Lookup(box, s.c2), Lookup(box, s.c3))
  }

  /** `_sub_bytes`, with either table. */
  method SubstituteBytes(state: array<Word>, box: array<bv8>)
    requires state.Length == 4 && box.Length == 256
    modifies state
    ensures GridOf(state) == LookupAll(box[..], old(GridOf(state)))
  {
    hide Index;
    ghost var was := state[..];
    ghost var table := box[..];
    for r := 0 to 4
      invariant forall j :: 0 <= j < 4 ==> state[j] == if j < r then Lookup(table, was[j]) else was[j]
    {
      hide Lookup;
      var row := LookupRow(state[r], box);
      state[r] := row;
    }
  }

  method LookupRow(was: Word, box: array<bv8>) returns (row: Word)
    requires box.Length == 256
    ensures row == Lookup(box[..], was)
  {
    hide *;
    row := was;
    ghost var goal := Lookup(box[..], was);
    SpliceEnds(goal, was);
    for c := 0 to 4
      invariant row == Spliced(goal, was, c)
    {
      SpliceNext(goal, was, c);
      LookupByte(box[..], was, c);
      row := WithByte(row, c, box[Index(ByteOf(row, c))]);
    }
  }

  lemma LookupByte(box: seq<bv8>, w: Word, c: nat)
    requires |box| == 256 && c < 4
    ensures ByteOf(Lookup(box, w), c) == box[Index(ByteOf(w, c))]
  {
    hide Index;
  }

  function Listed(w: Word): (l: seq<bv8>)
    ensures |l| == 4
  {
    [w.b0, w.b1, w.b2, w.b3]
  }

  function FromList(l: seq<bv8>): Word
    requires |l| == 4
  {
    Word(l[0], l[1], l[2], l[3])
  }

  /** A row cut after `cut` bytes and its parts exchanged. */
  function CutRow(w: Word, cut: nat): Word
    requires cut <= 4
  {
    FromList(Listed(w)[cut..] + Listed(w)[..cut])
  }

  lemma Cuts(w: Word)
    ensures CutRow(w, 1) == Word(w.b1, w.b2, w.b3, w.b0) && CutRow(w, 2) == Word(w.b2, w.b3, w.b0, w.b1)
    ensures CutRow(w, 3) == Word(w.b3, w.b0, w.b1, w.b2)
  {
  }

  /** `_shift_rows` */
  method ShiftRowsLeft(state: array<Word>)
    requires state.Length == 4
    modifies state
    ensures GridOf(state) == ShiftRows(old(GridOf(state)))
  {
    hide CutRow;
    ghost var was := state[..];
    for r := 1 to 4
      invariant forall j :: 0 <= j < 4 ==> state[j] == if 1 <= j < r then CutRow(was[j], j) else was[j]
    {
      state[r] := CutRow(state[r], r);
    }
    Cuts(was[1]);
    Cuts(was[2]);
    Cuts(was[3]);
  }

  /** `_inv_shift_rows` */
  method ShiftRowsRight(state: array<Word>)
    requires state.Length == 4
    modifies state
    ensures GridOf(state) == InvShiftRows(old(GridOf(state)))
  {
    hide CutRow;
    ghost var was := state[..];
    for r := 1 to 4
      invariant forall j :: 0 <= j < 4 ==> state[j] == if 1 <= j < r then CutRow(was[j], 4 - j) else was[j]
    {
      state[r] := CutRow(state[r], 4 - r);
    }
    Cuts(was[1]);
    Cuts(was[2]);
    Cuts(was[3]);
  }

  /** Doubling and adding make the products of the mixing matrix. */
  lemma SmallProducts(a: bv8)
    ensures Mul(a, 2) == XTime(a) && Mul(a, 3) == Add(XTime(a), a) && Mul(a, 1) == a
  {
    TwoAndThree();
    hide *;
    FieldLaws(a, 1, 0);
    FieldLaws(a, 2, 0);
    FieldLaws(a, 3, 0);
    OneTimes(a);
    MulDoubles(1, a);
    MulLinear(2, 1, a);
  }

  lemma TwoAndThree()
    ensures XTime(1) == 2 && Add(2, 1) == 3
  {
  }

  lemma SumInLine(a: bv8, b: bv8, c: bv8, d: bv8)
    ensures Add(Add(Add(a, b), c), d) == Sum(a, b, c, d)
  {
    hide Add;
    AddAssoc(Add(a, b), c, d);
  }

  /** The mixed column as the program writes it out. */
  function MixedColumn(a: Word): Word {
    Word(Add(Add(Add(XTime(a.b0), Add(XTime(a.b1), a.b1)), a.b2), a.b3),
         Add(Add(Add(a.b0, XTime(a.b1)), Add(XTime(a.b2), a.b2)), a.b3),
         Add(Add(Add(a.b0, a.b1), XTime(a.b2)), Add(XTime(a.b3), a.b3)),
         Add(Add(Add(Add(XTime(a.b0), a.b0), a.b1), a.b2), XTime(a.b3)))
  }

  function UnmixedColumn(a: Word): Word {
    Word(Add(Add(Add(Mul(a.b0, 14), Mul(a.b1, 11)), Mul(a.b2, 13)), Mul(a.b3, 9)),
         Add(Add(Add(Mul(a.b0, 9), Mul(a.b1, 14)), Mul(a.b2, 11)), Mul(a.b3, 13)),
         Add(Add(Add(Mul(a.b0, 13), Mul(a.b1, 9)), Mul(a.b2, 14)), Mul(a.b3, 11)),
         Add(Add(Add(Mul(a.b0, 11), Mul(a.b1, 13)), Mul(a.b2, 9)), Mul(a.b3, 14)))
  }

  lemma MixedColumnIs(a: Word)
    ensures MixedColumn(a) == Blend(MIX, a)
  {
    hide Mul;
    hide Add;
    hide XTime;
    SmallProducts(a.b0);
    SmallProducts(a.b1);
    SmallProducts(a.b2);
    SmallProducts(a.b3);
    SumInLine(XTime(a.b0), Add(XTime(a.b1), a.b1), a.b2, a.b3);
    SumInLine(a.b0, XTime(a.b1), Add(XTime(a.b2), a.b2), a.b3);
    SumInLine(a.b0, a.b1, XTime(a.b2), Add(XTime(a.b3), a.b3));
    SumInLine(Add(XTime(a.b0), a.b0), a.b1, a.b2, XTime(a.b3));
  }

  lemma UnmixedColumnIs(a: Word)
    ensures UnmixedColumn(a) == Blend(UNMIX, a)
  {
    hide Mul;
    hide Add;
    SumInLine(Mul(a.b0, 14), Mul(a.b1, 11), Mul(a.b2, 13), Mul(a.b3, 9));
    SumInLine(Mul(a.b0, 9), Mul(a.b1, 14), Mul(a.b2, 11), Mul(a.b3, 13));
    SumInLine(Mul(a.b0, 13), Mul(a.b1, 9), Mul(a.b2, 14), Mul(a.b3, 11));
    SumInLine(Mul(a.b0, 11), Mul(a.b1, 13), Mul(a.b2, 9), Mul(a.b3, 14));
  }

  /** `_mul`: shift and add, eight times. */
  method Multiply(a: bv8, b: bv8) returns (res: bv8)
    ensures res == Mul(a, b)
  {
    hide *;
    var x, y := a, b;
    res := 0;
    MulIs(a, b);
    AddNone(Mul(a, b));
    for i := 0 to 8
      invariant Add(res, MulBits(x, y, 8 - i)) == Mul(a, b)
    {
      MulBitsUnfold(x, y, 8 - i);
      AddAssoc(res, Pick(x, y), MulBits(XTime(x), Half(y), 8 - i - 1));
      res := Add(res, Pick(x, y));
      x := XTime(x);
      y := Half(y);
    }
    MulBitsNone(x, y);
    AddNone(res);
  }

  lemma MulIs(a: bv8, b: bv8)
    ensures Mul(a, b) == MulBits(a, b, 8)
  {
    hide MulBits;
  }

  method ReadColumn(state: array<Word>, c: nat) returns (w: Word)
    requires state.Length == 4 && c < 4
    ensures w == Column(GridOf(state), c)
  {
    w := Word(ByteOf(state[0], c), ByteOf(state[1], c), ByteOf(state[2], c), ByteOf(state[3], c));
  }

  method WriteColumn(state: array<Word>, c: nat, w: Word)
    requires state.Length == 4 && c < 4
    modifies state
    ensures GridOf(state) == WithColumn(old(GridOf(state)), c, w)
  {
    state[0] := WithByte(state[0], c, w.b0);
    state[1] := WithByte(state[1], c, w.b1);
    state[2] := WithByte(state[2], c, w.b2);
    state[3] := WithByte(state[3], c, w.b3);
  }

  lemma MixedAt(s: Grid, c: nat)
    requires c < 4
    ensures Column(MixColumns(s), c) == Blend(MIX, Column(s, c))
    ensures Column(InvMixColumns(s), c) == Blend(UNMIX, Column(s, c))
  {
    hide Blend;
  }

  /** `_mix_columns` */
  method MixAllColumns(state: array<Word>)
    requires state.Length == 4
    modifies state
    ensures GridOf(state) == MixColumns(old(GridOf(state)))
  {
    hide *;
    ghost var was := GridOf(state);
    ghost var goal := MixColumns(was);
    SpliceGridEnds(goal, was);
    for c := 0 to 4
      invariant GridOf(state) == SplicedGrid(goal, was, c)
    {
      var a := ReadColumn(state, c);
      SpliceGridNext(goal, was, c);
      MixedAt(was, c);
      MixedColumnIs(a);
      WriteColumn(state, c, MixedColumn(a));
    }
  }

  /** `_inv_mix_columns` */
  method UnmixAllColumns(state: array<Word>)
    requires state.Length == 4
    modifies state
    ensures GridOf(state) == InvMixColumns(old(GridOf(state)))
  {
    hide *;
    ghost var was := GridOf(state);
    ghost var goal := InvMixColumns(was);
    SpliceGridEnds(goal, was);
    for c := 0 to 4
      invariant GridOf(state) == SplicedGrid(goal, was, c)
    {
      var a := ReadColumn(state, c);
      SpliceGridNext(goal, was, c);
      MixedAt(was, c);
      UnmixedColumnIs(a);
      WriteColumn(state, c, UnmixedColumn(a));
    }
  }
}
