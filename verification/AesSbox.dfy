/** The substitution box of aes.py: inversion in the field and an affine map, filled by one walk
    through the powers of 3 (section 5.1.1 of FIPS 197). */
module AesSbox {
  import opened AesField

  function Rotl8(x: bv8, n: nat): bv8
    requires n < 8
  {
    (x << n) | (x >> (8 - n))
  }

  function Affine(q: bv8): bv8 {
    (q ^ Rotl8(q, 1) ^ Rotl8(q, 2) ^ Rotl8(q, 3) ^ Rotl8(q, 4)) ^ 0x63
  }

  /** The affine map backwards. */
  function Unaffine(v: bv8): bv8 {
    Rotl8(v, 1) ^ Rotl8(v, 3) ^ Rotl8(v, 6) ^ 0x05
  }

  lemma AffineUndone(q: bv8)
    ensures Unaffine(Affine(q)) == q
  {
  }

  lemma UnaffineUndone(v: bv8)
    ensures Affine(Unaffine(v)) == v
  {
  }

  /** What the box should hold for a byte. */
  ghost function SubByte(b: bv8): bv8 {
    Affine(Inverse(b))
  }

  ghost function InvSubByte(v: bv8): bv8 {
    Inverse(Unaffine(v))
  }

  /** The box is a permutation of the bytes. */
  lemma SubByteInverse(b: bv8)
    ensures InvSubByte(SubByte(b)) == b == SubByte(InvSubByte(b))
  {
    AffineUndone(Inverse(b));
    UnaffineUndone(b);
    InverseTwice(b);
    InverseTwice(Unaffine(b));
    hide Inverse;
    hide Affine;
    hide Unaffine;
  }

  /** A table that holds the substitution at every byte's place. */
  ghost predicate IsSbox(table: seq<bv8>) {
    |table| == 256 && forall b: bv8 {:trigger SubByte(b)} {:trigger Index(b)} :: table[Index(b)] == SubByte(b)
  }

  ghost predicate IsInvSbox(table: seq<bv8>) {
    |table| == 256 && forall v: bv8 {:trigger InvSubByte(v)} {:trigger Index(v)} :: table[Index(v)] == InvSubByte(v)
  }

  /** The entries of the first `k` bytes of the walk are in place. */
  ghost predicate FilledTo(table: seq<bv8>, k: nat) {
    |table| == 256 && forall j {:trigger Pow(j)} :: 1 <= j <= k ==> table[Index(Pow(j))] == SubByte(Pow(j))
  }

  lemma FilledNext(table: seq<bv8>, k: nat, v: bv8)
    requires FilledTo(table, k) && v == SubByte(Pow(k + 1))
    ensures FilledTo(table[Index(Pow(k + 1)) := v], k + 1)
  {
    hide Pow;
    hide Index;
    hide SubByte;
    var next := table[Index(Pow(k + 1)) := v];
    forall j | 1 <= j <= k + 1 ensures next[Index(Pow(j))] == SubByte(Pow(j)) {
      if Index(Pow(j)) == Index(Pow(k + 1)) {
        SameByte(Pow(j), Pow(k + 1));
      }
    }
  }

  lemma FilledNothing(table: seq<bv8>)
    requires |table| == 256
    ensures FilledTo(table, 0)
  {
  }

  /** A whole walk and the entry of 0 make the box. */
  lemma FilledAll(table: seq<bv8>)
    requires FilledTo(table, 255)
    ensures IsSbox(table[0 := 0x63])
  {
    hide Pow;
    hide SubByte;
    var box := table[0 := 0x63];
    forall b: bv8 ensures box[Index(b)] == SubByte(b) {
      IndexOfNone(b);
      if b == 0 {
        SubNone();
      } else {
        var k := Log(b);
        PowFull(k);
        assert Pow(if k == 0 then 255 else k) == b;
      }
    }
  }

  lemma IndexOfNone(b: bv8)
    ensures Index(b) == 0 <==> b == 0
  {
    if b != 0 {
      NotZero(b);
    }
  }

  lemma SubNone()
    ensures SubByte(0) == 0x63
  {
    InverseOfNone();
    hide Inverse;
    assert Affine(0) == 0x63;
  }

  lemma PowFull(k: nat)
    ensures Pow(if k == 0 then 255 else k) == Pow(k)
  {
    PowLandmarks();
    PowNone();
    hide Pow;
  }

  /** The second table, as far as the first `i` entries of the first one. */
  ghost predicate InvertedTo(inv: seq<bv8>, i: nat) {
    |inv| == 256 &&
    forall v: bv8 {:trigger InvSubByte(v)} :: Index(InvSubByte(v)) < i ==> inv[Index(v)] == InvSubByte(v)
  }

  lemma InvertedNext(inv: seq<bv8>, i: nat, b: bv8)
    requires InvertedTo(inv, i) && Index(b) == i
    ensures InvertedTo(inv[Index(SubByte(b)) := b], i + 1)
  {
    hide SubByte;
    hide InvSubByte;
    hide Index;
    var next := inv[Index(SubByte(b)) := b];
    forall v: bv8 | Index(InvSubByte(v)) < i + 1 ensures next[Index(v)] == InvSubByte(v) {
      SubByteInverse(v);
      SubByteInverse(b);
      if Index(InvSubByte(v)) == i {
        SameByte(InvSubByte(v), b);
      } else if Index(v) == Index(SubByte(b)) {
        SameByte(v, SubByte(b));
      }
    }
  }

  lemma InvertedAll(inv: seq<bv8>)
    requires InvertedTo(inv, 256)
    ensures IsInvSbox(inv)
  {
    hide InvSubByte;
    hide Index;
  }

  lemma Byte(i: nat)
    requires i < 256
    ensures Index(i as bv8) == i
  {
  }

  /** The loop's own form of the entry. */
  lemma EntryIs(k: nat)
    requires k <= 255
    ensures Affine(Pow(255 - k)) == SubByte(Pow(k))
  {
    InverseOfPow(k);
    hide Pow;
    hide Inverse;
    hide Affine;
  }

  /** The two walks, one up and one down. */
  lemma WalkOn(k: nat)
    requires k < 255
    ensures Step(Pow(k)) == Pow(k + 1) && Back(Pow(255 - k)) == Pow(255 - (k + 1))
  {
    hide Step;
    hide Back;
    PowUndo(255 - k);
  }

  /** `_init_sbox`: the walk ends, and the tables it leaves are the substitution and its inverse. */
  method InitSbox() returns (sbox: array<bv8>, inv: array<bv8>)
    ensures fresh(sbox) && fresh(inv) && IsSbox(sbox[..]) && IsInvSbox(inv[..])
  {
    hide *;
    sbox := FillSbox();
    inv := InvertSbox(sbox);
  }

  method FillSbox() returns (sbox: array<bv8>)
    ensures fresh(sbox) && sbox.Length == 256 && IsSbox(sbox[..])
  {
    hide *;
    var p: bv8, q: bv8 := 1, 1;
    sbox := new bv8[256](_ => 0);
    ghost var k := 0;
    PowNone();
    PowLandmarks();
    FilledNothing(sbox[..]);
    while true
      invariant fresh(sbox) && sbox.Length == 256
      invariant 0 <= k < 255 && p == Pow(k) && q == Pow(255 - k)
      invariant FilledTo(sbox[..], k)
      decreases 255 - k
    {
      WalkOn(k);
      p := Step(p);
      q := Back(q);
      EntryIs(k + 1);
      FilledNext(sbox[..], k, Affine(q));
      sbox[Index(p)] := Affine(q);
      k := k + 1;
      if p == 1 {
        if k < 255 {
          NoEarlyReturn(k);
        }
        break;
      }
    }
    FilledAll(sbox[..]);
    sbox[0] := 0x63;
  }

  method InvertSbox(sbox: array<bv8>) returns (inv: array<bv8>)
    requires sbox.Length == 256 && IsSbox(sbox[..])
    ensures fresh(inv) && inv.Length == 256 && IsInvSbox(inv[..])
  {
    hide *;
    inv := new bv8[256](_ => 0);
    InvertedNothing(inv[..]);
    for i := 0 to 256
      invariant InvertedTo(inv[..], i) && inv.Length == 256
    {
      Byte(i);
      SboxAt(sbox[..], i as bv8);
      InvertedNext(inv[..], i, i as bv8);
      inv[Index(sbox[i])] := i as bv8;
    }
    InvertedAll(inv[..]);
  }

  lemma InvertedNothing(inv: seq<bv8>)
    requires |inv| == 256
    ensures InvertedTo(inv, 0)
  {
  }

  lemma SboxAt(table: seq<bv8>, b: bv8)
    requires IsSbox(table)
    ensures |table| == 256 && table[Index(b)] == SubByte(b)
  {
  }
}
