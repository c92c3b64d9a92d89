/** The AES object of aes.py and the CFB mode on top of it (section 6.3 of NIST SP 800-38A, section
    3.1 of RFC 3826). */
module AesModes {
  import opened Common
  import opened AesField
  import opened AesSbox
  import opened AesRounds
  import opened AesCipher
  import opened AesCfb

  // ---- Blocks ----

  /** The first sixteen bytes, column by column. */
  function ToGrid(b: seq<bv8>): Grid
    requires |b| >= 16
  {
    Grid(WordAt(b, 0), WordAt(b, 1), WordAt(b, 2), WordAt(b, 3))
  }

  function ToBytes(g: Grid): (b: seq<bv8>)
    ensures |b| == 16
  {
    Listed(g.c0) + Listed(g.c1) + Listed(g.c2) + Listed(g.c3)
  }

  lemma BlockOfBytes(b: seq<bv8>)
    requires |b| == 16
    ensures ToBytes(ToGrid(b)) == b
  {
    assert Listed(WordAt(b, 0)) == b[..4] && Listed(WordAt(b, 1)) == b[4..8];
    assert Listed(WordAt(b, 2)) == b[8..12] && Listed(WordAt(b, 3)) == b[12..];
  }

  lemma BytesOfBlock(g: Grid)
    ensures ToGrid(ToBytes(g)) == g
  {
  }

  ghost function EncryptBlock(key: seq<bv8>, block: seq<bv8>): (r: seq<bv8>)
    requires KeySize(|key|) && |block| == 16
    ensures |r| == 16
  {
    ToBytes(Encrypt(Schedule(key), KeyRounds(|key|), ToGrid(block)))
  }

  ghost function DecryptBlock(key: seq<bv8>, block: seq<bv8>): (r: seq<bv8>)
    requires KeySize(|key|) && |block| >= 16
    ensures |r| == 16
  {
    ToBytes(Decrypt(Schedule(key), KeyRounds(|key|), ToGrid(block)))
  }

  /** For every key and block: each operation undoes the other. */
  lemma BlockRoundTrip(key: seq<bv8>, block: seq<bv8>)
    requires KeySize(|key|) && |block| == 16
    ensures DecryptBlock(key, EncryptBlock(key, block)) == block
    ensures EncryptBlock(key, DecryptBlock(key, block)) == block
  {
    hide Encrypt;
    hide Decrypt;
    hide Schedule;
    hide KeyRounds;
    hide ToGrid;
    hide ToBytes;
    hide Scheduled;
    CipherInverse(Schedule(key), KeyRounds(|key|), ToGrid(block));
    BlockOfBytes(block);
    BytesOfBlock(Encrypt(Schedule(key), KeyRounds(|key|), ToGrid(block)));
    BytesOfBlock(Decrypt(Schedule(key), KeyRounds(|key|), ToGrid(block)));
  }

  // ---- The object ----

  class Aes {
    const w: seq<Word>
    const nr: nat
    const sbox: array<bv8>
    const invSbox: array<bv8>

    /** The tables are in place and the schedule is the one of `key`. */
    ghost predicate Valid(key: seq<bv8>)
      reads sbox, invSbox
    {
      && KeySize(|key|) && nr == KeyRounds(|key|) && w == Schedule(key)
      && sbox.Length == 256 && invSbox.Length == 256 && IsSbox(sbox[..]) && IsInvSbox(invSbox[..])
    }

    constructor (key: seq<bv8>, words: seq<Word>, rounds: nat, box: array<bv8>, invBox: array<bv8>)
      requires KeySize(|key|) && rounds == KeyRounds(|key|) && words == Schedule(key)
      requires box.Length == 256 && invBox.Length == 256 && IsSbox(box[..]) && IsInvSbox(invBox[..])
      ensures Valid(key) && sbox == box && invSbox == invBox
    {
      hide *;
      w, nr, sbox, invSbox := words, rounds, box, invBox;
      new;
      ValidIs(this, key);
    }

    /** `encrypt_block`: raises unless the block has sixteen bytes. */
    method Encipher(ghost key: seq<bv8>, block: seq<bv8>) returns (r: Option<seq<bv8>>)
      requires Valid(key)
      ensures r == if |block| == 16 then Some(EncryptBlock(key, block)) else None
    {
      hide *;
      if |block| != 16 {
        return None;
      }
      ValidGives(this, key);
      ghost var start := ToGrid(block);
      Ends(w, nr, start);
      var state := new Word[4];
      Load(state, block);
      AddRoundKey(state, w, 0);
      for rnd := 1 to nr
        invariant GridOf(state) == Forward(w, start, rnd - 1)
        invariant sbox[..] == old(sbox[..]) && invSbox[..] == old(invSbox[..])
      {
        LookupAllIsSub(sbox[..], GridOf(state));
        SubstituteBytes(state, sbox);
        ShiftRowsLeft(state);
        MixAllColumns(state);
        AddRoundKey(state, w, rnd);
        ForwardNext(w, start, rnd - 1);
      }
      LookupAllIsSub(sbox[..], GridOf(state));
      SubstituteBytes(state, sbox);
      ShiftRowsLeft(state);
      AddRoundKey(state, w, nr);
      var out := Unload(state);
      EncryptBlockIs(key, block);
      return Some(out);
    }

    /** `decrypt_block`: raises when bytes are missing, and takes the first sixteen. */
    method Decipher(ghost key: seq<bv8>, block: seq<bv8>) returns (r: Option<seq<bv8>>)
      requires Valid(key)
      ensures r == if |block| >= 16 then Some(DecryptBlock(key, block)) else None
    {
      hide *;
      if |block| < 16 {
        return None;
      }
      ValidGives(this, key);
      ghost var start := ToGrid(block);
      Ends(w, nr, start);
      var state := new Word[4];
      Load(state, block);
      AddRoundKey(state, w, nr);
      for rnd := nr downto 1
        invariant 1 <= rnd && GridOf(state) == Backward(w, nr, start, rnd - 1)
        invariant sbox[..] == old(sbox[..]) && invSbox[..] == old(invSbox[..])
      {
        ShiftRowsRight(state);
        LookupAllIsInvSub(invSbox[..], GridOf(state));
        SubstituteBytes(state, invSbox);
        AddRoundKey(state, w, rnd);
        UnmixAllColumns(state);
        BackwardNext(w, nr, start, rnd - 1);
      }
      ShiftRowsRight(state);
      LookupAllIsInvSub(invSbox[..], GridOf(state));
      SubstituteBytes(state, invSbox);
      AddRoundKey(state, w, 0);
      var out := Unload(state);
      DecryptBlockIs(key, block);
      return Some(out);
    }
  }

  lemma ValidIs(aes: Aes, key: seq<bv8>)
    requires KeySize(|key|) && aes.nr == KeyRounds(|key|) && aes.w == Schedule(key)
    requires aes.sbox.Length == 256 && aes.invSbox.Length == 256
    requires IsSbox(aes.sbox[..]) && IsInvSbox(aes.invSbox[..])
    ensures aes.Valid(key)
  {
    hide IsSbox;
    hide IsInvSbox;
    hide Schedule;
  }

  lemma ValidGives(aes: Aes, key: seq<bv8>)
    requires aes.Valid(key)
    ensures KeySize(|key|) && aes.nr == KeyRounds(|key|) && aes.w == Schedule(key)
    ensures Scheduled(aes.w, aes.nr) && |aes.w| == 4 * (aes.nr + 1) && aes.nr > 0
    ensures aes.sbox.Length == 256 && aes.invSbox.Length == 256
    ensures IsSbox(aes.sbox[..]) && IsInvSbox(aes.invSbox[..])
  {
    hide IsSbox;
    hide IsInvSbox;
    hide Schedule;
  }

  lemma EncryptBlockIs(key: seq<bv8>, block: seq<bv8>)
    requires KeySize(|key|) && |block| == 16
    ensures EncryptBlock(key, block) == ToBytes(Encrypt(Schedule(key), KeyRounds(|key|), ToGrid(block)))
  {
    hide Encrypt;
    hide Schedule;
    hide ToGrid;
    hide ToBytes;
  }

  lemma DecryptBlockIs(key: seq<bv8>, block: seq<bv8>)
    requires KeySize(|key|) && |block| >= 16
    ensures DecryptBlock(key, block) == ToBytes(Decrypt(Schedule(key), KeyRounds(|key|), ToGrid(block)))
  {
    hide Decrypt;
    hide Schedule;
    hide ToGrid;
    hide ToBytes;
  }

  lemma LookupAllIsSub(box: seq<bv8>, s: Grid)
    requires IsSbox(box)
    ensures |box| == 256 && LookupAll(box, s) == SubBytes(s)
  {
    hide Lookup;
    hide SubWord;
    hide IsSbox;
    LookupIsSub(box, s.c0);
    LookupIsSub(box, s.c1);
    LookupIsSub(box, s.c2);
    LookupIsSub(box, s.c3);
  }

  lemma LookupAllIsInvSub(box: seq<bv8>, s: Grid)
    requires IsInvSbox(box)
    ensures |box| == 256 && LookupAll(box, s) == InvSubBytes(s)
  {
    hide Lookup;
    hide InvSubWord;
    hide IsInvSbox;
    LookupIsInvSub(box, s.c0);
    LookupIsInvSub(box, s.c1);
    LookupIsInvSub(box, s.c2);
    LookupIsInvSub(box, s.c3);
  }

  /** Every fourth byte from `r` on. */
  function RowAt(b: seq<bv8>, r: nat): Word
    requires r < 4 && |b| >= 16
  {
    Word(b[r], b[r + 4], b[r + 8], b[r + 12])
  }

  lemma RowsMakeGrid(b: seq<bv8>, rows: seq<Word>)
    requires |b| >= 16 && |rows| == 4
    requires rows[0] == RowAt(b, 0) && rows[1] == RowAt(b, 1) && rows[2] == RowAt(b, 2) && rows[3] == RowAt(b, 3)
    ensures FromRows(rows) == ToGrid(b)
  {
  }

  /** `_bytes_to_state` */
  method Load(state: array<Word>, b: seq<bv8>)
    requires state.Length == 4 && |b| >= 16
    modifies state
    ensures GridOf(state) == ToGrid(b)
  {
    hide RowAt;
    hide FromRows;
    hide ToGrid;
    for r := 0 to 4
      invariant forall j :: 0 <= j < r ==> state[j] == RowAt(b, j)
    {
      state[r] := RowAt(b, r);
    }
    RowsMakeGrid(b, state[..]);
  }

  /** `_state_to_bytes` */
  method Unload(state: array<Word>) returns (b: seq<bv8>)
    requires state.Length == 4
    ensures b == ToBytes(GridOf(state))
  {
    b := [];
    for c := 0 to 4
      invariant c <= 4
      invariant b == (if c > 0 then Listed(GridOf(state).c0) else []) + (if c > 1 then Listed(GridOf(state).c1) else [])
                     + (if c > 2 then Listed(GridOf(state).c2) else []) +
                       (if c > 3 then Listed(GridOf(state).c3) else [])
    {
      hide FromRows;
      var column := ReadColumn(state, c);
      b := b + Listed(column);
    }
  }

  /** `AES(key)`: raises for any other key length. */
  method NewAes(key: seq<bv8>, sbox: array<bv8>, invSbox: array<bv8>) returns (r: Option<Aes>)
    requires sbox.Length == 256 && invSbox.Length == 256 && IsSbox(sbox[..]) && IsInvSbox(invSbox[..])
    ensures r.Some? <==> KeySize(|key|)
    ensures r.Some? ==> fresh(r.value) && r.value.Valid(key) && r.value.sbox == sbox && r.value.invSbox == invSbox
  {
    hide IsSbox;
    hide IsInvSbox;
    hide Schedule;
    hide KeyRounds;
    if !KeySize(|key|) {
      return None;
    }
    var w, nr := KeyExpansion(key, sbox);
    var aes := new Aes(key, w, nr, sbox, invSbox);
    return Some(aes);
  }

  // ---- CFB ----

  /** The block function of a key. */
  ghost function Enciphering(key: seq<bv8>): Block -> Block
    requires KeySize(|key|)
  {
    (b: Block) => EncryptBlock(key, b)
  }

  /** Decryption undoes encryption for every key, vector and message. */
  lemma Cfb128RoundTrip(key: seq<bv8>, iv: Block, data: seq<bv8>)
    requires KeySize(|key|)
    ensures Cfb(Enciphering(key), iv, Cfb(Enciphering(key), iv, data, false), true) == data
  {
    hide *;
    CfbRoundTrip(Enciphering(key), iv, data, false);
  }

  /** One pass over the message, in either direction. */
  method RunCfb(aes: Aes, ghost key: seq<bv8>, iv: Block, data: seq<bv8>, decrypting: bool) returns (out: seq<bv8>)
    requires aes.Valid(key) && KeySize(|key|)
    ensures out == Cfb(Enciphering(key), iv, data, decrypting)
  {
    hide *;
    ghost var e := Enciphering(key);
    var prev := iv;
    var i := 0;
    out := [];
    CfbStarts(e, iv, data, decrypting);
    while i < |data|
      invariant i <= |data| && CfbAt(e, iv, data, decrypting, i, prev, out)
    {
      var chunk := data[i..i + ChunkSize(|data| - i)];
      var keystream := aes.Encipher(key, prev);
      EncipheringIs(key, prev);
      var image := Xor(chunk, keystream.value);
      CfbGoesOn(e, iv, data, decrypting, i, prev, out, chunk, image);
      out := out + image;
      prev := Feedback(keystream.value, Cipher(chunk, image, decrypting));
      i := i + |chunk|;
    }
    CfbEnds(e, iv, data, decrypting, prev, out);
  }

  lemma EncipheringIs(key: seq<bv8>, b: Block)
    requires KeySize(|key|)
    ensures Enciphering(key)(b) == EncryptBlock(key, b)
  {
    hide EncryptBlock;
  }

  /** `cfb128_encrypt` and `cfb128_decrypt`: they raise for a key of another length, and for a vector of
      another length unless the message is empty. */
  method Cfb128(key: seq<bv8>, iv: seq<bv8>, data: seq<bv8>, decrypting: bool, sbox: array<bv8>, invSbox: array<bv8>)
    returns (r: Option<seq<bv8>>)
    requires sbox.Length == 256 && invSbox.Length == 256 && IsSbox(sbox[..]) && IsInvSbox(invSbox[..])
    ensures r == if !KeySize(|key|) then None
                 else if data == [] then Some([])
                 else if |iv| != 16 then None
                 else Some(Cfb(Enciphering(key), iv, data, decrypting))
  {
    hide *;
    var aes := NewAes(key, sbox, invSbox);
    if aes.None? {
      return None;
    }
    if data == [] {
      return Some([]);
    }
    if |iv| != 16 {
      return None;
    }
    var out := RunCfb(aes.value, key, iv, data, decrypting);
    return Some(out);
  }
}
