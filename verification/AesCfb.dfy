/** CFB with full-block feedback (section 6.3 of NIST SP 800-38A, section 3.1 of RFC 3826), over any
    block function. */
module AesCfb {
  import opened AesField

  type Block = b: seq<bv8> | |b| == 16 witness seq(16, _ => 0)

  /** Byte by byte, over the first sequence. */
  function Xor(a: seq<bv8>, b: seq<bv8>): (r: seq<bv8>)
    requires |a| <= |b|
    ensures |r| == |a|
  {
    seq(|a|, i requires 0 <= i < |a| => Add(a[i], b[i]))
  }

  lemma XorAgain(a: seq<bv8>, b: seq<bv8>)
    requires |a| <= |b|
    ensures Xor(Xor(a, b), b) == a
  {
    hide Add;
    forall i | 0 <= i < |a| ensures Xor(Xor(a, b), b)[i] == a[i] {
      AddTwice(a[i], b[i]);
    }
  }

  function ChunkSize(n: nat): (r: nat)
    ensures r <= n && r <= 16 && (n > 0 ==> r > 0)
  {
    if n < 16 then n else 16
  }

  /** What the next chunk's keystream is made from: the ciphertext chunk, filled up to a block. */
  function Feedback(keystream: Block, chunk: seq<bv8>): Block
    requires |chunk| <= 16
  {
    chunk + keystream[|chunk|..]
  }

  /** The ciphertext side of a chunk and its image. */
  function Cipher(chunk: seq<bv8>, image: seq<bv8>, decrypting: bool): (c: seq<bv8>)
    ensures |chunk| == |image| ==> |c| == |chunk|
  {
    if decrypting then chunk else image
  }

  /** Each chunk is added to the encryption of the ciphertext before it. */
  function Cfb(e: Block -> Block, prev: Block, data: seq<bv8>, decrypting: bool): (r: seq<bv8>)
    ensures |r| == |data|
    decreases |data|
  {
    if data == [] then []
    else
      var n := ChunkSize(|data|);
      var image := Xor(data[..n], e(prev));
      image + Cfb(e, Feedback(e(prev), Cipher(data[..n], image, decrypting)), data[n..], decrypting)
  }

  lemma CfbUnfold(e: Block -> Block, prev: Block, data: seq<bv8>, decrypting: bool)
    requires data != []
    ensures var n := ChunkSize(|data|);
            var image := Xor(data[..n], e(prev));
            Cfb(e, prev, data, decrypting) ==
            image + Cfb(e, Feedback(e(prev), Cipher(data[..n], image, decrypting)), data[n..], decrypting)
  {
    hide Xor;
    hide Feedback;
    hide Cipher;
    hide ChunkSize;
  }

  lemma CfbNothing(e: Block -> Block, prev: Block, decrypting: bool)
    ensures Cfb(e, prev, [], decrypting) == []
  {
  }

  /** Each direction undoes the other, for every block function and data of every length. */
  lemma {:induction false} CfbRoundTrip(e: Block -> Block, iv: Block, data: seq<bv8>, decrypting: bool)
    ensures Cfb(e, iv, Cfb(e, iv, data, decrypting), !decrypting) == data
    decreases |data|
  {
    hide *;
    if data == [] {
      CfbNothing(e, iv, decrypting);
      CfbNothing(e, iv, !decrypting);
    } else {
      var n := ChunkSize(|data|);
      var chunk := data[..n];
      var image := Xor(chunk, e(iv));
      SameCipher(chunk, image, decrypting);
      var next := Feedback(e(iv), Cipher(chunk, image, decrypting));
      var rest := Cfb(e, next, data[n..], decrypting);
      CfbUnfold(e, iv, data, decrypting);
      Halves(image, rest);
      CfbUnfold(e, iv, image + rest, !decrypting);
      XorAgain(chunk, e(iv));
      CfbRoundTrip(e, next, data[n..], decrypting);
      SplitAt(data, n);
    }
  }

  /** Both directions feed back the same side. */
  lemma SameCipher(chunk: seq<bv8>, image: seq<bv8>, decrypting: bool)
    ensures Cipher(chunk, image, decrypting) == Cipher(image, chunk, !decrypting)
  {
  }

  lemma Halves(a: seq<bv8>, b: seq<bv8>)
    ensures (a + b)[..|a|] == a && (a + b)[|a|..] == b
  {
  }

  lemma SplitAt(s: seq<bv8>, n: nat)
    requires n <= |s|
    ensures s[..n] + s[n..] == s
  {
  }

  /** The chunk that starts at `16 * i`. */
  function Chunk(s: seq<bv8>, i: nat): (c: seq<bv8>)
    requires 16 * i < |s|
    ensures |c| <= 16 && (16 * i + 16 <= |s| ==> |c| == 16)
  {
    s[16 * i..16 * i + ChunkSize(|s| - 16 * i)]
  }

  /** What chunk `i` of a message is added to: the encryption of the ciphertext chunk before it, or of
      the initial vector. */
  function Keystream(e: Block -> Block, iv: Block, cipher: seq<bv8>, i: nat): Block
    requires 16 * i < |cipher|
  {
    if i == 0 then e(iv) else e(Chunk(cipher, i - 1))
  }

  /** Chunk by chunk: no other byte of the message enters, so a damaged ciphertext chunk spoils its own
      plaintext and the next, and nothing else. */
  lemma {:induction false} CfbChunk(e: Block -> Block, iv: Block, data: seq<bv8>, decrypting: bool, i: nat)
    requires 16 * i < |data|
    ensures var out := Cfb(e, iv, data, decrypting);
            Chunk(out, i) == Xor(Chunk(data, i), Keystream(e, iv, Cipher(data, out, decrypting), i))
    decreases i
  {
    hide Cfb;
    hide Xor;
    hide Chunk;
    var n := ChunkSize(|data|);
    var image := Xor(data[..n], e(iv));
    var c := Cipher(data[..n], image, decrypting);
    var next := Feedback(e(iv), c);
    var rest := Cfb(e, next, data[n..], decrypting);
    var out := Cfb(e, iv, data, decrypting);
    var cipher := Cipher(data, out, decrypting);
    CfbUnfold(e, iv, data, decrypting);
    Halves(image, rest);
    FirstChunk(data);
    FirstChunk(out);
    if i > 0 {
      CfbChunk(e, next, data[n..], decrypting, i - 1);
      LaterChunk(data, i);
      LaterChunk(out, i);
      assert next == c == Chunk(cipher, 0);
      assert cipher[16..] == Cipher(data[n..], rest, decrypting);
      if i > 1 {
        LaterChunk(cipher, i - 1);
      }
    }
  }

  lemma FirstChunk(s: seq<bv8>)
    requires s != []
    ensures Chunk(s, 0) == s[..ChunkSize(|s|)]
  {
  }

  lemma LaterChunk(s: seq<bv8>, i: nat)
    requires i > 0 && 16 * i < |s|
    ensures Chunk(s, i) == Chunk(s[16..], i - 1)
  {
  }

  // ---- The loop ----

  /** What is written, and what the rest will add, make the whole. */
  predicate CfbAt(e: Block -> Block, iv: Block, data: seq<bv8>, decrypting: bool, i: nat, prev: Block, out: seq<bv8>)
    requires i <= |data|
  {
    out + Cfb(e, prev, data[i..], decrypting) == Cfb(e, iv, data, decrypting)
  }

  lemma CfbStarts(e: Block -> Block, iv: Block, data: seq<bv8>, decrypting: bool)
    ensures CfbAt(e, iv, data, decrypting, 0, iv, [])
  {
    hide Cfb;
    assert data[0..] == data;
    assert [] + Cfb(e, iv, data, decrypting) == Cfb(e, iv, data, decrypting);
  }

  lemma CfbEnds(e: Block -> Block, iv: Block, data: seq<bv8>, decrypting: bool, prev: Block, out: seq<bv8>)
    requires CfbAt(e, iv, data, decrypting, |data|, prev, out)
    ensures out == Cfb(e, iv, data, decrypting)
  {
    CfbNothing(e, prev, decrypting);
    hide Cfb;
    assert data[|data|..] == [];
  }

  lemma CfbGoesOn(e: Block -> Block, iv: Block, data: seq<bv8>, decrypting: bool, i: nat, prev: Block, out: seq<bv8>,
                  chunk: seq<bv8>, image: seq<bv8>)
    requires i < |data| && chunk == data[i..i + ChunkSize(|data| - i)] && image == Xor(chunk, e(prev))
    requires CfbAt(e, iv, data, decrypting, i, prev, out)
    ensures CfbAt(e, iv, data, decrypting, i + |chunk|, Feedback(e(prev), Cipher(chunk, image, decrypting)),
                  out + image)
  {
    hide Cfb;
    hide Xor;
    hide Feedback;
    hide Cipher;
    var n := |chunk|;
    CfbUnfold(e, prev, data[i..], decrypting);
    assert data[i..][..n] == chunk && data[i..][n..] == data[i + n..];
    InLine(out, image, Cfb(e, Feedback(e(prev), Cipher(chunk, image, decrypting)), data[i + n..], decrypting));
  }

  lemma InLine(a: seq<bv8>, b: seq<bv8>, c: seq<bv8>)
    ensures a + (b + c) == a + b + c
  {
  }
}
