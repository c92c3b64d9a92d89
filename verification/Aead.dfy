/** The authenticated encryption of aead.py: ChaCha20 with Poly1305 (section 2.8 of RFC 8439). */
module Aead {
  import opened Common
  import opened ChaCha
  import opened Poly1305

  // ---- What is authenticated ----

  /** `_pad16` */
  function Pad16(n: nat): (p: seq<bv8>)
    ensures (n + |p|) % 16 == 0 && |p| < 16
  {
    seq((16 - n % 16) % 16, _ => 0)
  }

  /** `struct.pack("<Q", n)` raises from here on. */
  const TWO64: nat := 0x1_00000000_00000000

  function MacData(aad: seq<bv8>, cipher: seq<bv8>): seq<bv8> {
    aad + Pad16(|aad|) + cipher + Pad16(|cipher|) + ToLE(|aad|, 8) + ToLE(|cipher|, 8)
  }

  lemma TWO64Is()
    ensures Power(256, 8) == TWO64
  {
    assert Power(256, 4) == 0x1_00000000;
    PowerSum(256, 4, 4);
  }

  lemma Tails(a: seq<bv8>, p: seq<bv8>, c: seq<bv8>, q: seq<bv8>, m: seq<bv8>, n: seq<bv8>)
    requires |m| == 8 && |n| == 8
    ensures var s := a + p + c + q + m + n;
            && |s| == |a| + |p| + |c| + |q| + 16
            && s[|s| - 8..] == n && s[|s| - 16..|s| - 8] == m
            && s[..|a|] == a && s[|a| + |p|..|a| + |p| + |c|] == c
  {
  }

  /** No two pairs of associated data and ciphertext are authenticated by the same bytes. */
  lemma MacDataInjective(aad1: seq<bv8>, cipher1: seq<bv8>, aad2: seq<bv8>, cipher2: seq<bv8>)
    requires |aad1| < TWO64 && |aad2| < TWO64 && |cipher1| < TWO64 && |cipher2| < TWO64
    requires MacData(aad1, cipher1) == MacData(aad2, cipher2)
    ensures aad1 == aad2 && cipher1 == cipher2
  {
    hide Pad16;
    hide ToLE;
    hide Power;
    TWO64Is();
    Tails(aad1, Pad16(|aad1|), cipher1, Pad16(|cipher1|), ToLE(|aad1|, 8), ToLE(|cipher1|, 8));
    Tails(aad2, Pad16(|aad2|), cipher2, Pad16(|cipher2|), ToLE(|aad2|, 8), ToLE(|cipher2|, 8));
    LEInjective(|aad1|, |aad2|, 8);
    LEInjective(|cipher1|, |cipher2|, 8);
  }

  // ---- Sealing and opening ----

  datatype Sealed = Failed | Done(bytes: seq<bv8>)

  function OneTimeKey(key: seq<bv8>, nonce: seq<bv8>): (k: seq<bv8>)
    requires |key| == 32 && |nonce| == 12
    ensures |k| == 32
  {
    BlockOf(key, 0, nonce)[..32]
  }

  function TagOf(key: seq<bv8>, nonce: seq<bv8>, aad: seq<bv8>, cipher: seq<bv8>): (t: seq<bv8>)
    requires |key| == 32 && |nonce| == 12
    ensures |t| == 16
  {
    Tag(MacData(aad, cipher), OneTimeKey(key, nonce))
  }

  /** `encrypt` */
  function Seal(key: seq<bv8>, nonce: seq<bv8>, plain: seq<bv8>, aad: seq<bv8>): Sealed {
    if |key| != 32 || |nonce| != 12 || |aad| >= TWO64 || |plain| >= TWO64 then Failed
    else
      var cipher := Stream(key, 1, nonce, plain);
      Done(cipher + TagOf(key, nonce, aad, cipher))
  }

  /** `decrypt` */
  function Open(key: seq<bv8>, nonce: seq<bv8>, box: seq<bv8>, aad: seq<bv8>): Sealed {
    if |key| != 32 || |nonce| != 12 || |box| < 16 || |aad| >= TWO64 || |box| - 16 >= TWO64 then Failed
    else
      var cipher, tag := box[..|box| - 16], box[|box| - 16..];
      if TagOf(key, nonce, aad, cipher) != tag then Failed
      else Done(Stream(key, 1, nonce, cipher))
  }

  /** A box opens to a text exactly when sealing that text gives the box: everything sealed can be
      opened, and nothing else can. */
  lemma OpensIffSealed(key: seq<bv8>, nonce: seq<bv8>, plain: seq<bv8>, aad: seq<bv8>, box: seq<bv8>)
    ensures Open(key, nonce, box, aad) == Done(plain) <==> Seal(key, nonce, plain, aad) == Done(box)
  {
    hide Stream;
    hide TagOf;
    if |key| == 32 && |nonce| == 12 {
      StreamTwice(key, 1, nonce, plain);
      var cipher := Stream(key, 1, nonce, plain);
      var sealed := cipher + TagOf(key, nonce, aad, cipher);
      assert sealed[..|sealed| - 16] == cipher && sealed[|sealed| - 16..] == TagOf(key, nonce, aad, cipher);
      if |box| >= 16 {
        var inner := box[..|box| - 16];
        StreamTwice(key, 1, nonce, inner);
        assert box == inner + box[|box| - 16..];
      }
    }
  }

  /** Whatever can be sealed comes back, sixteen bytes shorter. */
  lemma SealedOpens(key: seq<bv8>, nonce: seq<bv8>, plain: seq<bv8>, aad: seq<bv8>)
    requires |key| == 32 && |nonce| == 12 && |aad| < TWO64 && |plain| < TWO64
    ensures var sealed := Seal(key, nonce, plain, aad);
            sealed.Done? && |sealed.bytes| == |plain| + 16 && Open(key, nonce, sealed.bytes, aad) == Done(plain)
  {
    hide Stream;
    hide TagOf;
    var sealed := Seal(key, nonce, plain, aad);
    hide Open;
    OpensIffSealed(key, nonce, plain, aad, sealed.bytes);
  }

  /** For a ciphertext and its associated data one tag is accepted, and no other. */
  lemma OneTagOpens(key: seq<bv8>, nonce: seq<bv8>, cipher: seq<bv8>, aad: seq<bv8>, tag: seq<bv8>)
    requires |key| == 32 && |nonce| == 12 && |tag| == 16 && |aad| < TWO64 && |cipher| < TWO64
    ensures Open(key, nonce, cipher + tag, aad).Done? <==> tag == TagOf(key, nonce, aad, cipher)
  {
    hide Stream;
    hide TagOf;
    var box := cipher + tag;
    assert box[..|box| - 16] == cipher && box[|box| - 16..] == tag;
  }

  // ---- The program ----

  method MacBytes(aad: seq<bv8>, cipher: seq<bv8>) returns (data: Option<seq<bv8>>)
    ensures data == if |aad| < TWO64 && |cipher| < TWO64 then Some(MacData(aad, cipher)) else None
  {
    hide ToLE;
    hide Pad16;
    if |aad| >= TWO64 || |cipher| >= TWO64 {
      return None;
    }
    return Some(aad + Pad16(|aad|) + cipher + Pad16(|cipher|) + ToLE(|aad|, 8) + ToLE(|cipher|, 8));
  }

  method ExpectedTag(key: seq<bv8>, nonce: seq<bv8>, aad: seq<bv8>, cipher: seq<bv8>) returns (tag: Option<seq<bv8>>)
    requires |key| == 32 && |nonce| == 12
    ensures tag == if |aad| < TWO64 && |cipher| < TWO64 then Some(TagOf(key, nonce, aad, cipher)) else None
  {
    hide BlockOf;
    hide MacData;
    hide Tag;
    var block := ChaCha20Block(key, 0, nonce);
    var otk := block[..32];
    var data := MacBytes(aad, cipher);
    if data.None? {
      return None;
    }
    var t := Poly1305Mac(data.value, otk);
    return Some(t);
  }

  /** `encrypt`; `Failed` stands for the exceptions. */
  method Encrypt(key: seq<bv8>, nonce: seq<bv8>, plain: seq<bv8>, aad: seq<bv8>) returns (r: Sealed)
    ensures r == Seal(key, nonce, plain, aad)
  {
    hide Stream;
    hide TagOf;
    if |key| != 32 || |nonce| != 12 {
      return Failed;
    }
    var cipher := ChaCha20(key, 1, nonce, plain);
    var tag := ExpectedTag(key, nonce, aad, cipher);
    if tag.None? {
      return Failed;
    }
    return Done(cipher + tag.value);
  }

  /** `decrypt` */
  method Decrypt(key: seq<bv8>, nonce: seq<bv8>, box: seq<bv8>, aad: seq<bv8>) returns (r: Sealed)
    ensures r == Open(key, nonce, box, aad)
  {
    hide Stream;
    hide TagOf;
    if |key| != 32 || |nonce| != 12 || |box| < 16 {
      return Failed;
    }
    var cipher, tag := box[..|box| - 16], box[|box| - 16..];
    var expected := ExpectedTag(key, nonce, aad, cipher);
    if expected.None? || expected.value != tag {
      return Failed;
    }
    var plain := ChaCha20(key, 1, nonce, cipher);
    return Done(plain);
  }
}
