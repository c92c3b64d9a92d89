/** Known answers of RFC 8439 for the quarter round and the block function. */
module ChaChaVectors {
  import opened ChaCha

  /** Section 2.1.1. */
  lemma QuarterVector()
    ensures Quarter(Quad(0x11111111, 0x01020304, 0x9b8d6f43, 0x01234567)) ==
            Quad(0xea2a92f4, 0xcb1cf8ce, 0x4581472e, 0x5881c4bb)
  {
  }

  /** The matrix whose diagonals are four quads. */
  function Woven(d0: Quad, d1: Quad, d2: Quad, d3: Quad): Matrix {
    Matrix(Quad(d0.a, d1.a, d2.a, d3.a), Quad(d3.b, d0.b, d1.b, d2.b),
           Quad(d2.c, d3.c, d0.c, d1.c), Quad(d1.d, d2.d, d3.d, d0.d))
  }

  /** One more double round, by what the quarter rounds make of the four columns and the four diagonals. */
  lemma Turn(start: Matrix, k: nat, m: Matrix, c0: Quad, c1: Quad, c2: Quad, c3: Quad, d0: Quad, d1: Quad, d2: Quad,
             d3: Quad)
    requires Rounds(start, k) == m
    requires Quarter(Quad(m.r0.a, m.r1.a, m.r2.a, m.r3.a)) == c0 && Quarter(Quad(m.r0.b, m.r1.b, m.r2.b, m.r3.b)) == c1
    requires Quarter(Quad(m.r0.c, m.r1.c, m.r2.c, m.r3.c)) == c2 && Quarter(Quad(m.r0.d, m.r1.d, m.r2.d, m.r3.d)) == c3
    requires Quarter(Quad(c0.a, c1.b, c2.c, c3.d)) == d0 && Quarter(Quad(c1.a, c2.b, c3.c, c0.d)) == d1
    requires Quarter(Quad(c2.a, c3.b, c0.c, c1.d)) == d2 && Quarter(Quad(c3.a, c0.b, c1.c, c2.d)) == d3
    ensures Rounds(start, k + 1) == Woven(d0, d1, d2, d3)
  {
    hide Quarter;
  }

  /** The block from the start, the state after the rounds and their sum. */
  lemma BlockFrom(key: seq<bv8>, counter: nat, nonce: seq<bv8>, start: Matrix, last: Matrix)
    requires |key| == 32 && |nonce| == 12
    requires start == ToMatrix(Start(key, counter, nonce)) && last == Rounds(start, 10)
    ensures var sum := MatrixSum(last, start);
            BlockOf(key, counter, nonce) ==
            QuadBytes(sum.r0) + QuadBytes(sum.r1) + QuadBytes(sum.r2) + QuadBytes(sum.r3)
  {
    hide Start;
    hide Rounds;
    hide QuadBytes;
    hide MatrixSum;
  }

  const KEY: seq<bv8> :=
    [0x00, 0x01, 0x02, 0x03, 0x04, 0x05, 0x06, 0x07, 0x08, 0x09, 0x0a, 0x0b, 0x0c, 0x0d, 0x0e, 0x0f,
     0x10, 0x11, 0x12, 0x13, 0x14, 0x15, 0x16, 0x17, 0x18, 0x19, 0x1a, 0x1b, 0x1c, 0x1d, 0x1e, 0x1f]

  const SEAL_KEY: seq<bv8> :=
    [0x80, 0x81, 0x82, 0x83, 0x84, 0x85, 0x86, 0x87, 0x88, 0x89, 0x8a, 0x8b, 0x8c, 0x8d, 0x8e, 0x8f,
     0x90, 0x91, 0x92, 0x93, 0x94, 0x95, 0x96, 0x97, 0x98, 0x99, 0x9a, 0x9b, 0x9c, 0x9d, 0x9e, 0x9f]

  const NONCE: seq<bv8> := [0x00, 0x00, 0x00, 0x09, 0x00, 0x00, 0x00, 0x4a, 0x00, 0x00, 0x00, 0x00]

  const SEAL_NONCE: seq<bv8> := [0x07, 0x00, 0x00, 0x00, 0x40, 0x41, 0x42, 0x43, 0x44, 0x45, 0x46, 0x47]

  lemma KeyBytes()
    ensures FromBytes(0x00, 0x01, 0x02, 0x03) == 0x03020100 && FromBytes(0x04, 0x05, 0x06, 0x07) == 0x07060504
    ensures FromBytes(0x08, 0x09, 0x0a, 0x0b) == 0x0b0a0908 && FromBytes(0x0c, 0x0d, 0x0e, 0x0f) == 0x0f0e0d0c
    ensures FromBytes(0x10, 0x11, 0x12, 0x13) == 0x13121110 && FromBytes(0x14, 0x15, 0x16, 0x17) == 0x17161514
    ensures FromBytes(0x18, 0x19, 0x1a, 0x1b) == 0x1b1a1918 && FromBytes(0x1c, 0x1d, 0x1e, 0x1f) == 0x1f1e1d1c
  {
  }

  lemma KeyWords()
    ensures |KEY| == 32
    ensures WordAt(KEY, 0) == 0x03020100 && WordAt(KEY, 1) == 0x07060504
    ensures WordAt(KEY, 2) == 0x0b0a0908 && WordAt(KEY, 3) == 0x0f0e0d0c
    ensures WordAt(KEY, 4) == 0x13121110 && WordAt(KEY, 5) == 0x17161514
    ensures WordAt(KEY, 6) == 0x1b1a1918 && WordAt(KEY, 7) == 0x1f1e1d1c
  {
    KeyBytes();
    hide FromBytes;
  }

  lemma SealKeyBytes()
    ensures FromBytes(0x80, 0x81, 0x82, 0x83) == 0x83828180 && FromBytes(0x84, 0x85, 0x86, 0x87) == 0x87868584
    ensures FromBytes(0x88, 0x89, 0x8a, 0x8b) == 0x8b8a8988 && FromBytes(0x8c, 0x8d, 0x8e, 0x8f) == 0x8f8e8d8c
    ensures FromBytes(0x90, 0x91, 0x92, 0x93) == 0x93929190 && FromBytes(0x94, 0x95, 0x96, 0x97) == 0x97969594
    ensures FromBytes(0x98, 0x99, 0x9a, 0x9b) == 0x9b9a9998 && FromBytes(0x9c, 0x9d, 0x9e, 0x9f) == 0x9f9e9d9c
  {
  }

  lemma SealKeyWords()
    ensures |SEAL_KEY| == 32
    ensures WordAt(SEAL_KEY, 0) == 0x83828180 && WordAt(SEAL_KEY, 1) == 0x87868584
    ensures WordAt(SEAL_KEY, 2) == 0x8b8a8988 && WordAt(SEAL_KEY, 3) == 0x8f8e8d8c
    ensures WordAt(SEAL_KEY, 4) == 0x93929190 && WordAt(SEAL_KEY, 5) == 0x97969594
    ensures WordAt(SEAL_KEY, 6) == 0x9b9a9998 && WordAt(SEAL_KEY, 7) == 0x9f9e9d9c
  {
    SealKeyBytes();
    hide FromBytes;
  }

  lemma NonceBytes()
    ensures FromBytes(0x00, 0x00, 0x00, 0x09) == 0x09000000 && FromBytes(0x00, 0x00, 0x00, 0x4a) == 0x4a000000
    ensures FromBytes(0x00, 0x00, 0x00, 0x00) == 0x00000000
  {
  }

  lemma NonceWords()
    ensures |NONCE| == 12
    ensures WordAt(NONCE, 0) == 0x09000000 && WordAt(NONCE, 1) == 0x4a000000
    ensures WordAt(NONCE, 2) == 0x00000000
  {
    NonceBytes();
    hide FromBytes;
  }

  lemma SealNonceBytes()
    ensures FromBytes(0x07, 0x00, 0x00, 0x00) == 0x00000007 && FromBytes(0x40, 0x41, 0x42, 0x43) == 0x43424140
    ensures FromBytes(0x44, 0x45, 0x46, 0x47) == 0x47464544
  {
  }

  lemma SealNonceWords()
    ensures |SEAL_NONCE| == 12
    ensures WordAt(SEAL_NONCE, 0) == 0x00000007 && WordAt(SEAL_NONCE, 1) == 0x43424140
    ensures WordAt(SEAL_NONCE, 2) == 0x47464544
  {
    SealNonceBytes();
    hide FromBytes;
  }

  // ---- The block of section 2.3.2 ----

  lemma BlockStart()
    ensures |KEY| == 32 && |NONCE| == 12
    ensures ToMatrix(Start(KEY, 1, NONCE)) ==
            Matrix(Quad(0x61707865, 0x3320646e, 0x79622d32, 0x6b206574),
                   Quad(0x03020100, 0x07060504, 0x0b0a0908, 0x0f0e0d0c),
                   Quad(0x13121110, 0x17161514, 0x1b1a1918, 0x1f1e1d1c),
                   Quad(0x00000001, 0x09000000, 0x4a000000, 0x00000000))
  {
    hide WordAt;
    KeyWords();
    NonceWords();
    assert Counter(1) == 0x00000001;
  }

  lemma BlockTurns1(start: Matrix)
    requires start == Matrix(Quad(0x61707865, 0x3320646e, 0x79622d32, 0x6b206574),
                             Quad(0x03020100, 0x07060504, 0x0b0a0908, 0x0f0e0d0c),
                             Quad(0x13121110, 0x17161514, 0x1b1a1918, 0x1f1e1d1c),
                             Quad(0x00000001, 0x09000000, 0x4a000000, 0x00000000))
    ensures Rounds(start, 2) ==
            Matrix(Quad(0xcf1a7584, 0x048927ec, 0x54051fda, 0xc244ff28),
                   Quad(0x901d2f40, 0x7974b81c, 0x378dcfb4, 0xcd47fd0e),
                   Quad(0x2dafb216, 0x27c89cd6, 0xcd3c9aa0, 0x79fc89c7),
                   Quad(0x10aef18d, 0x16218765, 0x68f76705, 0x04d6ee22))
  {
    assert Rounds(start, 0) == start;
    hide Rounds;
    Turn(start, 0, Rounds(start, 0),
         Quad(0xabbaa25c, 0x3a465196, 0x6b3ca454, 0xdec62ed2), Quad(0x1efa51ea, 0x1c7e64f6, 0x08eb14b1, 0x8862cc77),
         Quad(0x7354fbdf, 0xb12fb628, 0xbf8a9ac9, 0x6e35b345), Quad(0x83d2dc69, 0xf05b6976, 0xe444df3b, 0x52a647f1),
         Quad(0xcd52e917, 0x5c2e187a, 0xf1a1bdf5, 0xf173888d), Quad(0x85ab03b4, 0xc95eb461, 0x761246ca, 0x6b0d58a3),
         Quad(0xb3457395, 0x316c801a, 0x7bf7d740, 0x6798471a), Quad(0xf96de7dd, 0xc4b7cd22, 0x7eddd644, 0xd737f167));
    Turn(start, 1, Rounds(start, 1),
         Quad(0xe3e1111b, 0xd65b5b5b, 0xe67aec54, 0x7be81c0d), Quad(0xa6291491, 0xf56af099, 0xf7a52d82, 0x1d92d0fd),
         Quad(0x5a82b80c, 0x4ccc8103, 0xdb470914, 0x13139f8c), Quad(0x4500fd45, 0xc94d29e2, 0xdfb40f1d, 0x7a26ecaa),
         Quad(0xcf1a7584, 0x7974b81c, 0xcd3c9aa0, 0x04d6ee22), Quad(0x048927ec, 0x378dcfb4, 0x79fc89c7, 0x10aef18d),
         Quad(0x54051fda, 0xcd47fd0e, 0x2dafb216, 0x16218765), Quad(0xc244ff28, 0x901d2f40, 0x27c89cd6, 0x68f76705));
  }

  lemma BlockTurns2(start: Matrix)
    requires Rounds(start, 2) ==
             Matrix(Quad(0xcf1a7584, 0x048927ec, 0x54051fda, 0xc244ff28),
                    Quad(0x901d2f40, 0x7974b81c, 0x378dcfb4, 0xcd47fd0e),
                    Quad(0x2dafb216, 0x27c89cd6, 0xcd3c9aa0, 0x79fc89c7),
                    Quad(0x10aef18d, 0x16218765, 0x68f76705, 0x04d6ee22))
    ensures Rounds(start, 4) ==
            Matrix(Quad(0x9a2d3589, 0x0b23fc4e, 0x40af3b6b, 0xceea8144),
                   Quad(0x0a1bffc6, 0x5e5993f7, 0x9904c2e7, 0x0d334718),
                   Quad(0xe46c6354, 0xc9503229, 0x04fef5aa, 0xf8933f72),
                   Quad(0x2687d476, 0x54e65231, 0x3594ffc5, 0x2b3bb2ca))
  {
    hide Rounds;
    Turn(start, 2, Rounds(start, 2),
         Quad(0xa22695f2, 0x1ece4458, 0xf2d36da6, 0x6fda6bf7), Quad(0xa908cf6c, 0xe82b726f, 0xf4dab980, 0x65a4b0ce),
         Quad(0xe6ae05b2, 0x5a21ab90, 0x7baf5573, 0x25e6d76e), Quad(0xfe0ff04b, 0x87698c64, 0xa78c270d, 0x1b7b11ec),
         Quad(0x03a14032, 0xa09b33dd, 0xc20e01b6, 0x2cd11b1a), Quad(0x66b15927, 0xa5daaf88, 0x72cd6b74, 0xba35d777),
         Quad(0x9d6b6b42, 0x2fd91a73, 0xc90c6b18, 0xb360f1bf), Quad(0xb84c4109, 0xa7143ae0, 0x5a202413, 0x8178315b));
    Turn(start, 3, Rounds(start, 3),
         Quad(0xfecd0838, 0xcedf6624, 0x1d8a33ea, 0xa818b852), Quad(0x160ab468, 0xb11de6c4, 0x87dc1ca9, 0xb100446a),
         Quad(0x9a0ddf4e, 0xbd7810ef, 0x89bd34a5, 0x9c1d70b1), Quad(0xbac7154a, 0xd22b5643, 0x5505ef62, 0xa1d1befa),
         Quad(0x9a2d3589, 0x5e5993f7, 0x04fef5aa, 0x2b3bb2ca), Quad(0x0b23fc4e, 0x9904c2e7, 0xf8933f72, 0x2687d476),
         Quad(0x40af3b6b, 0x0d334718, 0xe46c6354, 0x54e65231), Quad(0xceea8144, 0x0a1bffc6, 0xc9503229, 0x3594ffc5));
  }

  lemma BlockTurns3(start: Matrix)
    requires Rounds(start, 4) ==
             Matrix(Quad(0x9a2d3589, 0x0b23fc4e, 0x40af3b6b, 0xceea8144),
                    Quad(0x0a1bffc6, 0x5e5993f7, 0x9904c2e7, 0x0d334718),
                    Quad(0xe46c6354, 0xc9503229, 0x04fef5aa, 0xf8933f72),
                    Quad(0x2687d476, 0x54e65231, 0x3594ffc5, 0x2b3bb2ca))
    ensures Rounds(start, 6) ==
            Matrix(Quad(0x04a3131a, 0x66176309, 0x0415bab1, 0x61b880a2),
                   Quad(0x36cc86c7, 0xbf8a4465, 0xf77dd720, 0xfc0bdc90),
                   Quad(0x07d13aca, 0xeb0be9af, 0x61599491, 0x918512dc),
                   Quad(0x33b6686d, 0x795cc671, 0xc0049972, 0xa0a81bde))
  {
    hide Rounds;
    Turn(start, 4, Rounds(start, 4),
         Quad(0x85e7824a, 0x1c133ea1, 0xa3a66a86, 0xde008464), Quad(0x4940cd9e, 0xbba40b0f, 0xc0b4754f, 0x34f0058b),
         Quad(0xfbe7684b, 0x9413992a, 0x771b4ecb, 0x70846cfa), Quad(0x7335d03d, 0xa4ab2040, 0x165151a1, 0xa3271b09),
         Quad(0xc53318c5, 0x6088d379, 0x71669aca, 0x63fa6953), Quad(0xca325d96, 0xc0f0e9bd, 0x975c171d, 0x9e5ec228),
         Quad(0x7e7d11cb, 0xe310cdb9, 0xae2ca8db, 0x7d85a9f3), Quad(0x3404e2ca, 0x26d7cf73, 0x42f67c72, 0x201d0756));
    Turn(start, 5, Rounds(start, 5),
         Quad(0x9950b826, 0x2121065a, 0x19078de2, 0x40ca72b3), Quad(0xcac7ccc6, 0xc12bdadb, 0x178ecc02, 0x3b9bf852),
         Quad(0x84a67673, 0xcae3acd1, 0xe6adbdb2, 0x78690378), Quad(0xdb3109a6, 0x594616cb, 0x52a9d50e, 0xe17d4902),
         Quad(0x04a3131a, 0xbf8a4465, 0x61599491, 0xa0a81bde), Quad(0x66176309, 0xf77dd720, 0x918512dc, 0x33b6686d),
         Quad(0x0415bab1, 0xfc0bdc90, 0x07d13aca, 0x795cc671), Quad(0x61b880a2, 0x36cc86c7, 0xeb0be9af, 0xc0049972));
  }

  lemma BlockTurns4(start: Matrix)
    requires Rounds(start, 6) ==
             Matrix(Quad(0x04a3131a, 0x66176309, 0x0415bab1, 0x61b880a2),
                    Quad(0x36cc86c7, 0xbf8a4465, 0xf77dd720, 0xfc0bdc90),
                    Quad(0x07d13aca, 0xeb0be9af, 0x61599491, 0x918512dc),
                    Quad(0x33b6686d, 0x795cc671, 0xc0049972, 0xa0a81bde))
    ensures Rounds(start, 8) ==
            Matrix(Quad(0xca5c85dd, 0x93a4f90e, 0xd9f0df58, 0x26dd82dd),
                   Quad(0x982563f8, 0x712aa9ff, 0x279a61e8, 0x970f72bd),
                   Quad(0x1c25931a, 0x5180bb10, 0x779c27e7, 0x54077e08),
                   Quad(0xa9b751fb, 0x382f3ce2, 0x8db1757d, 0xcc38080b))
  {
    hide Rounds;
    Turn(start, 6, Rounds(start, 6),
         Quad(0x57c5e6da, 0x8e85d82f, 0x434b4749, 0x49ee03a6), Quad(0x35ce46a8, 0xb4819d06, 0x1d459c00, 0xd11a5554),
         Quad(0x0c041bb9, 0xb63be200, 0x111cfe2c, 0xa7202e04), Quad(0xfa91df79, 0xacd221e4, 0x55942604, 0x7d2215bc),
         Quad(0x9b70f51f, 0x6a4c50ae, 0xd3fde99e, 0x2c847a0d), Quad(0x7ea8ac11, 0x19212a5a, 0x26acc13d, 0xa609f555),
         Quad(0x21e54da9, 0x9b032958, 0xd839165e, 0x2c246549), Quad(0xca393b2f, 0x93b08686, 0x4c06e28a, 0x95151853));
    Turn(start, 7, Rounds(start, 7),
         Quad(0xc0b18aee, 0xdeb54e9c, 0xa82d65d4, 0x4103c64e), Quad(0x087445ba, 0x802c883b, 0x687f11eb, 0x82816a91),
         Quad(0x36e52ad9, 0x06e86889, 0xe9d36207, 0xb584ca56), Quad(0xa777426a, 0x3c002680, 0x4242ddae, 0xfd0bd2b9),
         Quad(0xca5c85dd, 0x712aa9ff, 0x779c27e7, 0xcc38080b), Quad(0x93a4f90e, 0x279a61e8, 0x54077e08, 0xa9b751fb),
         Quad(0xd9f0df58, 0x970f72bd, 0x1c25931a, 0x382f3ce2), Quad(0x26dd82dd, 0x982563f8, 0x5180bb10, 0x8db1757d));
  }

  lemma BlockTurns5(start: Matrix)
    requires Rounds(start, 8) ==
             Matrix(Quad(0xca5c85dd, 0x93a4f90e, 0xd9f0df58, 0x26dd82dd),
                    Quad(0x982563f8, 0x712aa9ff, 0x279a61e8, 0x970f72bd),
                    Quad(0x1c25931a, 0x5180bb10, 0x779c27e7, 0x54077e08),
                    Quad(0xa9b751fb, 0x382f3ce2, 0x8db1757d, 0xcc38080b))
    ensures Rounds(start, 10) ==
            Matrix(Quad(0x837778ab, 0xe238d763, 0xa67ae21e, 0x5950bb2f),
                   Quad(0xc4f2d0c7, 0xfc62bb2f, 0x8fa018fc, 0x3f5ec7b7),
                   Quad(0x335271c2, 0xf29489f3, 0xeabda8fc, 0x82e46ebd),
                   Quad(0xd19c12b4, 0xb04e16de, 0x9e83d0cb, 0x4e3c50a2))
  {
    hide Rounds;
    Turn(start, 8, Rounds(start, 8),
         Quad(0x765c6e9c, 0x9046ecaa, 0x46fa091e, 0x72a5aace), Quad(0x5ab09b11, 0x7b88d882, 0x5117e9b5, 0x5fa7f1c5),
         Quad(0x3ee7da04, 0xb9b577dd, 0x862ff22b, 0xda563e0a), Quad(0x37c31203, 0x156de7ed, 0xa3fcc7a6, 0x5263d7ca),
         Quad(0xb6b87de6, 0x98e18fa3, 0x83e2f5d7, 0x6cde6026), Quad(0x9a016148, 0x5ffbe8fc, 0x7d24b98b, 0x21078b22),
         Quad(0x93859815, 0xf7154b8b, 0x28c1fcb3, 0xb193e7a3), Quad(0x4915e6cc, 0xdc33c122, 0xc4b38f9d, 0xb2f49389));
    Turn(start, 9, Rounds(start, 9),
         Quad(0x8a07ff15, 0x913768fe, 0x0a39aedc, 0x2d4cfe3e), Quad(0x0cadc51c, 0x442a0c0c, 0xc1428029, 0xe5466d1b),
         Quad(0x017c8da9, 0x598fe3bb, 0x7b48135f, 0xe4ccdc13), Quad(0x4afbe5df, 0x47d18828, 0x5a5f1098, 0x8ac92a18),
         Quad(0x837778ab, 0xfc62bb2f, 0xeabda8fc, 0x4e3c50a2), Quad(0xe238d763, 0x8fa018fc, 0x82e46ebd, 0xd19c12b4),
         Quad(0xa67ae21e, 0x3f5ec7b7, 0x335271c2, 0xb04e16de), Quad(0x5950bb2f, 0xc4f2d0c7, 0xf29489f3, 0x9e83d0cb));
  }

  lemma BlockSum()
    ensures MatrixSum(Matrix(Quad(0x837778ab, 0xe238d763, 0xa67ae21e, 0x5950bb2f),
                             Quad(0xc4f2d0c7, 0xfc62bb2f, 0x8fa018fc, 0x3f5ec7b7),
                             Quad(0x335271c2, 0xf29489f3, 0xeabda8fc, 0x82e46ebd),
                             Quad(0xd19c12b4, 0xb04e16de, 0x9e83d0cb, 0x4e3c50a2)),
                      Matrix(Quad(0x61707865, 0x3320646e, 0x79622d32, 0x6b206574),
                             Quad(0x03020100, 0x07060504, 0x0b0a0908, 0x0f0e0d0c),
                             Quad(0x13121110, 0x17161514, 0x1b1a1918, 0x1f1e1d1c),
                             Quad(0x00000001, 0x09000000, 0x4a000000, 0x00000000))) ==
            Matrix(Quad(0xe4e7f110, 0x15593bd1, 0x1fdd0f50, 0xc47120a3),
                   Quad(0xc7f4d1c7, 0x0368c033, 0x9aaa2204, 0x4e6cd4c3),
                   Quad(0x466482d2, 0x09aa9f07, 0x05d7c214, 0xa2028bd9),
                   Quad(0xd19c12b5, 0xb94e16de, 0xe883d0cb, 0x4e3c50a2))
  {
  }

  lemma BlockUpper()
    ensures QuadBytes(Quad(0xe4e7f110, 0x15593bd1, 0x1fdd0f50, 0xc47120a3)) ==
            [0x10, 0xf1, 0xe7, 0xe4, 0xd1, 0x3b, 0x59, 0x15, 0x50, 0x0f, 0xdd, 0x1f, 0xa3, 0x20, 0x71, 0xc4]
    ensures QuadBytes(Quad(0xc7f4d1c7, 0x0368c033, 0x9aaa2204, 0x4e6cd4c3)) ==
            [0xc7, 0xd1, 0xf4, 0xc7, 0x33, 0xc0, 0x68, 0x03, 0x04, 0x22, 0xaa, 0x9a, 0xc3, 0xd4, 0x6c, 0x4e]
  {
  }

  lemma BlockLower()
    ensures QuadBytes(Quad(0x466482d2, 0x09aa9f07, 0x05d7c214, 0xa2028bd9)) ==
            [0xd2, 0x82, 0x64, 0x46, 0x07, 0x9f, 0xaa, 0x09, 0x14, 0xc2, 0xd7, 0x05, 0xd9, 0x8b, 0x02, 0xa2]
    ensures QuadBytes(Quad(0xd19c12b5, 0xb94e16de, 0xe883d0cb, 0x4e3c50a2)) ==
            [0xb5, 0x12, 0x9c, 0xd1, 0xde, 0x16, 0x4e, 0xb9, 0xcb, 0xd0, 0x83, 0xe8, 0xa2, 0x50, 0x3c, 0x4e]
  {
  }

  /** The block of section 2.3.2. */
  lemma BlockVector()
    ensures |KEY| == 32 && |NONCE| == 12
    ensures BlockOf(KEY, 1, NONCE) ==
            [0x10, 0xf1, 0xe7, 0xe4, 0xd1, 0x3b, 0x59, 0x15, 0x50, 0x0f, 0xdd, 0x1f, 0xa3, 0x20, 0x71, 0xc4] +
            [0xc7, 0xd1, 0xf4, 0xc7, 0x33, 0xc0, 0x68, 0x03, 0x04, 0x22, 0xaa, 0x9a, 0xc3, 0xd4, 0x6c, 0x4e] +
            [0xd2, 0x82, 0x64, 0x46, 0x07, 0x9f, 0xaa, 0x09, 0x14, 0xc2, 0xd7, 0x05, 0xd9, 0x8b, 0x02, 0xa2] +
            [0xb5, 0x12, 0x9c, 0xd1, 0xde, 0x16, 0x4e, 0xb9, 0xcb, 0xd0, 0x83, 0xe8, 0xa2, 0x50, 0x3c, 0x4e]
  {
    BlockStart();
    hide *;
    var start := ToMatrix(Start(KEY, 1, NONCE));
    BlockTurns1(start);
    BlockTurns2(start);
    BlockTurns3(start);
    BlockTurns4(start);
    BlockTurns5(start);
    BlockSum();
    BlockUpper();
    BlockLower();
    BlockFrom(KEY, 1, NONCE, start, Rounds(start, 10));
  }

  // ---- The block of the one-time key in section 2.8.2 ----

  lemma ZeroStart()
    ensures |SEAL_KEY| == 32 && |SEAL_NONCE| == 12
    ensures ToMatrix(Start(SEAL_KEY, 0, SEAL_NONCE)) ==
            Matrix(Quad(0x61707865, 0x3320646e, 0x79622d32, 0x6b206574),
                   Quad(0x83828180, 0x87868584, 0x8b8a8988, 0x8f8e8d8c),
                   Quad(0x93929190, 0x97969594, 0x9b9a9998, 0x9f9e9d9c),
                   Quad(0x00000000, 0x00000007, 0x43424140, 0x47464544))
  {
    hide WordAt;
    SealKeyWords();
    SealNonceWords();
    assert Counter(0) == 0x00000000;
  }

  lemma ZeroTurns1(start: Matrix)
    requires start == Matrix(Quad(0x61707865, 0x3320646e, 0x79622d32, 0x6b206574),
                             Quad(0x83828180, 0x87868584, 0x8b8a8988, 0x8f8e8d8c),
                             Quad(0x93929190, 0x97969594, 0x9b9a9998, 0x9f9e9d9c),
                             Quad(0x00000000, 0x00000007, 0x43424140, 0x47464544))
    ensures Rounds(start, 2) ==
            Matrix(Quad(0x95a933b1, 0x5afa3ce5, 0x4540a4cf, 0x7f9ebd49),
                   Quad(0x5ce1c3ed, 0xc30a349d, 0x7c835f39, 0xb99f7208),
                   Quad(0x1bb4a1d6, 0xa7e3233b, 0x1ad0d682, 0x786cdc7c),
                   Quad(0x9e8aab27, 0x33b66556, 0x16884b38, 0x0749e1f2))
  {
    assert Rounds(start, 0) == start;
    hide Rounds;
    Turn(start, 0, Rounds(start, 0),
         Quad(0x94631ad4, 0x835e005d, 0x14769cef, 0x86fe266d), Quad(0x6802ca52, 0xd3526dea, 0x78fd44bb, 0xf770f481),
         Quad(0xeb79983b, 0xfc4bf1f8, 0x17747662, 0x83df951c), Quad(0xd80f80a6, 0x20122a3e, 0xa120a9f2, 0x4b3d4e6e),
         Quad(0xd4a5898f, 0x8cd4969f, 0x53e9a9fc, 0x75a50712), Quad(0x9c2468ba, 0x839d6c04, 0x3ed296a8, 0x038a0a06),
         Quad(0xe6c90930, 0x2c1186d3, 0x7d6565ba, 0x31f5cbd0), Quad(0x8d4081e7, 0xd2b9f16e, 0xec767306, 0x5f595599));
    Turn(start, 1, Rounds(start, 1),
         Quad(0x371d8eca, 0x9a9d0dad, 0xd48b29d6, 0xe62a1f47), Quad(0xdaa1ca1b, 0x3d34e1fc, 0x49d2a301, 0x28d316ee),
         Quad(0x259a74a4, 0x75c29808, 0xabd87a40, 0x37419b05), Quad(0x67a6cee0, 0x14de90f9, 0x5c7d7b07, 0x0e021768),
         Quad(0x95a933b1, 0xc30a349d, 0x1ad0d682, 0x0749e1f2), Quad(0x5afa3ce5, 0x7c835f39, 0x786cdc7c, 0x9e8aab27),
         Quad(0x4540a4cf, 0xb99f7208, 0x1bb4a1d6, 0x33b66556), Quad(0x7f9ebd49, 0x5ce1c3ed, 0xa7e3233b, 0x16884b38));
  }

  lemma ZeroTurns2(start: Matrix)
    requires Rounds(start, 2) ==
             Matrix(Quad(0x95a933b1, 0x5afa3ce5, 0x4540a4cf, 0x7f9ebd49),
                    Quad(0x5ce1c3ed, 0xc30a349d, 0x7c835f39, 0xb99f7208),
                    Quad(0x1bb4a1d6, 0xa7e3233b, 0x1ad0d682, 0x786cdc7c),
                    Quad(0x9e8aab27, 0x33b66556, 0x16884b38, 0x0749e1f2))
    ensures Rounds(start, 4) ==
            Matrix(Quad(0x0055b232, 0xd0b723b7, 0xf26c19e9, 0x74558ae2),
                   Quad(0x4a5d5cbf, 0xe5bacff4, 0x61de73dc, 0xc99663db),
                   Quad(0xe6eed20b, 0x645e2127, 0xd86363fe, 0xa4358280),
                   Quad(0x6efd1d26, 0x928edda9, 0x6f5d6664, 0x84499ed6))
  {
    hide Rounds;
    Turn(start, 2, Rounds(start, 2),
         Quad(0xef6ea9e6, 0x682360d6, 0x5033f489, 0xd7c5e6b3), Quad(0xf44b797d, 0x25939b45, 0x5c0c20cd, 0x9f54cfe0),
         Quad(0xf0f37570, 0x464df281, 0x2da3ea8d, 0xc3a23cbf), Quad(0x2fcdef39, 0xb76b1e21, 0xb5e169d4, 0x6ed14ee1),
         Quad(0xf4d496fa, 0xc4e0c843, 0x585b905f, 0x1eed29ff), Quad(0x64f47c54, 0x4db827eb, 0xfcc06019, 0xb99108e9),
         Quad(0x8bb9b54d, 0x3e296b4b, 0x7527736a, 0xc88247d7), Quad(0x8950ba18, 0x7ad5862c, 0xa9aac105, 0xe0ee4be5));
    Turn(start, 3, Rounds(start, 3),
         Quad(0x9ca2bc28, 0x4ce1166a, 0xf8615d2e, 0x6d6a1389), Quad(0xe0773b17, 0x320adfa9, 0xe4c5e33f, 0x37da40e3),
         Quad(0xe8533760, 0xd349aa39, 0x7d47c97c, 0x8e0eff7e), Quad(0x0ca9d8da, 0xb89ae3bd, 0x3e5e86b0, 0x35014d00),
         Quad(0x0055b232, 0xe5bacff4, 0xd86363fe, 0x84499ed6), Quad(0xd0b723b7, 0x61de73dc, 0xa4358280, 0x6efd1d26),
         Quad(0xf26c19e9, 0xc99663db, 0xe6eed20b, 0x928edda9), Quad(0x74558ae2, 0x4a5d5cbf, 0x645e2127, 0x6f5d6664));
  }

  lemma ZeroTurns3(start: Matrix)
    requires Rounds(start, 4) ==
             Matrix(Quad(0x0055b232, 0xd0b723b7, 0xf26c19e9, 0x74558ae2),
                    Quad(0x4a5d5cbf, 0xe5bacff4, 0x61de73dc, 0xc99663db),
                    Quad(0xe6eed20b, 0x645e2127, 0xd86363fe, 0xa4358280),
                    Quad(0x6efd1d26, 0x928edda9, 0x6f5d6664, 0x84499ed6))
    ensures Rounds(start, 6) ==
            Matrix(Quad(0x6e9e52e1, 0xce5a2c8c, 0xf72c61e8, 0x8eb175c3),
                   Quad(0x29e31a63, 0x54376cc4, 0x27855777, 0xd83249a5),
                   Quad(0x42fd2515, 0xdd247fab, 0xefe39d7d, 0xc90192c9),
                   Quad(0xcaea1e54, 0xed6db63b, 0xd7025920, 0xaf5cc795))
  {
    hide Rounds;
    Turn(start, 4, Rounds(start, 4),
         Quad(0xd56179fa, 0xc6e00b1d, 0xb123ab1f, 0xb65db4c6), Quad(0x5f0f1b28, 0x9e9d751b, 0x9fa01d97, 0x0d3fd771),
         Quad(0x03172822, 0x6da7506a, 0x7a17d4fd, 0xb61335e8), Quad(0xb3eb8c90, 0x94f99b70, 0x94d66ee5, 0x803532c3),
         Quad(0xafdc2bac, 0x8d0656ac, 0x62c7303a, 0x0ad86772), Quad(0xa8520d2a, 0x9c856fd0, 0x7aa2ab47, 0x0677c177),
         Quad(0x85c4a8c1, 0x7b65f800, 0xed452edf, 0x273dee91), Quad(0xd8e2c01d, 0x72c3ccdb, 0xe8f2afe9, 0xa70cc57a));
    Turn(start, 5, Rounds(start, 5),
         Quad(0x8c91bde6, 0x9fd391f0, 0x88ce627c, 0x61990eb5), Quad(0x2ea69389, 0x7ac0a157, 0x57bbaef1, 0xe181eca3),
         Quad(0x9fef2654, 0x7865009c, 0x4555c7c2, 0x04a31242), Quad(0xd3662a34, 0x4deffa0e, 0x6386ade3, 0x0974a40c),
         Quad(0x6e9e52e1, 0x54376cc4, 0xefe39d7d, 0xaf5cc795), Quad(0xce5a2c8c, 0x27855777, 0xc90192c9, 0xcaea1e54),
         Quad(0xf72c61e8, 0xd83249a5, 0x42fd2515, 0xed6db63b), Quad(0x8eb175c3, 0x29e31a63, 0xdd247fab, 0xd7025920));
  }

  lemma ZeroTurns4(start: Matrix)
    requires Rounds(start, 6) ==
             Matrix(Quad(0x6e9e52e1, 0xce5a2c8c, 0xf72c61e8, 0x8eb175c3),
                    Quad(0x29e31a63, 0x54376cc4, 0x27855777, 0xd83249a5),
                    Quad(0x42fd2515, 0xdd247fab, 0xefe39d7d, 0xc90192c9),
                    Quad(0xcaea1e54, 0xed6db63b, 0xd7025920, 0xaf5cc795))
    ensures Rounds(start, 8) ==
            Matrix(Quad(0xf3f2f3fb, 0x699d6804, 0xcf143812, 0xf62f795f),
                   Quad(0x6d5afb59, 0xedc994e7, 0x28bf944b, 0x71a7f2ff),
                   Quad(0x8d9e8e30, 0x6e3bca79, 0x42920f8a, 0xe25d89a5),
                   Quad(0x460bf896, 0x333782ec, 0xc9577711, 0x781263cb))
  {
    hide Rounds;
    Turn(start, 6, Rounds(start, 6),
         Quad(0x7f5fa742, 0x6e4cb970, 0x0602a08c, 0x4ff5290c), Quad(0x94c7ceda, 0x53a1f465, 0xb8917662, 0xac0126bb),
         Quad(0x81b638dd, 0xa85577fc, 0x9a54d591, 0xc9f16e61), Quad(0x38369904, 0x01672a6e, 0x0d5017c8, 0xcb50bb40),
         Quad(0x749a1a30, 0xd318dfcc, 0x383e4f36, 0x7d026154), Quad(0x3cf2142d, 0x22ceaa2d, 0xa5915003, 0x2866c553),
         Quad(0xe179c7f4, 0xc3ee72c5, 0xd5dbb84c, 0x89e8e8a4), Quad(0x4c4d9c22, 0x283ff574, 0x4d9a3644, 0x58f35070));
    Turn(start, 7, Rounds(start, 7),
         Quad(0x6661d832, 0x5c199d7f, 0x373ffbb4, 0x966c8eac), Quad(0x01099fb7, 0x00477f26, 0xbcfe2540, 0x5406551a),
         Quad(0x146639a5, 0xf486d1c0, 0x91f4ca27, 0x37651e36), Quad(0xbd345c51, 0x47303c98, 0x9c762d13, 0x87316fd2),
         Quad(0xf3f2f3fb, 0xedc994e7, 0x42920f8a, 0x781263cb), Quad(0x699d6804, 0x28bf944b, 0xe25d89a5, 0x460bf896),
         Quad(0xcf143812, 0x71a7f2ff, 0x8d9e8e30, 0x333782ec), Quad(0xf62f795f, 0x6d5afb59, 0x6e3bca79, 0xc9577711));
  }

  lemma ZeroTurns5(start: Matrix)
    requires Rounds(start, 8) ==
             Matrix(Quad(0xf3f2f3fb, 0x699d6804, 0xcf143812, 0xf62f795f),
                    Quad(0x6d5afb59, 0xedc994e7, 0x28bf944b, 0x71a7f2ff),
                    Quad(0x8d9e8e30, 0x6e3bca79, 0x42920f8a, 0xe25d89a5),
                    Quad(0x460bf896, 0x333782ec, 0xc9577711, 0x781263cb))
    ensures Rounds(start, 10) ==
            Matrix(Quad(0xc3bb3416, 0x7c274fbf, 0xdc1888d7, 0x19358430),
                   Quad(0xf0545f8a, 0x6452ef8c, 0xeceb09a2, 0x6fc547b2),
                   Quad(0x4b39ed12, 0x1cb74619, 0x49017e39, 0x38a46e2d),
                   Quad(0x8c94b7bc, 0x8b7d4b44, 0xf5e5b53d, 0xcf235eee))
  {
    hide Rounds;
    Turn(start, 8, Rounds(start, 8),
         Quad(0x0630ebd7, 0x67dd021e, 0x982d4687, 0xf2cc9111), Quad(0x0309cd03, 0xa728afa8, 0xfaec8147, 0x0ea9527d),
         Quad(0x157829b3, 0x28ec7516, 0x31f585bc, 0x341737ae), Quad(0xbd90c463, 0x3b840cd1, 0xf7ce501c, 0x05dba6b2),
         Quad(0x6573080d, 0x3d688c4b, 0x2e63bd96, 0xbea08f58), Quad(0xe1ba503c, 0x5210d5e4, 0x7d602f88, 0xb2890632),
         Quad(0x7b7d12ee, 0xf9c1c8d5, 0x81735ffb, 0x844cbb1f), Quad(0x8e7bbf3d, 0xe2117e14, 0x40c9da40, 0x54ae477f));
    Turn(start, 9, Rounds(start, 9),
         Quad(0xaa36545a, 0xccb105a2, 0x2728ac32, 0x25a1572a), Quad(0xcec135d7, 0xc7bb03d6, 0x02112f57, 0x59aeb9a9),
         Quad(0xe5c3c192, 0x2fe861aa, 0x4c6a0803, 0x6e58b14a), Quad(0x432c8fe8, 0xc66e5fa8, 0xeb63db69, 0x66b97544),
         Quad(0xc3bb3416, 0x6452ef8c, 0x49017e39, 0xcf235eee), Quad(0x7c274fbf, 0xeceb09a2, 0x38a46e2d, 0x8c94b7bc),
         Quad(0xdc1888d7, 0x6fc547b2, 0x4b39ed12, 0x8b7d4b44), Quad(0x19358430, 0xf0545f8a, 0x1cb74619, 0xf5e5b53d));
  }

  lemma ZeroSum()
    ensures MatrixSum(Matrix(Quad(0xc3bb3416, 0x7c274fbf, 0xdc1888d7, 0x19358430),
                             Quad(0xf0545f8a, 0x6452ef8c, 0xeceb09a2, 0x6fc547b2),
                             Quad(0x4b39ed12, 0x1cb74619, 0x49017e39, 0x38a46e2d),
                             Quad(0x8c94b7bc, 0x8b7d4b44, 0xf5e5b53d, 0xcf235eee)),
                      Matrix(Quad(0x61707865, 0x3320646e, 0x79622d32, 0x6b206574),
                             Quad(0x83828180, 0x87868584, 0x8b8a8988, 0x8f8e8d8c),
                             Quad(0x93929190, 0x97969594, 0x9b9a9998, 0x9f9e9d9c),
                             Quad(0x00000000, 0x00000007, 0x43424140, 0x47464544))) ==
            Matrix(Quad(0x252bac7b, 0xaf47b42d, 0x557ab609, 0x8455e9a4),
                   Quad(0x73d6e10a, 0xebd97510, 0x7875932a, 0xff53d53e),
                   Quad(0xdecc7ea2, 0xb44ddbad, 0xe49c17d1, 0xd8430bc9),
                   Quad(0x8c94b7bc, 0x8b7d4b4b, 0x3927f67d, 0x1669a432))
  {
  }

  lemma ZeroUpper()
    ensures QuadBytes(Quad(0x252bac7b, 0xaf47b42d, 0x557ab609, 0x8455e9a4)) ==
            [0x7b, 0xac, 0x2b, 0x25, 0x2d, 0xb4, 0x47, 0xaf, 0x09, 0xb6, 0x7a, 0x55, 0xa4, 0xe9, 0x55, 0x84]
    ensures QuadBytes(Quad(0x73d6e10a, 0xebd97510, 0x7875932a, 0xff53d53e)) ==
            [0x0a, 0xe1, 0xd6, 0x73, 0x10, 0x75, 0xd9, 0xeb, 0x2a, 0x93, 0x75, 0x78, 0x3e, 0xd5, 0x53, 0xff]
  {
  }

  lemma ZeroLower()
    ensures QuadBytes(Quad(0xdecc7ea2, 0xb44ddbad, 0xe49c17d1, 0xd8430bc9)) ==
            [0xa2, 0x7e, 0xcc, 0xde, 0xad, 0xdb, 0x4d, 0xb4, 0xd1, 0x17, 0x9c, 0xe4, 0xc9, 0x0b, 0x43, 0xd8]
    ensures QuadBytes(Quad(0x8c94b7bc, 0x8b7d4b4b, 0x3927f67d, 0x1669a432)) ==
            [0xbc, 0xb7, 0x94, 0x8c, 0x4b, 0x4b, 0x7d, 0x8b, 0x7d, 0xf6, 0x27, 0x39, 0x32, 0xa4, 0x69, 0x16]
  {
  }

  /** The block of the one-time key in section 2.8.2. */
  lemma ZeroVector()
    ensures |SEAL_KEY| == 32 && |SEAL_NONCE| == 12
    ensures BlockOf(SEAL_KEY, 0, SEAL_NONCE) ==
            [0x7b, 0xac, 0x2b, 0x25, 0x2d, 0xb4, 0x47, 0xaf, 0x09, 0xb6, 0x7a, 0x55, 0xa4, 0xe9, 0x55, 0x84] +
            [0x0a, 0xe1, 0xd6, 0x73, 0x10, 0x75, 0xd9, 0xeb, 0x2a, 0x93, 0x75, 0x78, 0x3e, 0xd5, 0x53, 0xff] +
            [0xa2, 0x7e, 0xcc, 0xde, 0xad, 0xdb, 0x4d, 0xb4, 0xd1, 0x17, 0x9c, 0xe4, 0xc9, 0x0b, 0x43, 0xd8] +
            [0xbc, 0xb7, 0x94, 0x8c, 0x4b, 0x4b, 0x7d, 0x8b, 0x7d, 0xf6, 0x27, 0x39, 0x32, 0xa4, 0x69, 0x16]
  {
    ZeroStart();
    hide *;
    var start := ToMatrix(Start(SEAL_KEY, 0, SEAL_NONCE));
    ZeroTurns1(start);
    ZeroTurns2(start);
    ZeroTurns3(start);
    ZeroTurns4(start);
    ZeroTurns5(start);
    ZeroSum();
    ZeroUpper();
    ZeroLower();
    BlockFrom(SEAL_KEY, 0, SEAL_NONCE, start, Rounds(start, 10));
  }

  // ---- The first keystream block in section 2.8.2 ----

  lemma OneStart()
    ensures |SEAL_KEY| == 32 && |SEAL_NONCE| == 12
    ensures ToMatrix(Start(SEAL_KEY, 1, SEAL_NONCE)) ==
            Matrix(Quad(0x61707865, 0x3320646e, 0x79622d32, 0x6b206574),
                   Quad(0x83828180, 0x87868584, 0x8b8a8988, 0x8f8e8d8c),
                   Quad(0x93929190, 0x97969594, 0x9b9a9998, 0x9f9e9d9c),
                   Quad(0x00000001, 0x00000007, 0x43424140, 0x47464544))
  {
    hide WordAt;
    SealKeyWords();
    SealNonceWords();
    assert Counter(1) == 0x00000001;
  }

  lemma OneTurns1(start: Matrix)
    requires start == Matrix(Quad(0x61707865, 0x3320646e, 0x79622d32, 0x6b206574),
                             Quad(0x83828180, 0x87868584, 0x8b8a8988, 0x8f8e8d8c),
                             Quad(0x93929190, 0x97969594, 0x9b9a9998, 0x9f9e9d9c),
                             Quad(0x00000001, 0x00000007, 0x43424140, 0x47464544))
    ensures Rounds(start, 2) ==
            Matrix(Quad(0x890fbffd, 0xad3bdd62, 0xb38ceedf, 0x7da4bba9),
                   Quad(0x75394186, 0x56e38e23, 0x9453cdd6, 0x4164ea5f),
                   Quad(0x1d5a908f, 0xfeb72e12, 0x6142c36e, 0x91f9fed8),
                   Quad(0x3a929eef, 0xf97a7ff1, 0x80c11d0e, 0x3b5536f3))
  {
    assert Rounds(start, 0) == start;
    hide Rounds;
    Turn(start, 0, Rounds(start, 0),
         Quad(0x44631ad4, 0x02dee825, 0x15759d3f, 0x87fe26bd), Quad(0x6802ca52, 0xd3526dea, 0x78fd44bb, 0xf770f481),
         Quad(0xeb79983b, 0xfc4bf1f8, 0x17747662, 0x83df951c), Quad(0xd80f80a6, 0x20122a3e, 0xa120a9f2, 0x4b3d4e6e),
         Quad(0x83a5898f, 0xf4ed7f1f, 0x5419da2f, 0x75d50745), Quad(0x9c14684f, 0x30905694, 0x1fa48ca8, 0xe38bff06),
         Quad(0xd68c0940, 0x32086e85, 0xc164561a, 0x74f5bbe0), Quad(0x824b000b, 0x38a795da, 0x132dd86b, 0x9c593a7f));
    Turn(start, 1, Rounds(start, 1),
         Quad(0xfe50c900, 0xb4e934d1, 0xe16a7bfe, 0x3f96c61e), Quad(0xad15f123, 0x62cff28b, 0x0ad19650, 0x9b14d7f1),
         Quad(0x595a6869, 0xc35492fc, 0xabb8a1b0, 0xf1f32c3c), Quad(0xd65e2a47, 0xb65a2d1b, 0x15660fed, 0x8bebc1bf),
         Quad(0x890fbffd, 0x56e38e23, 0x6142c36e, 0x3b5536f3), Quad(0xad3bdd62, 0x9453cdd6, 0x91f9fed8, 0x3a929eef),
         Quad(0xb38ceedf, 0x4164ea5f, 0x1d5a908f, 0xf97a7ff1), Quad(0x7da4bba9, 0x75394186, 0xfeb72e12, 0x80c11d0e));
  }

  lemma OneTurns2(start: Matrix)
    requires Rounds(start, 2) ==
             Matrix(Quad(0x890fbffd, 0xad3bdd62, 0xb38ceedf, 0x7da4bba9),
                    Quad(0x75394186, 0x56e38e23, 0x9453cdd6, 0x4164ea5f),
                    Quad(0x1d5a908f, 0xfeb72e12, 0x6142c36e, 0x91f9fed8),
                    Quad(0x3a929eef, 0xf97a7ff1, 0x80c11d0e, 0x3b5536f3))
    ensures Rounds(start, 4) ==
            Matrix(Quad(0xe9454f79, 0x61d1ac8c, 0xcd17abda, 0x255ffe48),
                   Quad(0xecdd19b6, 0x00f5ca61, 0x1ef196ea, 0xd507cc7b),
                   Quad(0x2e9764c5, 0x9cdf3822, 0x13eb7328, 0x858fa118),
                   Quad(0xf9ee718b, 0xf602b833, 0x16c4fd7e, 0x89856def))
  {
    hide Rounds;
    Turn(start, 2, Rounds(start, 2),
         Quad(0xdf97ce22, 0x4e411aab, 0xb7d24eaa, 0xfb0af940), Quad(0xfe74afe1, 0x95fa1ef4, 0x137eb061, 0x005284ea),
         Quad(0x1c56561f, 0x7d281312, 0xf08fc94c, 0xed913ebd), Quad(0xd5a05c41, 0x2d8b2034, 0x7ecda079, 0x5bd81d45),
         Quad(0x04280467, 0x4d98ec69, 0x5c0d2689, 0x7b2a2ef4), Quad(0x0ebe9f6d, 0x40601f2a, 0xc7a11c44, 0x0d1ffb35),
         Quad(0x55680ec3, 0x2ac8ba38, 0x7bd30904, 0xd14770a7), Quad(0x3a291845, 0x708a8d61, 0xd4a6b443, 0x78d63572));
    Turn(start, 3, Rounds(start, 3),
         Quad(0x15af9b2d, 0xa7052acc, 0x39b30330, 0x52e2807f), Quad(0x672b35ae, 0x01ab1b90, 0x2ad0ffef, 0x5ab8be9c),
         Quad(0x66910139, 0xa8f434a9, 0x83993b25, 0x0eec277e), Quad(0x8d54516b, 0x8d493f44, 0xa178ec90, 0xdd4eb071),
         Quad(0xe9454f79, 0x00f5ca61, 0x13eb7328, 0x89856def), Quad(0x61d1ac8c, 0x1ef196ea, 0x858fa118, 0xf9ee718b),
         Quad(0xcd17abda, 0xd507cc7b, 0x2e9764c5, 0xf602b833), Quad(0x255ffe48, 0xecdd19b6, 0x9cdf3822, 0x16c4fd7e));
  }

  lemma OneTurns3(start: Matrix)
    requires Rounds(start, 4) ==
             Matrix(Quad(0xe9454f79, 0x61d1ac8c, 0xcd17abda, 0x255ffe48),
                    Quad(0xecdd19b6, 0x00f5ca61, 0x1ef196ea, 0xd507cc7b),
                    Quad(0x2e9764c5, 0x9cdf3822, 0x13eb7328, 0x858fa118),
                    Quad(0xf9ee718b, 0xf602b833, 0x16c4fd7e, 0x89856def))
    ensures Rounds(start, 6) ==
            Matrix(Quad(0x51e13092, 0x94b59402, 0xa5108ea5, 0x2760ec41),
                   Quad(0x98c96a88, 0x2ed5f309, 0x482712b5, 0x0a7fd311),
                   Quad(0x3d531708, 0xe078ad4e, 0x6d7e0d59, 0xd1e6ee74),
                   Quad(0xb13717f7, 0x6be5e175, 0x223e83b7, 0x5d06ab43))
  {
    hide Rounds;
    Turn(start, 4, Rounds(start, 4),
         Quad(0x3ef4e3ed, 0x6ae784f8, 0x9807b5b7, 0x50cc2126), Quad(0xe32fdda1, 0xb7abd06e, 0x5d073114, 0xf149642d),
         Quad(0x6bbb3f99, 0x6d1f0e55, 0xd56bc2c9, 0x01c554d4), Quad(0xb7efea5e, 0xeee748a6, 0xf055d10a, 0xc399bc10),
         Quad(0xc9277afc, 0x403db14c, 0x4a06bdc3, 0x6c4fc5c1), Quad(0xfe4c8959, 0x2918d1fd, 0x57afacc0, 0x9c89db34),
         Quad(0x2d32ceee, 0x7790e63b, 0xa47f6763, 0x206505c1), Quad(0x0fe55e7c, 0x8596be76, 0x0006c25a, 0x677d6e34));
    Turn(start, 5, Rounds(start, 5),
         Quad(0x573cf9a7, 0x47853d04, 0x00f1ca4f, 0x7a2b90b5), Quad(0xb38a929a, 0x7b80902c, 0x2df756d5, 0xee8c758c),
         Quad(0x2a3be40a, 0x25b46117, 0xfdbb2bdd, 0xe4d53ce4), Quad(0xee926fa2, 0x5b8cc1ed, 0xbdab3368, 0xe4849b6f),
         Quad(0x51e13092, 0x2ed5f309, 0x6d7e0d59, 0x5d06ab43), Quad(0x94b59402, 0x482712b5, 0xd1e6ee74, 0xb13717f7),
         Quad(0xa5108ea5, 0x0a7fd311, 0x3d531708, 0x6be5e175), Quad(0x2760ec41, 0x98c96a88, 0xe078ad4e, 0x223e83b7));
  }

  lemma OneTurns4(start: Matrix)
    requires Rounds(start, 6) ==
             Matrix(Quad(0x51e13092, 0x94b59402, 0xa5108ea5, 0x2760ec41),
                    Quad(0x98c96a88, 0x2ed5f309, 0x482712b5, 0x0a7fd311),
                    Quad(0x3d531708, 0xe078ad4e, 0x6d7e0d59, 0xd1e6ee74),
                    Quad(0xb13717f7, 0x6be5e175, 0x223e83b7, 0x5d06ab43))
    ensures Rounds(start, 8) ==
            Matrix(Quad(0x3961ab5e, 0x358fedc4, 0xd27bbdef, 0x9752b93d),
                   Quad(0x52211f9e, 0x56e78a3c, 0xbb6f2fa6, 0x5affd529),
                   Quad(0xf23b7ea4, 0xddb82f63, 0x0b55832c, 0x02538245),
                   Quad(0x937dd638, 0x3401c105, 0x1e87a38d, 0x7d1b8dfe))
  {
    hide Rounds;
    Turn(start, 6, Rounds(start, 6),
         Quad(0x7c2d7042, 0xf743de8d, 0x8a6c5295, 0xc02bdff0), Quad(0xedf6dd8d, 0x8337e2f2, 0xcf6d3947, 0x8875e38b),
         Quad(0xba251ede, 0xe8673f4a, 0x593db3fa, 0xc8d1d798), Quad(0xaa657e4a, 0x47db7011, 0x5a0b0818, 0x7412acbe),
         Quad(0xfd3d90f3, 0x1dff6679, 0x0fe3c373, 0xb71b8402), Quad(0x287a9c2c, 0x50039694, 0x7abc7878, 0x5d8a59eb),
         Quad(0xbcd249ef, 0x22e66d8a, 0xae9477db, 0xb6c39ad1), Quad(0x996c87b6, 0xb42d0744, 0x7eab70d1, 0x23eece12));
    Turn(start, 7, Rounds(start, 7),
         Quad(0x77aa947c, 0x6afe9a10, 0xe6ea0171, 0x76789cb6), Quad(0x36f93352, 0x4dbecaaa, 0xa4e44d38, 0x8dc3ebae),
         Quad(0x8319876a, 0xaf715e58, 0xc71d445b, 0x88a851ad), Quad(0x4b37b1d1, 0xaed3b577, 0x61b91bfb, 0x75ba983a),
         Quad(0x3961ab5e, 0x56e78a3c, 0x0b55832c, 0x7d1b8dfe), Quad(0x358fedc4, 0xbb6f2fa6, 0x02538245, 0x937dd638),
         Quad(0xd27bbdef, 0x5affd529, 0xf23b7ea4, 0x3401c105), Quad(0x9752b93d, 0x52211f9e, 0xddb82f63, 0x1e87a38d));
  }

  lemma OneTurns5(start: Matrix)
    requires Rounds(start, 8) ==
             Matrix(Quad(0x3961ab5e, 0x358fedc4, 0xd27bbdef, 0x9752b93d),
                    Quad(0x52211f9e, 0x56e78a3c, 0xbb6f2fa6, 0x5affd529),
                    Quad(0xf23b7ea4, 0xddb82f63, 0x0b55832c, 0x02538245),
                    Quad(0x937dd638, 0x3401c105, 0x1e87a38d, 0x7d1b8dfe))
    ensures Rounds(start, 10) ==
            Matrix(Quad(0xfc79033a, 0x87209893, 0x822db4e3, 0x42ea1bc2),
                   Quad(0xbc063f41, 0x56e77b85, 0xfc460155, 0x1574f4c9),
                   Quad(0xa5390cbe, 0x93c7f918, 0x74184120, 0x48b43e5e),
                   Quad(0x6eb20474, 0x4f6d69b7, 0x8c436320, 0x11d572cd))
  {
    hide Rounds;
    Turn(start, 8, Rounds(start, 8),
         Quad(0x7406a0c9, 0x9a0de31c, 0xd1b7ce0b, 0xc2b83668), Quad(0x3355d405, 0xfa03b320, 0xe72a5b63, 0x506c738a),
         Quad(0xa17eebb5, 0x3a88d456, 0xbfe6ef88, 0x6678d8ef), Quad(0x2e9d0457, 0x9ead251b, 0x0b772fbb, 0x058b1e2d),
         Quad(0xfc8cf363, 0x6351606c, 0x56443dba, 0x4898e2b1), Quad(0x8e96218d, 0xc75981b7, 0x4f39ca31, 0xa58eeb10),
         Quad(0x0fe11b8b, 0xd451861f, 0xf01da9b7, 0xbb0bcb6c), Quad(0x773d833f, 0xb33658b4, 0xc7f4f77d, 0xa12ded48));
    Turn(start, 9, Rounds(start, 9),
         Quad(0xde8e4e58, 0x51e59e07, 0x2068c97d, 0x89441579), Quad(0xa407d916, 0x9f35250b, 0xa51e3d57, 0x9293faee),
         Quad(0x4a60fd53, 0xffcc0d21, 0x30d9f80b, 0x6a8b443a), Quad(0xe0448855, 0x00b8d239, 0xe6b40f53, 0xab8b420b),
         Quad(0xfc79033a, 0x56e77b85, 0x74184120, 0x11d572cd), Quad(0x87209893, 0xfc460155, 0x48b43e5e, 0x6eb20474),
         Quad(0x822db4e3, 0x1574f4c9, 0xa5390cbe, 0x4f6d69b7), Quad(0x42ea1bc2, 0xbc063f41, 0x93c7f918, 0x8c436320));
  }

  lemma OneSum()
    ensures MatrixSum(Matrix(Quad(0xfc79033a, 0x87209893, 0x822db4e3, 0x42ea1bc2),
                             Quad(0xbc063f41, 0x56e77b85, 0xfc460155, 0x1574f4c9),
                             Quad(0xa5390cbe, 0x93c7f918, 0x74184120, 0x48b43e5e),
                             Quad(0x6eb20474, 0x4f6d69b7, 0x8c436320, 0x11d572cd)),
                      Matrix(Quad(0x61707865, 0x3320646e, 0x79622d32, 0x6b206574),
                             Quad(0x83828180, 0x87868584, 0x8b8a8988, 0x8f8e8d8c),
                             Quad(0x93929190, 0x97969594, 0x9b9a9998, 0x9f9e9d9c),
                             Quad(0x00000001, 0x00000007, 0x43424140, 0x47464544))) ==
            Matrix(Quad(0x5de97b9f, 0xba40fd01, 0xfb8fe215, 0xae0a8136),
                   Quad(0x3f88c0c1, 0xde6e0109, 0x87d08add, 0xa5038255),
                   Quad(0x38cb9e4e, 0x2b5e8eac, 0x0fb2dab8, 0xe852dbfa),
                   Quad(0x6eb20475, 0x4f6d69be, 0xcf85a460, 0x591bb811))
  {
  }

  lemma OneUpper()
    ensures QuadBytes(Quad(0x5de97b9f, 0xba40fd01, 0xfb8fe215, 0xae0a8136)) ==
            [0x9f, 0x7b, 0xe9, 0x5d, 0x01, 0xfd, 0x40, 0xba, 0x15, 0xe2, 0x8f, 0xfb, 0x36, 0x81, 0x0a, 0xae]
    ensures QuadBytes(Quad(0x3f88c0c1, 0xde6e0109, 0x87d08add, 0xa5038255)) ==
            [0xc1, 0xc0, 0x88, 0x3f, 0x09, 0x01, 0x6e, 0xde, 0xdd, 0x8a, 0xd0, 0x87, 0x55, 0x82, 0x03, 0xa5]
  {
  }

  lemma OneLower()
    ensures QuadBytes(Quad(0x38cb9e4e, 0x2b5e8eac, 0x0fb2dab8, 0xe852dbfa)) ==
            [0x4e, 0x9e, 0xcb, 0x38, 0xac, 0x8e, 0x5e, 0x2b, 0xb8, 0xda, 0xb2, 0x0f, 0xfa, 0xdb, 0x52, 0xe8]
    ensures QuadBytes(Quad(0x6eb20475, 0x4f6d69be, 0xcf85a460, 0x591bb811)) ==
            [0x75, 0x04, 0xb2, 0x6e, 0xbe, 0x69, 0x6d, 0x4f, 0x60, 0xa4, 0x85, 0xcf, 0x11, 0xb8, 0x1b, 0x59]
  {
  }

  /** The first keystream block in section 2.8.2. */
  lemma OneVector()
    ensures |SEAL_KEY| == 32 && |SEAL_NONCE| == 12
    ensures BlockOf(SEAL_KEY, 1, SEAL_NONCE) ==
            [0x9f, 0x7b, 0xe9, 0x5d, 0x01, 0xfd, 0x40, 0xba, 0x15, 0xe2, 0x8f, 0xfb, 0x36, 0x81, 0x0a, 0xae] +
            [0xc1, 0xc0, 0x88, 0x3f, 0x09, 0x01, 0x6e, 0xde, 0xdd, 0x8a, 0xd0, 0x87, 0x55, 0x82, 0x03, 0xa5] +
            [0x4e, 0x9e, 0xcb, 0x38, 0xac, 0x8e, 0x5e, 0x2b, 0xb8, 0xda, 0xb2, 0x0f, 0xfa, 0xdb, 0x52, 0xe8] +
            [0x75, 0x04, 0xb2, 0x6e, 0xbe, 0x69, 0x6d, 0x4f, 0x60, 0xa4, 0x85, 0xcf, 0x11, 0xb8, 0x1b, 0x59]
  {
    OneStart();
    hide *;
    var start := ToMatrix(Start(SEAL_KEY, 1, SEAL_NONCE));
    OneTurns1(start);
    OneTurns2(start);
    OneTurns3(start);
    OneTurns4(start);
    OneTurns5(start);
    OneSum();
    OneUpper();
    OneLower();
    BlockFrom(SEAL_KEY, 1, SEAL_NONCE, start, Rounds(start, 10));
  }
}
