/** The ChaCha20 cipher of aead.py (sections 2.1 to 2.4 of RFC 8439). */
module ChaCha {

  // ---- The quarter round ----

  datatype Quad = Quad(a: bv32, b: bv32, c: bv32, d: bv32)

  /** `_rotl32` */
  function Rotl32(v: bv32, n: nat): bv32
    requires n < 32
  {
    (v << n) | (v >> (32 - n))
  }

  /** One line of the quarter round: `x += y; z ^= x; z <<<= n`. */
  function Sum32(x: bv32, y: bv32): bv32 {
    x + y
  }

  function Mixed(z: bv32, x: bv32, n: nat): bv32
    requires n < 32
  {
    Rotl32(z ^ x, n)
  }

  function Half(q: Quad, n: nat, m: nat): Quad
    requires n < 32 && m < 32
  {
    var a := Sum32(q.a, q.b);
    var d := Mixed(q.d, a, n);
    var c := Sum32(q.c, d);
    Quad(a, Mixed(q.b, c, m), c, d)
  }

  function Quarter(q: Quad): Quad {
    Half(Half(q, 16, 12), 8, 7)
  }

  // ---- The state as a matrix ----

  /** Four rows of four words. */
  datatype Matrix = Matrix(r0: Quad, r1: Quad, r2: Quad, r3: Quad)

  /** Rows and columns exchanged. */
  function Transposed(m: Matrix): Matrix {
    Matrix(Quad(m.r0.a, m.r1.a, m.r2.a, m.r3.a), Quad(m.r0.b, m.r1.b, m.r2.b, m.r3.b),
           Quad(m.r0.c, m.r1.c, m.r2.c, m.r3.c), Quad(m.r0.d, m.r1.d, m.r2.d, m.r3.d))
  }

  /** A quarter round down every column. */
  function ColumnRound(m: Matrix): Matrix {
    var t := Transposed(m);
    Transposed(Matrix(Quarter(t.r0), Quarter(t.r1), Quarter(t.r2), Quarter(t.r3)))
  }

  function TurnLeft(q: Quad): Quad {
    Quad(q.b, q.c, q.d, q.a)
  }

  /** Row r turned left r times: the diagonals become columns. */
  function Straightened(m: Matrix): Matrix {
    Matrix(m.r0, TurnLeft(m.r1), TurnLeft(TurnLeft(m.r2)), TurnLeft(TurnLeft(TurnLeft(m.r3))))
  }

  function Slanted(m: Matrix): Matrix {
    Matrix(m.r0, TurnLeft(TurnLeft(TurnLeft(m.r1))), TurnLeft(TurnLeft(m.r2)), TurnLeft(m.r3))
  }

  /** A quarter round down every diagonal. */
  function DiagonalRound(m: Matrix): Matrix {
    Slanted(ColumnRound(Straightened(m)))
  }

  function Rounds(m: Matrix, n: nat): Matrix {
    if n == 0 then m else DiagonalRound(ColumnRound(Rounds(m, n - 1)))
  }

  function ToMatrix(s: seq<bv32>): Matrix
    requires |s| == 16
  {
    Matrix(Quad(s[0], s[1], s[2], s[3]), Quad(s[4], s[5], s[6], s[7]),
           Quad(s[8], s[9], s[10], s[11]), Quad(s[12], s[13], s[14], s[15]))
  }

  // ---- The quarter round in place ----

  predicate Places(a: nat, b: nat, c: nat, d: nat) {
    a < 16 && b < 16 && c < 16 && d < 16 && a != b && a != c && a != d && b != c && b != d && c != d
  }

  /** Four words of the state replaced. */
  function With(s: seq<bv32>, a: nat, b: nat, c: nat, d: nat, q: Quad): (t: seq<bv32>)
    requires |s| == 16 && Places(a, b, c, d)
    ensures |t| == 16
  {
    s[a := q.a][b := q.b][c := q.c][d := q.d]
  }

  function QuadAt(s: seq<bv32>, a: nat, b: nat, c: nat, d: nat): Quad
    requires |s| == 16 && Places(a, b, c, d)
  {
    Quad(s[a], s[b], s[c], s[d])
  }

  function QuarterAt(s: seq<bv32>, a: nat, b: nat, c: nat, d: nat): (t: seq<bv32>)
    requires |s| == 16 && Places(a, b, c, d)
    ensures |t| == 16
  {
    With(s, a, b, c, d, Quarter(QuadAt(s, a, b, c, d)))
  }

  lemma WithTwice(s: seq<bv32>, a: nat, b: nat, c: nat, d: nat, p: Quad, q: Quad)
    requires |s| == 16 && Places(a, b, c, d)
    ensures QuadAt(With(s, a, b, c, d, p), a, b, c, d) == p
    ensures With(With(s, a, b, c, d, p), a, b, c, d, q) == With(s, a, b, c, d, q)
  {
  }

  /** Half of `_quarter_round`: the same six assignments with two rotation counts. */
  method HalfRound(s: array<bv32>, a: nat, b: nat, c: nat, d: nat, n: nat, m: nat)
    requires s.Length == 16 && Places(a, b, c, d) && n < 32 && m < 32
    modifies s
    ensures s[..] == With(old(s[..]), a, b, c, d, Half(QuadAt(old(s[..]), a, b, c, d), n, m))
  {
    hide Sum32;
    hide Mixed;
    s[a] := Sum32(s[a], s[b]);
    s[d] := Mixed(s[d], s[a], n);
    s[c] := Sum32(s[c], s[d]);
    s[b] := Mixed(s[b], s[c], m);
  }

  /** `_quarter_round` */
  method QuarterRound(s: array<bv32>, a: nat, b: nat, c: nat, d: nat)
    requires s.Length == 16 && Places(a, b, c, d)
    modifies s
    ensures s[..] == QuarterAt(old(s[..]), a, b, c, d)
  {
    hide With;
    hide QuadAt;
    hide Half;
    ghost var was := s[..];
    HalfRound(s, a, b, c, d, 16, 12);
    ghost var half := Half(QuadAt(was, a, b, c, d), 16, 12);
    WithTwice(was, a, b, c, d, half, Half(half, 8, 7));
    HalfRound(s, a, b, c, d, 8, 7);
  }

  lemma ColumnsInPlace(s: seq<bv32>)
    requires |s| == 16
    ensures ToMatrix(QuarterAt(QuarterAt(QuarterAt(QuarterAt(s, 0, 4, 8, 12), 1, 5, 9, 13), 2, 6, 10, 14),
                               3, 7, 11, 15))
            == ColumnRound(ToMatrix(s))
  {
    hide Quarter;
  }

  lemma DiagonalsInPlace(s: seq<bv32>)
    requires |s| == 16
    ensures ToMatrix(QuarterAt(QuarterAt(QuarterAt(QuarterAt(s, 0, 5, 10, 15), 1, 6, 11, 12), 2, 7, 8, 13),
                               3, 4, 9, 14))
            == DiagonalRound(ToMatrix(s))
  {
    hide Quarter;
  }

  /** One double round on an array, by the eight index lists of the program. */
  method DoubleRound(s: array<bv32>)
    requires s.Length == 16
    modifies s
    ensures ToMatrix(s[..]) == DiagonalRound(ColumnRound(ToMatrix(old(s[..]))))
  {
    hide *;
    PlacesHold();
    ColumnsInPlace(s[..]);
    QuarterRound(s, 0, 4, 8, 12);
    QuarterRound(s, 1, 5, 9, 13);
    QuarterRound(s, 2, 6, 10, 14);
    QuarterRound(s, 3, 7, 11, 15);
    DiagonalsInPlace(s[..]);
    QuarterRound(s, 0, 5, 10, 15);
    QuarterRound(s, 1, 6, 11, 12);
    QuarterRound(s, 2, 7, 8, 13);
    QuarterRound(s, 3, 4, 9, 14);
  }

  lemma PlacesHold()
    ensures Places(0, 4, 8, 12) && Places(1, 5, 9, 13) && Places(2, 6, 10, 14) && Places(3, 7, 11, 15)
    ensures Places(0, 5, 10, 15) && Places(1, 6, 11, 12) && Places(2, 7, 8, 13) && Places(3, 4, 9, 14)
  {
  }

  // ---- The block function ----

  /** A word from four bytes, the lowest first. */
  function FromBytes(b0: bv8, b1: bv8, b2: bv8, b3: bv8): bv32 {
    (b0 as bv32) | ((b1 as bv32) << 8) | ((b2 as bv32) << 16) | ((b3 as bv32) << 24)
  }

  function ToBytes(v: bv32): (b: seq<bv8>)
    ensures |b| == 4
  {
    [(v & 0xff) as bv8, ((v >> 8) & 0xff) as bv8, ((v >> 16) & 0xff) as bv8, (v >> 24) as bv8]
  }

  function WordAt(b: seq<bv8>, i: nat): bv32
    requires 4 * i + 4 <= |b|
  {
    FromBytes(b[4 * i], b[4 * i + 1], b[4 * i + 2], b[4 * i + 3])
  }

  const TWO32 := 0x1_0000_0000

  function Counter(n: nat): bv32 {
    (n % TWO32) as bv32
  }

  /** Constants, key, counter, nonce. */
  function Start(key: seq<bv8>, counter: nat, nonce: seq<bv8>): (s: seq<bv32>)
    requires |key| == 32 && |nonce| == 12
    ensures |s| == 16
  {
    [0x61707865, 0x3320646e, 0x79622d32, 0x6b206574,
     WordAt(key, 0), WordAt(key, 1), WordAt(key, 2), WordAt(key, 3),
     WordAt(key, 4), WordAt(key, 5), WordAt(key, 6), WordAt(key, 7),
     Counter(counter), WordAt(nonce, 0), WordAt(nonce, 1), WordAt(nonce, 2)]
  }

  function QuadSum(p: Quad, q: Quad): Quad {
    Quad(Sum32(p.a, q.a), Sum32(p.b, q.b), Sum32(p.c, q.c), Sum32(p.d, q.d))
  }

  function QuadBytes(q: Quad): (b: seq<bv8>)
    ensures |b| == 16
  {
    ToBytes(q.a) + ToBytes(q.b) + ToBytes(q.c) + ToBytes(q.d)
  }

  function MatrixBytes(m: Matrix): (b: seq<bv8>)
    ensures |b| == 64
  {
    QuadBytes(m.r0) + QuadBytes(m.r1) + QuadBytes(m.r2) + QuadBytes(m.r3)
  }

  function MatrixSum(m: Matrix, n: Matrix): Matrix {
    Matrix(QuadSum(m.r0, n.r0), QuadSum(m.r1, n.r1), QuadSum(m.r2, n.r2), QuadSum(m.r3, n.r3))
  }

  /** Twenty rounds, the start added, sixteen words in little-endian order. */
  function BlockOf(key: seq<bv8>, counter: nat, nonce: seq<bv8>): (b: seq<bv8>)
    requires |key| == 32 && |nonce| == 12
    ensures |b| == 64
  {
    var start := ToMatrix(Start(key, counter, nonce));
    MatrixBytes(MatrixSum(Rounds(start, 10), start))
  }

  function SumsTo(working: seq<bv32>, state: seq<bv32>, n: nat): (out: seq<bv8>)
    requires |working| == |state| && n <= |state|
    ensures |out| == 4 * n
  {
    if n == 0 then [] else SumsTo(working, state, n - 1) + ToBytes(Sum32(working[n - 1], state[n - 1]))
  }

  /** `_chacha20_block` */
  method ChaCha20Block(key: seq<bv8>, counter: nat, nonce: seq<bv8>) returns (out: seq<bv8>)
    requires |key| == 32 && |nonce| == 12
    ensures out == BlockOf(key, counter, nonce)
  {
    hide *;
    var state := Start(key, counter, nonce);
    var working := new bv32[16](i requires 0 <= i < 16 => state[i]);
    assert working[..] == state;
    NoRounds(ToMatrix(state));
    for i := 0 to 10
      invariant ToMatrix(working[..]) == Rounds(ToMatrix(state), i)
    {
      RoundsNext(ToMatrix(state), i);
      DoubleRound(working);
    }
    out := [];
    ghost var mixed := working[..];
    NoSums(mixed, state);
    for i := 0 to 16
      invariant working[..] == mixed && out == SumsTo(mixed, state, i)
    {
      SumsNext(mixed, state, i);
      out := out + ToBytes(Sum32(working[i], state[i]));
    }
    SumsAll(mixed, state);
    BlockIs(key, counter, nonce);
  }

  lemma NoRounds(m: Matrix)
    ensures Rounds(m, 0) == m
  {
  }

  lemma RoundsNext(m: Matrix, n: nat)
    ensures Rounds(m, n + 1) == DiagonalRound(ColumnRound(Rounds(m, n)))
  {
    hide DiagonalRound;
    hide ColumnRound;
  }

  lemma NoSums(working: seq<bv32>, state: seq<bv32>)
    requires |working| == |state|
    ensures SumsTo(working, state, 0) == []
  {
  }

  lemma SumsNext(working: seq<bv32>, state: seq<bv32>, n: nat)
    requires |working| == |state| && n < |state|
    ensures SumsTo(working, state, n + 1) == SumsTo(working, state, n) + ToBytes(Sum32(working[n], state[n]))
  {
    hide ToBytes;
    hide Sum32;
  }

  lemma BlockIs(key: seq<bv8>, counter: nat, nonce: seq<bv8>)
    requires |key| == 32 && |nonce| == 12
    ensures var start := ToMatrix(Start(key, counter, nonce));
            BlockOf(key, counter, nonce) == MatrixBytes(MatrixSum(Rounds(start, 10), start))
  {
    hide Start;
    hide ToMatrix;
    hide Rounds;
    hide MatrixBytes;
    hide MatrixSum;
  }

  lemma SumsAll(working: seq<bv32>, state: seq<bv32>)
    requires |working| == |state| == 16
    ensures SumsTo(working, state, 16) == MatrixBytes(MatrixSum(ToMatrix(working), ToMatrix(state)))
  {
    hide *;
    var m := MatrixSum(ToMatrix(working), ToMatrix(state));
    SumIs(working, state);
    NoSums(working, state);
    FourSums(working, state, 0, m.r0);
    FourSums(working, state, 4, m.r1);
    FourSums(working, state, 8, m.r2);
    FourSums(working, state, 12, m.r3);
    InLine([], QuadBytes(m.r0), QuadBytes(m.r1), QuadBytes(m.r2), QuadBytes(m.r3));
    MatrixBytesIs(m);
  }

  lemma MatrixBytesIs(m: Matrix)
    ensures MatrixBytes(m) == [] + (QuadBytes(m.r0) + QuadBytes(m.r1) + QuadBytes(m.r2) + QuadBytes(m.r3))
  {
    hide QuadBytes;
  }

  lemma SumIs(working: seq<bv32>, state: seq<bv32>)
    requires |working| == |state| == 16
    ensures var m := MatrixSum(ToMatrix(working), ToMatrix(state));
            && m.r0 == SumFrom(working, state, 0) && m.r1 == SumFrom(working, state, 4)
            && m.r2 == SumFrom(working, state, 8) && m.r3 == SumFrom(working, state, 12)
  {
    hide Sum32;
  }

  /** Four sums in a row. */
  function SumFrom(working: seq<bv32>, state: seq<bv32>, n: nat): Quad
    requires |working| == |state| && n + 4 <= |state|
  {
    Quad(Sum32(working[n], state[n]), Sum32(working[n + 1], state[n + 1]), Sum32(working[n + 2], state[n + 2]),
         Sum32(working[n + 3], state[n + 3]))
  }

  lemma FourSums(working: seq<bv32>, state: seq<bv32>, n: nat, q: Quad)
    requires |working| == |state| && n + 4 <= |state| && q == SumFrom(working, state, n)
    ensures SumsTo(working, state, n + 4) == SumsTo(working, state, n) + QuadBytes(q)
  {
    hide ToBytes;
    hide Sum32;
    hide SumsTo;
    SumsNext(working, state, n);
    SumsNext(working, state, n + 1);
    SumsNext(working, state, n + 2);
    SumsNext(working, state, n + 3);
    InLine(SumsTo(working, state, n), ToBytes(q.a), ToBytes(q.b), ToBytes(q.c), ToBytes(q.d));
  }

  lemma InLine(s: seq<bv8>, a: seq<bv8>, b: seq<bv8>, c: seq<bv8>, d: seq<bv8>)
    ensures s + a + b + c + d == s + (a + b + c + d)
  {
  }

  // ---- The stream ----

  function XorByte(a: bv8, b: bv8): bv8 {
    a ^ b
  }

  lemma XorByteTwice(a: bv8, b: bv8)
    ensures XorByte(XorByte(a, b), b) == a
  {
  }

  /** The keystream byte at position `i`, counting blocks from `counter`. */
  function StreamByte(key: seq<bv8>, counter: nat, nonce: seq<bv8>, i: nat): bv8
    requires |key| == 32 && |nonce| == 12
  {
    BlockOf(key, counter + i / 64, nonce)[i % 64]
  }

  /** Byte by byte: the data added to the keystream. */
  function Stream(key: seq<bv8>, counter: nat, nonce: seq<bv8>, data: seq<bv8>): (out: seq<bv8>)
    requires |key| == 32 && |nonce| == 12
    ensures |out| == |data|
  {
    seq(|data|, i requires 0 <= i < |data| => XorByte(data[i], StreamByte(key, counter, nonce, i)))
  }

  lemma StreamAt(key: seq<bv8>, counter: nat, nonce: seq<bv8>, data: seq<bv8>, i: nat)
    requires |key| == 32 && |nonce| == 12 && i < |data|
    ensures Stream(key, counter, nonce, data)[i] == XorByte(data[i], StreamByte(key, counter, nonce, i))
  {
    hide StreamByte;
    hide XorByte;
  }

  /** The first 64 bytes are added to the block of the counter, the rest is the stream from the next
      counter on. */
  lemma StreamByBlocks(key: seq<bv8>, counter: nat, nonce: seq<bv8>, data: seq<bv8>)
    requires |key| == 32 && |nonce| == 12
    ensures forall i :: 0 <= i < |data| && i < 64 ==>
              Stream(key, counter, nonce, data)[i] == data[i] ^ BlockOf(key, counter, nonce)[i]
    ensures |data| >= 64 ==> Stream(key, counter, nonce, data) ==
                             Stream(key, counter, nonce, data[..64]) + Stream(key, counter + 1, nonce, data[64..])
  {
    hide BlockOf;
    forall i | 0 <= i < |data|
      ensures i < 64 ==> Stream(key, counter, nonce, data)[i] == data[i] ^ BlockOf(key, counter, nonce)[i]
      ensures i >= 64 ==> Stream(key, counter, nonce, data)[i] == Stream(key, counter + 1, nonce, data[64..])[i - 64]
    {
      StreamAt(key, counter, nonce, data, i);
      StreamByteIs(key, counter, nonce, i / 64, i % 64);
      if i >= 64 {
        StreamAt(key, counter + 1, nonce, data[64..], i - 64);
        StreamByteIs(key, counter + 1, nonce, i / 64 - 1, i % 64);
      }
    }
  }

  /** The stream is its own inverse. */
  lemma StreamTwice(key: seq<bv8>, counter: nat, nonce: seq<bv8>, data: seq<bv8>)
    requires |key| == 32 && |nonce| == 12
    ensures Stream(key, counter, nonce, Stream(key, counter, nonce, data)) == data
  {
    hide *;
    var once := Stream(key, counter, nonce, data);
    var twice := Stream(key, counter, nonce, once);
    forall i | 0 <= i < |data| ensures twice[i] == data[i] {
      StreamAt(key, counter, nonce, data, i);
      StreamAt(key, counter, nonce, once, i);
      XorByteTwice(data[i], StreamByte(key, counter, nonce, i));
    }
  }

  /** `chacha20`: one block of keystream for every 64 bytes begun. */
  method ChaCha20(key: seq<bv8>, counter: nat, nonce: seq<bv8>, data: seq<bv8>) returns (out: seq<bv8>)
    requires |key| == 32 && |nonce| == 12
    ensures out == Stream(key, counter, nonce, data)
  {
    hide *;
    var total := |data| / 64 + (if |data| % 64 != 0 then 1 else 0);
    out := [];
    for i := 0 to total
      invariant out == Stream(key, counter, nonce, data)[..if 64 * i < |data| then 64 * i else |data|]
    {
      var ks := ChaCha20Block(key, counter + i, nonce);
      var end := if 64 * (i + 1) < |data| then 64 * (i + 1) else |data|;
      var chunk := data[64 * i..end];
      var mixed := MixChunk(chunk, ks);
      ChunkOfStream(key, counter, nonce, data, i, mixed);
      SlicesJoin(Stream(key, counter, nonce, data), 64 * i, end);
      out := out + mixed;
    }
  }

  method MixChunk(chunk: seq<bv8>, ks: seq<bv8>) returns (mixed: seq<bv8>)
    requires |chunk| <= |ks|
    ensures |mixed| == |chunk| && forall j :: 0 <= j < |chunk| ==> mixed[j] == XorByte(chunk[j], ks[j])
  {
    hide *;
    mixed := [];
    for j := 0 to |chunk|
      invariant |mixed| == j && forall k :: 0 <= k < j ==> mixed[k] == XorByte(chunk[k], ks[k])
    {
      mixed := mixed + [XorByte(chunk[j], ks[j])];
    }
  }

  lemma SlicesJoin(s: seq<bv8>, i: nat, j: nat)
    requires i <= j <= |s|
    ensures s[..i] + s[i..j] == s[..j]
  {
  }

  lemma ChunkOfStream(key: seq<bv8>, counter: nat, nonce: seq<bv8>, data: seq<bv8>, i: nat, mixed: seq<bv8>)
    requires |key| == 32 && |nonce| == 12 && 64 * i < |data|
    requires |mixed| == (if 64 * (i + 1) < |data| then 64 else |data| - 64 * i)
    requires forall j :: 0 <= j < |mixed| ==> mixed[j] == XorByte(data[64 * i + j], BlockOf(key, counter + i, nonce)[j])
    ensures mixed == Stream(key, counter, nonce, data)[64 * i..64 * i + |mixed|]
  {
    hide *;
    var all := Stream(key, counter, nonce, data);
    forall j | 0 <= j < |mixed| ensures mixed[j] == all[64 * i + j] {
      StreamAt(key, counter, nonce, data, 64 * i + j);
      StreamByteIs(key, counter, nonce, i, j);
    }
  }

  lemma StreamByteIs(key: seq<bv8>, counter: nat, nonce: seq<bv8>, i: nat, j: nat)
    requires |key| == 32 && |nonce| == 12 && j < 64
    ensures StreamByte(key, counter, nonce, 64 * i + j) == BlockOf(key, counter + i, nonce)[j]
  {
    hide BlockOf;
    assert (64 * i + j) / 64 == i && (64 * i + j) % 64 == j;
  }
}
