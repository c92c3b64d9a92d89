/** Byte strings, the slices Python takes of them, and big-endian integers as `struct` packs them. */
module Bytes {
  import opened Common

  type byte = x: int | 0 <= x < 256

  /** The index a slice bound stands for in a sequence of length `n`. */
  function Bound(i: int, n: nat): (r: nat)
    ensures r <= n
  {
    if i < 0 then (if n + i < 0 then 0 else n + i) else if i > n then n else i
  }

  /** `s[a:b]`. */
  function Slice<T>(s: seq<T>, a: int, b: int): seq<T> {
    var lo, hi := Bound(a, |s|), Bound(b, |s|);
    if lo <= hi then s[lo..hi] else []
  }

  /** A slice of the middle part of a concatenation. */
  lemma SliceOfMiddle<T>(pre: seq<T>, mid: seq<T>, post: seq<T>, a: nat, b: nat)
    requires a <= b <= |mid|
    ensures Slice(pre + mid + post, |pre| + a, |pre| + b) == mid[a..b]
  {
    var s := pre + mid + post;
    assert s[|pre| + a..|pre| + b] == mid[a..b];
  }

  /** The parts of a concatenation, seen one at a time. */
  lemma SecondOf6<T>(a: seq<T>, b: seq<T>, c: seq<T>, d: seq<T>, e: seq<T>, f: seq<T>)
    ensures a + (b + c + d + e) + f == a + b + (c + d + e + f)
  {
  }

  lemma ThirdOf6<T>(a: seq<T>, b: seq<T>, c: seq<T>, d: seq<T>, e: seq<T>, f: seq<T>)
    ensures a + (b + c + d + e) + f == (a + b) + c + (d + e + f)
  {
  }

  lemma FourthOf6<T>(a: seq<T>, b: seq<T>, c: seq<T>, d: seq<T>, e: seq<T>, f: seq<T>)
    ensures a + (b + c + d + e) + f == (a + b + c) + d + (e + f)
  {
  }

  lemma FifthOf6<T>(a: seq<T>, b: seq<T>, c: seq<T>, d: seq<T>, e: seq<T>, f: seq<T>)
    ensures a + (b + c + d + e) + f == (a + b + c + d) + e + f
  {
  }

  lemma Whole<T>(s: seq<T>)
    ensures s[0..|s|] == s && s[..|s|] == s
  {
  }

  function Zeros(n: nat): (r: seq<byte>)
    ensures |r| == n
  {
    seq(n, _ => 0)
  }

  const TWO16 := 0x1_0000
  const TWO31 := 0x8000_0000
  const TWO32 := 0x1_0000_0000

  predicate IsU16(v: int) { 0 <= v < TWO16 }
  predicate IsU32(v: int) { 0 <= v < TWO32 }
  predicate IsI32(v: int) { -TWO31 <= v < TWO31 }

  function U16(v: int): (r: seq<byte>)
    requires IsU16(v)
    ensures |r| == 2
  {
    var hi: byte := v / 256;
    var lo: byte := v % 256;
    [hi, lo]
  }

  function FromU16(b: seq<byte>): (v: int)
    requires |b| == 2
    ensures IsU16(v)
  {
    (b[0] as int) * 256 + b[1] as int
  }

  function U32(v: int): (r: seq<byte>)
    requires IsU32(v)
    ensures |r| == 4
  {
    U16(v / TWO16) + U16(v % TWO16)
  }

  function FromU32(b: seq<byte>): (v: int)
    requires |b| == 4
    ensures IsU32(v)
  {
    FromU16(b[..2]) * TWO16 + FromU16(b[2..])
  }

  function I32(v: int): (r: seq<byte>)
    requires IsI32(v)
    ensures |r| == 4
  {
    U32(if v < 0 then v + TWO32 else v)
  }

  function FromI32(b: seq<byte>): (v: int)
    requires |b| == 4
    ensures IsI32(v)
  {
    var u := FromU32(b);
    if u >= TWO31 then u - TWO32 else u
  }

  lemma U16RoundTrip(v: int)
    requires IsU16(v)
    ensures FromU16(U16(v)) == v
  {
  }

  lemma U32RoundTrip(v: int)
    requires IsU32(v)
    ensures FromU32(U32(v)) == v
  {
    assert U32(v)[..2] == U16(v / TWO16) && U32(v)[2..] == U16(v % TWO16);
    U16RoundTrip(v / TWO16);
    U16RoundTrip(v % TWO16);
  }

  lemma I32RoundTrip(v: int)
    requires IsI32(v)
    ensures FromI32(I32(v)) == v
  {
    U32RoundTrip(if v < 0 then v + TWO32 else v);
  }
}
