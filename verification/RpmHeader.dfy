/** The RPM header structure: the writer of rpm_builder.py and the reader of verify_rpm.py.

    A header is a magic, two counts, an index of 16-byte records and a store of data that the
    records point into (section 22.2 of LSB Core 3.1). Writer and reader were written apart and
    share only constants. Strings are byte strings here; their UTF-8 encoding is not modelled. */
module RpmHeader {
  import opened Common
  import opened Bytes
  import opened Ordering

  const MAGIC: seq<byte> := [0x8e, 0xad, 0xe8, 0x01]
  const TYPE_INT16 := 3
  const TYPE_INT32 := 4
  const TYPE_STRING := 6
  const TYPE_BINARY := 7
  const TYPE_STRING_ARRAY := 8

  /** What a tag stands for. */
  datatype Value =
    | Int16s(shorts: seq<int>)
    | Int32s(ints: seq<int>)
    | Str(text: seq<byte>)
    | Strs(texts: seq<seq<byte>>)
    | Bin(raw: seq<byte>)

  datatype Entry = Entry(typ: int, count: nat, data: seq<byte>)

  datatype Index = Index(tag: int, typ: int, off: int, count: int)

  // ---- Writer: values to entries ----

  predicate Packable(v: Value) {
    match v
    case Int16s(vs) => forall i :: 0 <= i < |vs| ==> IsU16(vs[i])
    case Int32s(vs) => forall i :: 0 <= i < |vs| ==> IsU32(vs[i])
    case _ => true
  }

  function PackShorts(vs: seq<int>): (r: seq<byte>)
    requires forall i :: 0 <= i < |vs| ==> IsU16(vs[i])
    ensures |r| == 2 * |vs|
  {
    if vs == [] then [] else U16(vs[0]) + PackShorts(vs[1..])
  }

  function PackInts(vs: seq<int>): (r: seq<byte>)
    requires forall i :: 0 <= i < |vs| ==> IsU32(vs[i])
    ensures |r| == 4 * |vs|
  {
    if vs == [] then [] else U32(vs[0]) + PackInts(vs[1..])
  }

  /** `b"\0".join(texts)`. */
  function JoinNul(texts: seq<seq<byte>>): seq<byte> {
    if texts == [] then []
    else if |texts| == 1 then texts[0]
    else texts[0] + [0] + JoinNul(texts[1..])
  }

  function EntryOf(v: Value): Entry
    requires Packable(v)
  {
    match v
    case Int16s(vs) => Entry(TYPE_INT16, |vs|, PackShorts(vs))
    case Int32s(vs) => Entry(TYPE_INT32, |vs|, PackInts(vs))
    case Str(s) => Entry(TYPE_STRING, 1, s + [0])
    case Strs(ss) => Entry(TYPE_STRING_ARRAY, |ss|, JoinNul(ss) + [0])
    case Bin(b) => Entry(TYPE_BINARY, |b|, b)
  }

  function BoundaryOf(typ: int): nat {
    if typ == TYPE_INT16 then 2 else if typ == TYPE_INT32 then 4 else 1
  }

  function Pad(len: nat, boundary: nat): nat
    requires boundary > 0
  {
    if len % boundary != 0 then boundary - len % boundary else 0
  }

  /** The store and the offset of every entry. */
  datatype Layout = Layout(store: seq<byte>, offsets: seq<nat>)

  function LayoutOf(es: seq<Entry>): (l: Layout)
    ensures |l.offsets| == |es|
  {
    if es == [] then Layout([], [])
    else
      var before, e := LayoutOf(es[..|es| - 1]), es[|es| - 1];
      var padded := before.store + Zeros(Pad(|before.store|, BoundaryOf(e.typ)));
      Layout(padded + e.data, before.offsets + [|padded|])
  }

  function Trailer(regionTag: int, n: nat): Index {
    Index(regionTag, TYPE_BINARY, -16 * (n + 1), 16)
  }

  predicate Fits(i: Index) {
    IsI32(i.tag) && IsI32(i.typ) && IsI32(i.off) && IsI32(i.count)
  }

  predicate AllFit(records: seq<Index>) {
    forall k :: 0 <= k < |records| ==> Fits(records[k])
  }

  function Pack(i: Index): (r: seq<byte>)
    requires Fits(i)
    ensures |r| == 16
  {
    I32(i.tag) + I32(i.typ) + I32(i.off) + I32(i.count)
  }

  function PackAll(records: seq<Index>): (r: seq<byte>)
    requires AllFit(records)
    ensures |r| == 16 * |records|
  {
    if records == [] then [] else PackAll(records[..|records| - 1]) + Pack(records[|records| - 1])
  }

  // ---- Writer: the header ----

  function EntriesOf(entries: map<int, Entry>, tags: seq<int>): (es: seq<Entry>)
    requires forall k :: 0 <= k < |tags| ==> tags[k] in entries
    ensures |es| == |tags|
  {
    seq(|tags|, k requires 0 <= k < |tags| => entries[tags[k]])
  }

  function Records(tags: seq<int>, es: seq<Entry>, offsets: seq<nat>): (r: seq<Index>)
    requires |tags| == |es| == |offsets|
    ensures |r| == |tags|
  {
    seq(|tags|, k requires 0 <= k < |tags| => Index(tags[k], es[k].typ, offsets[k], es[k].count))
  }

  /** The region record stands first in the index, its body last in the store. */
  function HeaderIndex(tags: seq<int>, es: seq<Entry>, regionTag: int): (r: seq<Index>)
    requires |tags| == |es|
    ensures |r| == |tags| + 1
  {
    [Index(regionTag, TYPE_BINARY, |LayoutOf(es).store|, 16)] + Records(tags, es, LayoutOf(es).offsets)
  }

  /** Every number has room in its field; otherwise `struct.pack` raises. */
  predicate HeaderFits(tags: seq<int>, es: seq<Entry>, regionTag: int)
    requires |tags| == |es|
  {
    && AllFit(HeaderIndex(tags, es, regionTag))
    && Fits(Trailer(regionTag, |tags|))
    && IsU32(|tags| + 1) && IsU32(|LayoutOf(es).store| + 16)
  }

  function Store(es: seq<Entry>, regionTag: int): seq<byte>
    requires Fits(Trailer(regionTag, |es|))
  {
    LayoutOf(es).store + Pack(Trailer(regionTag, |es|))
  }

  /** Magic, four reserved bytes, the two counts, the index, the store. */
  function HeaderText(index: seq<Index>, store: seq<byte>): seq<byte>
    requires AllFit(index) && IsU32(|index|) && IsU32(|store|)
  {
    MAGIC + Zeros(4) + (U32(|index|) + U32(|store|)) + PackAll(index) + store
  }

  function Header(tags: seq<int>, es: seq<Entry>, regionTag: int): seq<byte>
    requires |tags| == |es| && HeaderFits(tags, es, regionTag)
  {
    HeaderText(HeaderIndex(tags, es, regionTag), Store(es, regionTag))
  }

  // ---- Reader ----

  function Unpack(b: seq<byte>): (i: Index)
    requires |b| == 16
    ensures Fits(i)
  {
    Index(FromI32(b[..4]), FromI32(b[4..8]), FromI32(b[8..12]), FromI32(b[12..]))
  }

  /** `count` records from `pos` on; `None` when the data ends inside one. */
  function ReadIndex(data: seq<byte>, pos: nat, count: nat): (r: Option<seq<Index>>)
    ensures r.Some? ==> |r.value| == count
    decreases count
  {
    if count == 0 then Some([])
    else
      var front := ReadIndex(data, pos, count - 1);
      var bytes := Slice(data, pos + 16 * (count - 1), pos + 16 * count);
      if front.None? || |bytes| != 16 then None else Some(front.value + [Unpack(bytes)])
  }

  datatype Parsed = Parsed(index: seq<Index>, store: seq<byte>, end: nat)

  function ParseHeader(data: seq<byte>, offset: nat): Option<Parsed> {
    var counts := Slice(data, offset + 8, offset + 16);
    if Slice(data, offset, offset + 4) != MAGIC || |counts| != 8 then None
    else
      var count, size := FromU32(counts[..4]), FromU32(counts[4..]);
      var index := ReadIndex(data, offset + 16, count);
      var pos := offset + 16 + 16 * count;
      if index.None? then None else Some(Parsed(index.value, Slice(data, pos, pos + size), pos + size))
  }

  /** One decoded record: the reader raises, ignores the record, or has a value for its tag. */
  datatype Field = Raises | Ignored | Got(value: Value)

  function UpToNul(s: seq<byte>): (r: seq<byte>)
    ensures 0 !in r && r <= s && (|r| < |s| ==> s[|r|] == 0)
  {
    if s == [] || s[0] == 0 then [] else [s[0]] + UpToNul(s[1..])
  }

  /** `count` strings from `p` on, each closed by a NUL; `None` when one is not. */
  function ReadStrings(store: seq<byte>, p: nat, count: int): (r: Option<seq<seq<byte>>>)
    requires p <= |store|
    ensures r.Some? ==> forall k :: 0 <= k < |r.value| ==> 0 !in r.value[k]
    decreases if count < 0 then 0 else count
  {
    if count <= 0 then Some([])
    else
      var v := UpToNul(store[p..]);
      if p + |v| == |store| then None
      else
        var rest := ReadStrings(store, p + |v| + 1, count - 1);
        if rest.None? then None else Some([v] + rest.value)
  }

  function UnpackShorts(b: seq<byte>): seq<int>
    requires |b| % 2 == 0
  {
    if b == [] then [] else [FromU16(b[..2])] + UnpackShorts(b[2..])
  }

  function UnpackInts(b: seq<byte>): seq<int>
    requires |b| % 4 == 0
  {
    if b == [] then [] else [FromU32(b[..4])] + UnpackInts(b[4..])
  }

  function AtLeast0(n: int): nat {
    if n < 0 then 0 else n
  }

  function DecodeOne(i: Index, store: seq<byte>): Field {
    if i.off < 0 || i.off >= |store| then Ignored
    else if i.typ == TYPE_STRING then Got(Str(UpToNul(store[i.off..])))
    else if i.typ == TYPE_STRING_ARRAY then
      var texts := ReadStrings(store, i.off, i.count);
      if texts.None? then Raises else Got(Strs(texts.value))
    else if i.typ == TYPE_INT32 then
      var b := Slice(store, i.off, i.off + 4 * i.count);
      if |b| != 4 * AtLeast0(i.count) then Raises else Got(Int32s(UnpackInts(b)))
    else if i.typ == TYPE_INT16 then
      var b := Slice(store, i.off, i.off + 2 * i.count);
      if |b| != 2 * AtLeast0(i.count) then Raises else Got(Int16s(UnpackShorts(b)))
    else if i.typ == TYPE_BINARY then Got(Bin(Slice(store, i.off, i.off + i.count)))
    else Ignored
  }

  function Decode(index: seq<Index>, store: seq<byte>): Option<map<int, Value>> {
    if index == [] then Some(map[])
    else
      var i := index[|index| - 1];
      var before := Decode(index[..|index| - 1], store);
      if before.None? then None
      else match DecodeOne(i, store)
        case Raises => None
        case Ignored => before
        case Got(v) => Some(before.value[i.tag := v])
  }

  // ---- Values come back ----

  predicate NulFree(v: Value) {
    match v
    case Str(s) => 0 !in s
    case Strs(ss) => forall k :: 0 <= k < |ss| ==> 0 !in ss[k]
    case _ => true
  }

  lemma {:induction false} IntsRoundTrip(vs: seq<int>)
    requires forall i :: 0 <= i < |vs| ==> IsU32(vs[i])
    ensures UnpackInts(PackInts(vs)) == vs
  {
    if vs != [] {
      U32RoundTrip(vs[0]);
      IntsRoundTrip(vs[1..]);
      assert PackInts(vs)[..4] == U32(vs[0]) && PackInts(vs)[4..] == PackInts(vs[1..]);
    }
  }

  lemma {:induction false} ShortsRoundTrip(vs: seq<int>)
    requires forall i :: 0 <= i < |vs| ==> IsU16(vs[i])
    ensures UnpackShorts(PackShorts(vs)) == vs
  {
    if vs != [] {
      U16RoundTrip(vs[0]);
      ShortsRoundTrip(vs[1..]);
      assert PackShorts(vs)[..2] == U16(vs[0]) && PackShorts(vs)[2..] == PackShorts(vs[1..]);
    }
  }

  lemma {:induction false} UpToNulStops(s: seq<byte>, rest: seq<byte>)
    requires 0 !in s
    ensures UpToNul(s + [0] + rest) == s
  {
    if s != [] {
      assert (s + [0] + rest)[1..] == s[1..] + [0] + rest;
      UpToNulStops(s[1..], rest);
      assert s == [s[0]] + s[1..];
    }
  }

  lemma {:induction false} StringsRoundTrip(pre: seq<byte>, ss: seq<seq<byte>>, post: seq<byte>)
    requires ss != [] && forall k :: 0 <= k < |ss| ==> 0 !in ss[k]
    ensures ReadStrings(pre + (JoinNul(ss) + [0]) + post, |pre|, |ss|) == Some(ss)
    decreases |ss|
  {
    JoinUnfolds(ss);
    hide *;
    StringStep(pre, ss[0], JoinedRest(ss), post, |ss|);
    if |ss| > 1 {
      StringsRoundTrip(pre + ss[0] + [0], ss[1..], post);
      assert ss == [ss[0]] + ss[1..];
    } else {
      NothingLeft(pre + ss[0] + [0] + JoinedRest(ss) + post, |pre + ss[0] + [0]|);
      assert [ss[0]] + [] == ss;
    }
  }

  /** What follows the first string and its terminator. */
  function JoinedRest(ss: seq<seq<byte>>): seq<byte> {
    if |ss| <= 1 then [] else JoinNul(ss[1..]) + [0]
  }

  lemma JoinUnfolds(ss: seq<seq<byte>>)
    requires ss != []
    ensures JoinNul(ss) + [0] == ss[0] + [0] + JoinedRest(ss)
    ensures |ss| > 1 ==> JoinedRest(ss) == JoinNul(ss[1..]) + [0]
  {
  }

  lemma NothingLeft(store: seq<byte>, p: nat)
    requires p <= |store|
    ensures ReadStrings(store, p, 0) == Some([])
  {
  }

  lemma StringStep(pre: seq<byte>, s: seq<byte>, more: seq<byte>, post: seq<byte>, count: nat)
    requires count > 0 && 0 !in s
    ensures var rest := ReadStrings(pre + s + [0] + more + post, |pre + s + [0]|, count - 1);
            ReadStrings(pre + (s + [0] + more) + post, |pre|, count) ==
            if rest.None? then None else Some([s] + rest.value)
  {
    var store := pre + (s + [0] + more) + post;
    assert store[|pre|..] == s + [0] + (more + post);
    UpToNulStops(s, more + post);
    assert store == pre + s + [0] + more + post;
  }

  function Nuls(s: seq<byte>): nat {
    if s == [] then 0 else (if s[0] == 0 then 1 else 0) + Nuls(s[1..])
  }

  lemma {:induction false} NulsAppend(a: seq<byte>, b: seq<byte>)
    ensures Nuls(a + b) == Nuls(a) + Nuls(b)
  {
    if a == [] {
      assert a + b == b;
    } else {
      assert (a + b)[1..] == a[1..] + b;
      NulsAppend(a[1..], b);
    }
  }

  lemma {:induction false} NoNuls(s: seq<byte>)
    requires 0 !in s
    ensures Nuls(s) == 0
  {
    if s != [] {
      NoNuls(s[1..]);
    }
  }

  lemma {:induction false} JoinHasNuls(ss: seq<seq<byte>>)
    ensures Nuls(JoinNul(ss)) >= |ss| - 1
  {
    if |ss| > 1 {
      JoinHasNuls(ss[1..]);
      NulsAppend(ss[0] + [0], JoinNul(ss[1..]));
      NulsAppend(ss[0], [0]);
      assert Nuls([0]) == 1 + Nuls([0][1..]);
    }
  }

  /** As many strings can be read as there are terminators. */
  lemma {:induction false} EnoughNulsRead(store: seq<byte>, p: nat, count: int)
    requires p <= |store| && count <= Nuls(store[p..])
    ensures ReadStrings(store, p, count).Some?
    decreases if count < 0 then 0 else count
  {
    if count > 0 {
      var rest := store[p..];
      var v := UpToNul(rest);
      NoNuls(v);
      assert |v| == |rest| ==> v == rest;
      if p + |v| < |store| {
        assert rest == v + ([0] + store[p + |v| + 1..]);
        NulsAppend(v, [0] + store[p + |v| + 1..]);
        assert ([0] + store[p + |v| + 1..])[1..] == store[p + |v| + 1..];
        EnoughNulsRead(store, p + |v| + 1, count - 1);
      }
    }
  }

  lemma StringsAlwaysRead(pre: seq<byte>, ss: seq<seq<byte>>, post: seq<byte>)
    ensures var r := ReadStrings(pre + (JoinNul(ss) + [0]) + post, |pre|, |ss|);
            r.Some? && (r == Some(ss) <==> NulFree(Strs(ss)))
  {
    var store := pre + (JoinNul(ss) + [0]) + post;
    assert store[|pre|..] == JoinNul(ss) + ([0] + post);
    JoinHasNuls(ss);
    NulsAppend(JoinNul(ss), [0] + post);
    assert ([0] + post)[1..] == post;
    EnoughNulsRead(store, |pre|, |ss|);
    if ss != [] && NulFree(Strs(ss)) {
      StringsRoundTrip(pre, ss, post);
    }
  }

  /** A value's data anywhere in a store, with something behind it, is read back as the value
      exactly when its strings hold no NUL. */
  lemma ValueRoundTrip(tag: int, v: Value, pre: seq<byte>, post: seq<byte>)
    requires Packable(v) && post != []
    ensures var e := EntryOf(v);
            DecodeOne(Index(tag, e.typ, |pre|, e.count), pre + e.data + post) == Got(v) <==> NulFree(v)
    ensures var e := EntryOf(v);
            DecodeOne(Index(tag, e.typ, |pre|, e.count), pre + e.data + post).Got?
  {
    var e := EntryOf(v);
    var store := pre + e.data + post;
    SliceOfMiddle(pre, e.data, post, 0, |e.data|);
    assert e.data[0..|e.data|] == e.data;
    match v
    case Int16s(vs) => ShortsRoundTrip(vs);
    case Int32s(vs) => IntsRoundTrip(vs);
    case Str(s) => TextRoundTrip(tag, s, pre, post);
    case Strs(ss) => StringsAlwaysRead(pre, ss, post);
    case Bin(b) =>
  }

  lemma TextRoundTrip(tag: int, s: seq<byte>, pre: seq<byte>, post: seq<byte>)
    requires post != []
    ensures var f := DecodeOne(Index(tag, TYPE_STRING, |pre|, 1), pre + (s + [0]) + post);
            f.Got? && (f == Got(Str(s)) <==> 0 !in s)
  {
    var store := pre + (s + [0]) + post;
    assert store[|pre|..] == s + [0] + post;
    if 0 !in s {
      UpToNulStops(s, post);
    }
  }

  // ---- Where the writer puts things ----

  /** Every entry's data stands in the store at its offset, and integers stand aligned. */
  lemma {:induction false} LayoutAt(es: seq<Entry>, k: nat) returns (pre: seq<byte>, post: seq<byte>)
    requires k < |es|
    ensures var l := LayoutOf(es);
            l.store == pre + es[k].data + post && |pre| == l.offsets[k] && l.offsets[k] % BoundaryOf(es[k].typ) == 0
    decreases |es|
  {
    var before, e := LayoutOf(es[..|es| - 1]), es[|es| - 1];
    var padded := before.store + Zeros(Pad(|before.store|, BoundaryOf(e.typ)));
    if k == |es| - 1 {
      pre, post := padded, [];
      PadAligns(|before.store|, BoundaryOf(e.typ));
      assert padded + e.data + [] == padded + e.data;
    } else {
      var p, q := LayoutAt(es[..|es| - 1], k);
      pre, post := p, q + Zeros(Pad(|before.store|, BoundaryOf(e.typ))) + e.data;
      assert LayoutOf(es).store == pre + es[k].data + post;
    }
  }

  lemma PadAligns(len: nat, boundary: nat)
    requires boundary in {1, 2, 4}
    ensures (len + Pad(len, boundary)) % boundary == 0 && Pad(len, boundary) < boundary
  {
  }

  lemma RecordRoundTrip(i: Index)
    requires Fits(i)
    ensures Unpack(Pack(i)) == i
  {
    I32RoundTrip(i.tag);
    I32RoundTrip(i.typ);
    I32RoundTrip(i.off);
    I32RoundTrip(i.count);
    var b := Pack(i);
    hide I32;
    hide FromI32;
    assert b[..4] == I32(i.tag) && b[4..8] == I32(i.typ) && b[8..12] == I32(i.off) && b[12..] == I32(i.count);
  }

  lemma {:induction false} PackAllAt(records: seq<Index>, k: nat)
    requires k < |records| && AllFit(records)
    ensures PackAll(records)[16 * k..16 * k + 16] == Pack(records[k])
    decreases |records|
  {
    hide Pack;
    hide Fits;
    var front := records[..|records| - 1];
    if k < |front| {
      PackAllAt(front, k);
      assert PackAll(records)[16 * k..16 * k + 16] == PackAll(front)[16 * k..16 * k + 16];
    }
  }

  /** The index is read back record by record, wherever it stands in the data. */
  lemma {:induction false} IndexRoundTrip(pre: seq<byte>, records: seq<Index>, post: seq<byte>, m: nat)
    requires m <= |records| && AllFit(records)
    ensures ReadIndex(pre + PackAll(records) + post, |pre|, m) == Some(records[..m])
    decreases m
  {
    hide Pack;
    hide Unpack;
    hide Fits;
    hide PackAll;
    hide Slice;
    if m > 0 {
      IndexRoundTrip(pre, records, post, m - 1);
      SliceOfMiddle(pre, PackAll(records), post, 16 * (m - 1), 16 * m);
      PackAllAt(records, m - 1);
      assert Fits(records[m - 1]);
      RecordRoundTrip(records[m - 1]);
      assert records[..m] == records[..m - 1] + [records[m - 1]];
    }
  }

  /** Parsing at the place where a header was put finds its index and its store, and the end it
      reports is exactly where the header ends. */
  lemma HeaderRoundTrip(pre: seq<byte>, tags: seq<int>, es: seq<Entry>, regionTag: int, post: seq<byte>)
    requires |tags| == |es| && HeaderFits(tags, es, regionTag) && Fits(Trailer(regionTag, |es|))
    ensures ParseHeader(pre + Header(tags, es, regionTag) + post, |pre|) ==
            Some(Parsed(HeaderIndex(tags, es, regionTag), Store(es, regionTag), |pre| + |Header(tags, es, regionTag)|))
  {
    hide *;
    HeaderIs(tags, es, regionTag);
    HeaderTextParses(pre, HeaderIndex(tags, es, regionTag), Store(es, regionTag), post);
  }

  lemma HeaderTextParses(pre: seq<byte>, index: seq<Index>, store: seq<byte>, post: seq<byte>)
    requires AllFit(index) && IsU32(|index|) && IsU32(|store|)
    ensures ParseHeader(pre + HeaderText(index, store) + post, |pre|) ==
            Some(Parsed(index, store, |pre| + |HeaderText(index, store)|))
  {
    hide *;
    var counts := U32(|index|) + U32(|store|);
    HeaderTextIs(index, store);
    CountsRoundTrip(|index|, |store|);
    MagicFirst();
    HeaderParses(pre, MAGIC + Zeros(4), counts, index, store, post);
  }

  lemma HeaderParses(pre: seq<byte>, head: seq<byte>, counts: seq<byte>, index: seq<Index>, store: seq<byte>,
                     post: seq<byte>)
    requires |head| == 8 && head[..4] == MAGIC && |counts| == 8
    requires FromU32(counts[..4]) == |index| && FromU32(counts[4..]) == |store|
    requires AllFit(index)
    ensures ParseHeader(pre + (head + counts + PackAll(index) + store) + post, |pre|) ==
            Some(Parsed(index, store, |pre| + 16 + 16 * |index| + |store|))
  {
    hide *;
    HeaderParts(pre, head, counts, index, store, post);
    ParseIs(pre + (head + counts + PackAll(index) + store) + post, |pre|, counts, index, store);
  }

  lemma ParseIs(data: seq<byte>, offset: nat, counts: seq<byte>, index: seq<Index>, store: seq<byte>)
    requires Slice(data, offset, offset + 4) == MAGIC && Slice(data, offset + 8, offset + 16) == counts && |counts| == 8
    requires FromU32(counts[..4]) == |index| && FromU32(counts[4..]) == |store|
    requires ReadIndex(data, offset + 16, |index|) == Some(index)
    requires Slice(data, offset + 16 + 16 * |index|, offset + 16 + 16 * |index| + |store|) == store
    ensures ParseHeader(data, offset) == Some(Parsed(index, store, offset + 16 + 16 * |index| + |store|))
  {
    hide Slice;
    hide ReadIndex;
    hide FromU32;
  }

  lemma HeaderTextIs(index: seq<Index>, store: seq<byte>)
    requires AllFit(index) && IsU32(|index|) && IsU32(|store|)
    ensures HeaderText(index, store) == MAGIC + Zeros(4) + (U32(|index|) + U32(|store|)) + PackAll(index) + store
    ensures |HeaderText(index, store)| == 16 + 16 * |index| + |store|
  {
    hide AllFit;
    hide U32;
  }

  lemma MagicFirst()
    ensures |MAGIC + Zeros(4)| == 8 && (MAGIC + Zeros(4))[..4] == MAGIC
  {
  }

  lemma CountsRoundTrip(a: int, b: int)
    requires IsU32(a) && IsU32(b)
    ensures var counts := U32(a) + U32(b);
            FromU32(counts[..4]) == a && FromU32(counts[4..]) == b
  {
    U32RoundTrip(a);
    U32RoundTrip(b);
    hide U32;
    hide FromU32;
    var counts := U32(a) + U32(b);
    assert counts[..4] == U32(a) && counts[4..] == U32(b);
  }

  lemma HeaderIs(tags: seq<int>, es: seq<Entry>, regionTag: int)
    requires |tags| == |es| && HeaderFits(tags, es, regionTag)
    ensures var index, store := HeaderIndex(tags, es, regionTag), Store(es, regionTag);
            && AllFit(index) && IsU32(|index|) && IsU32(|store|)
            && Header(tags, es, regionTag) == HeaderText(index, store)
  {
    hide AllFit;
    hide HeaderIndex;
    hide LayoutOf;
    hide Pack;
    hide HeaderText;
  }

  lemma HeaderParts(pre: seq<byte>, head: seq<byte>, counts: seq<byte>, index: seq<Index>, store: seq<byte>,
                    post: seq<byte>)
    requires |head| == 8 && |counts| == 8 && AllFit(index)
    ensures var data := pre + (head + counts + PackAll(index) + store) + post;
            && Slice(data, |pre|, |pre| + 4) == head[..4]
            && Slice(data, |pre| + 8, |pre| + 16) == counts
            && ReadIndex(data, |pre| + 16, |index|) == Some(index)
            && Slice(data, |pre| + 16 + 16 * |index|, |pre| + 16 + 16 * |index| + |store|) == store
  {
    hide *;
    var rest := PackAll(index);
    SecondOf6(pre, head, counts, rest, store, post);
    SliceOfMiddle(pre, head, counts + rest + store + post, 0, 4);
    ThirdOf6(pre, head, counts, rest, store, post);
    SliceOfMiddle(pre + head, counts, rest + store + post, 0, 8);
    Whole(counts);
    FourthOf6(pre, head, counts, rest, store, post);
    IndexRoundTrip(pre + head + counts, index, store + post, |index|);
    Whole(index);
    FifthOf6(pre, head, counts, rest, store, post);
    SliceOfMiddle(pre + head + counts + rest, store, post, 0, |store|);
    Whole(store);
  }

  // ---- The decoded map ----

  predicate AllIn(tags: seq<int>, m: map<int, Value>) {
    forall j :: 0 <= j < |tags| ==> tags[j] in m
  }

  predicate AllPackable(m: map<int, Value>) {
    forall t :: t in m ==> Packable(m[t])
  }

  predicate AllNulFree(m: map<int, Value>) {
    forall t :: t in m ==> NulFree(m[t])
  }

  predicate Rising(tags: seq<int>) {
    forall i, j :: 0 <= i < j < |tags| ==> tags[i] < tags[j]
  }

  /** `es` are the entries of the tags `tags` of `m`. */
  predicate Laid(m: map<int, Value>, tags: seq<int>, es: seq<Entry>, regionTag: int) {
    && |tags| == |es| && AllIn(tags, m) && Fits(Trailer(regionTag, |tags|))
    && forall j :: 0 <= j < |tags| ==> Packable(m[tags[j]]) && es[j] == EntryOf(m[tags[j]])
  }

  /** The tag map of a package as entries. */
  function Entries(m: map<int, Value>): (r: map<int, Entry>)
    requires AllPackable(m)
  {
    map t | t in m :: EntryOf(m[t])
  }

  /** The region's own record decodes to the trailer. */
  function Region(regionTag: int, n: nat): map<int, Value>
    requires Fits(Trailer(regionTag, n))
  {
    map[regionTag := Bin(Pack(Trailer(regionTag, n)))]
  }

  /** The region and the first `k` tags. */
  function FirstTags(m: map<int, Value>, tags: seq<int>, regionTag: int, k: nat): (r: map<int, Value>)
    requires k <= |tags| && AllIn(tags, m) && Fits(Trailer(regionTag, |tags|))
  {
    if k == 0 then Region(regionTag, |tags|)
    else FirstTags(m, tags, regionTag, k - 1)[tags[k - 1] := m[tags[k - 1]]]
  }

  lemma {:induction false} FirstTagsAre(m: map<int, Value>, tags: seq<int>, regionTag: int, k: nat)
    requires k <= |tags| && AllIn(tags, m) && Fits(Trailer(regionTag, |tags|))
    ensures var r := FirstTags(m, tags, regionTag, k);
            && (forall t :: t in r <==> t == regionTag || t in tags[..k])
            && (forall t :: t in tags[..k] ==> r[t] == m[t])
            && (regionTag !in tags[..k] ==> r[regionTag] == Region(regionTag, |tags|)[regionTag])
  {
    if k > 0 {
      FirstTagsAre(m, tags, regionTag, k - 1);
      assert tags[..k] == tags[..k - 1] + [tags[k - 1]];
    }
  }

  lemma AllTagsAre(m: map<int, Value>, tags: seq<int>, regionTag: int)
    requires (forall t :: t in tags <==> t in m) && AllIn(tags, m) && Fits(Trailer(regionTag, |tags|))
    ensures FirstTags(m, tags, regionTag, |tags|) == Region(regionTag, |tags|) + m
  {
    FirstTagsAre(m, tags, regionTag, |tags|);
    assert tags[..|tags|] == tags;
    hide Pack;
    hide FirstTags;
    var r, e := FirstTags(m, tags, regionTag, |tags|), Region(regionTag, |tags|) + m;
    forall t ensures t in r <==> t in e {
    }
    forall t | t in e ensures r[t] == e[t] {
    }
  }

  /** The k-th record decodes to its tag's value exactly when the value's strings hold no NUL, and
      to some value in any case. */
  lemma RecordDecodes(m: map<int, Value>, tags: seq<int>, es: seq<Entry>, regionTag: int, k: nat)
    requires |tags| == |es| && Fits(Trailer(regionTag, |tags|)) && Laid(m, tags, es, regionTag) && k < |tags|
             && tags[k] in m
    ensures var f := DecodeOne(HeaderIndex(tags, es, regionTag)[k + 1], Store(es, regionTag));
            f.Got? && (f == Got(m[tags[k]]) <==> NulFree(m[tags[k]]))
  {
    hide *;
    LaidAt(m, tags, es, regionTag, k);
    var pre, post := LayoutAt(es, k);
    var trailer := Pack(Trailer(regionTag, |tags|));
    var data := es[k].data;
    RecordIs(tags, es, regionTag, k);
    assert pre + data + post + trailer == pre + data + (post + trailer);
    StoreIs(es, regionTag);
    ValueRoundTrip(tags[k], m[tags[k]], pre, post + trailer);
  }

  lemma LaidAt(m: map<int, Value>, tags: seq<int>, es: seq<Entry>, regionTag: int, k: nat)
    requires Laid(m, tags, es, regionTag) && k < |tags|
    ensures |tags| == |es| && Fits(Trailer(regionTag, |tags|))
    ensures tags[k] in m && Packable(m[tags[k]]) && es[k] == EntryOf(m[tags[k]])
  {
    hide Packable;
    hide EntryOf;
  }

  lemma RecordIs(tags: seq<int>, es: seq<Entry>, regionTag: int, k: nat)
    requires |tags| == |es| && k < |tags|
    ensures HeaderIndex(tags, es, regionTag)[0].tag == regionTag
    ensures HeaderIndex(tags, es, regionTag)[k + 1] ==
            Index(tags[k], es[k].typ, LayoutOf(es).offsets[k], es[k].count)
  {
    hide LayoutOf;
  }

  lemma StoreIs(es: seq<Entry>, regionTag: int)
    requires Fits(Trailer(regionTag, |es|))
    ensures Store(es, regionTag) == LayoutOf(es).store + Pack(Trailer(regionTag, |es|))
  {
  }

  lemma RegionDecodes(tags: seq<int>, es: seq<Entry>, regionTag: int)
    requires |tags| == |es| && Fits(Trailer(regionTag, |tags|))
    ensures DecodeOne(HeaderIndex(tags, es, regionTag)[0], Store(es, regionTag)) ==
            Got(Bin(Pack(Trailer(regionTag, |tags|))))
  {
    var l, trailer := LayoutOf(es).store, Pack(Trailer(regionTag, |tags|));
    assert HeaderIndex(tags, es, regionTag)[0] == Index(regionTag, TYPE_BINARY, |l|, 16);
    assert Store(es, regionTag) == l + trailer;
    assert l + trailer + [] == l + trailer;
    SliceOfMiddle(l, trailer, [], 0, 16);
    Whole(trailer);
    hide Pack;
    hide LayoutOf;
    hide Slice;
  }

  lemma DecodeSnoc(index: seq<Index>, k: nat, store: seq<byte>)
    requires k < |index| && DecodeOne(index[k], store).Got?
    ensures Decode(index[..k + 1], store) ==
            var before := Decode(index[..k], store);
            if before.None? then None else Some(before.value[index[k].tag := DecodeOne(index[k], store).value])
  {
    hide DecodeOne;
    assert index[..k + 1][..k] == index[..k];
  }

  /** The reader's map after the region and the first `k` tags. */
  function DecodedFirst(tags: seq<int>, es: seq<Entry>, regionTag: int, k: nat): Option<map<int, Value>>
    requires |tags| == |es| && k <= |tags| && Fits(Trailer(regionTag, |tags|))
  {
    Decode(HeaderIndex(tags, es, regionTag)[..k + 1], Store(es, regionTag))
  }

  lemma DecodedNone(tags: seq<int>, es: seq<Entry>, regionTag: int)
    requires |tags| == |es| && Fits(Trailer(regionTag, |tags|))
    ensures DecodedFirst(tags, es, regionTag, 0) == Some(map[][regionTag := Bin(Pack(Trailer(regionTag, |tags|)))])
  {
    RegionIsFirst(tags, es, regionTag);
    RegionDecodes(tags, es, regionTag);
    hide Decode;
    hide DecodeOne;
    hide HeaderIndex;
    hide Pack;
    DecodeSnoc(HeaderIndex(tags, es, regionTag), 0, Store(es, regionTag));
    DecodeNothing(HeaderIndex(tags, es, regionTag), Store(es, regionTag));
  }

  lemma DecodedOneMore(m: map<int, Value>, tags: seq<int>, es: seq<Entry>, regionTag: int, k: nat)
    requires |tags| == |es| && Fits(Trailer(regionTag, |tags|)) && Laid(m, tags, es, regionTag) && k < |tags|
    requires tags[k] in m && NulFree(m[tags[k]])
    ensures var before := DecodedFirst(tags, es, regionTag, k);
            DecodedFirst(tags, es, regionTag, k + 1) ==
            if before.None? then None else Some(before.value[tags[k] := m[tags[k]]])
  {
    hide Decode;
    hide DecodeOne;
    hide HeaderIndex;
    hide Pack;
    hide Laid;
    hide NulFree;
    hide EntryOf;
    hide LayoutOf;
    RecordDecodes(m, tags, es, regionTag, k);
    RecordIs(tags, es, regionTag, k);
    DecodeSnoc(HeaderIndex(tags, es, regionTag), k + 1, Store(es, regionTag));
  }

  /** With NUL-free strings the reader's map grows tag by tag into the writer's. */
  lemma {:induction false} DecodeGrows(m: map<int, Value>, tags: seq<int>, es: seq<Entry>, regionTag: int, k: nat)
    requires |tags| == |es| && AllIn(tags, m) && Fits(Trailer(regionTag, |tags|))
    requires Laid(m, tags, es, regionTag) && k <= |tags| && AllNulFree(m)
    ensures DecodedFirst(tags, es, regionTag, k) == Some(FirstTags(m, tags, regionTag, k))
    decreases k
  {
    hide *;
    FirstTagsUnfold(m, tags, regionTag, k);
    if k == 0 {
      DecodedNone(tags, es, regionTag);
    } else {
      DecodeGrows(m, tags, es, regionTag, k - 1);
      NulFreeAt(m, tags, k - 1);
      DecodedOneMore(m, tags, es, regionTag, k - 1);
    }
  }

  lemma LaidParts(m: map<int, Value>, tags: seq<int>, es: seq<Entry>, regionTag: int)
    requires Laid(m, tags, es, regionTag)
    ensures |tags| == |es| && AllIn(tags, m) && Fits(Trailer(regionTag, |tags|))
  {
  }

  lemma NulFreeAt(m: map<int, Value>, tags: seq<int>, k: nat)
    requires AllNulFree(m) && AllIn(tags, m) && k < |tags|
    ensures tags[k] in m && NulFree(m[tags[k]])
  {
    var t := tags[k];
    assert t in m;
  }

  lemma RegionIsFirst(tags: seq<int>, es: seq<Entry>, regionTag: int)
    requires |tags| == |es|
    ensures HeaderIndex(tags, es, regionTag)[0].tag == regionTag
  {
    hide LayoutOf;
  }

  lemma DecodeNothing(index: seq<Index>, store: seq<byte>)
    ensures Decode(index[..0], store) == Some(map[])
  {
  }

  lemma FirstTagsUnfold(m: map<int, Value>, tags: seq<int>, regionTag: int, k: nat)
    requires k <= |tags| && AllIn(tags, m) && Fits(Trailer(regionTag, |tags|))
    ensures k == 0 ==> FirstTags(m, tags, regionTag, k) == map[][regionTag := Bin(Pack(Trailer(regionTag, |tags|)))]
    ensures k > 0 ==>
            FirstTags(m, tags, regionTag, k) == FirstTags(m, tags, regionTag, k - 1)[tags[k - 1] := m[tags[k - 1]]]
  {
    hide Pack;
  }

  /** Later records do not touch the value of an earlier tag. */
  lemma {:induction false} DecodeKeeps(index: seq<Index>, store: seq<byte>, i: nat, k: nat)
    requires i < k <= |index| && (forall j :: 0 <= j < |index| ==> DecodeOne(index[j], store).Got?)
    requires forall j :: i < j < |index| ==> index[j].tag != index[i].tag
    ensures var r := Decode(index[..k], store);
            r.Some? && index[i].tag in r.value && r.value[index[i].tag] == DecodeOne(index[i], store).value
    decreases k
  {
    hide DecodeOne;
    DecodeSnoc(index, k - 1, store);
    DecodeSome(index, store, k - 1);
    if i < k - 1 {
      DecodeKeeps(index, store, i, k - 1);
    }
  }

  lemma {:induction false} DecodeSome(index: seq<Index>, store: seq<byte>, k: nat)
    requires k <= |index| && forall j :: 0 <= j < |index| ==> DecodeOne(index[j], store).Got?
    ensures Decode(index[..k], store).Some?
  {
    hide DecodeOne;
    if k > 0 {
      DecodeSome(index, store, k - 1);
      DecodeSnoc(index, k - 1, store);
    }
  }

  /** The entries of a tag map in the order of its tags. */
  function TagEntries(m: map<int, Value>): (es: seq<Entry>)
    requires AllPackable(m)
    ensures |es| == |Sorted(m.Keys)|
  {
    SortedIs(m.Keys);
    EntriesOf(Entries(m), Sorted(m.Keys))
  }

  lemma SortedTags(m: map<int, Value>, regionTag: int)
    requires AllPackable(m) && Fits(Trailer(regionTag, |Sorted(m.Keys)|))
    ensures Laid(m, Sorted(m.Keys), TagEntries(m), regionTag) && Rising(Sorted(m.Keys))
    ensures forall t :: t in Sorted(m.Keys) <==> t in m
  {
    hide Sorted;
    SortedIs(m.Keys);
    var tags, es := Sorted(m.Keys), TagEntries(m);
    forall j | 0 <= j < |tags| ensures tags[j] in m && Packable(m[tags[j]]) && es[j] == EntryOf(m[tags[j]]) {
      var t := tags[j];
      assert t in m && es[j] == Entries(m)[t];
    }
  }

  /** A tag whose value holds a NUL does not come back. */
  lemma NulSpoils(m: map<int, Value>, tags: seq<int>, es: seq<Entry>, regionTag: int, k: nat)
    requires |tags| == |es| && Fits(Trailer(regionTag, |tags|)) && Laid(m, tags, es, regionTag) && k < |tags|
    requires Rising(tags) && tags[k] in m && !NulFree(m[tags[k]])
    ensures var r := Decode(HeaderIndex(tags, es, regionTag), Store(es, regionTag));
            r.Some? && tags[k] in r.value && r.value[tags[k]] != m[tags[k]]
  {
    hide *;
    LaidParts(m, tags, es, regionTag);
    var index, store := HeaderIndex(tags, es, regionTag), Store(es, regionTag);
    Whole(index);
    RecordsDiffer(tags, es, regionTag, k);
    AllRecordsDecode(m, tags, es, regionTag);
    RecordDecodes(m, tags, es, regionTag, k);
    DecodeKeeps(index, store, k + 1, |index|);
  }

  lemma AllRecordsDecode(m: map<int, Value>, tags: seq<int>, es: seq<Entry>, regionTag: int)
    requires |tags| == |es| && AllIn(tags, m) && Fits(Trailer(regionTag, |tags|)) && Laid(m, tags, es, regionTag)
    ensures forall j :: 0 <= j < |tags| + 1 ==>
              DecodeOne(HeaderIndex(tags, es, regionTag)[j], Store(es, regionTag)).Got?
  {
    hide *;
    forall j | 0 <= j < |tags| + 1
      ensures DecodeOne(HeaderIndex(tags, es, regionTag)[j], Store(es, regionTag)).Got?
    {
      if j == 0 {
        RegionDecodes(tags, es, regionTag);
      } else {
        LaidAt(m, tags, es, regionTag, j - 1);
        RecordDecodes(m, tags, es, regionTag, j - 1);
      }
    }
  }

  lemma RecordsDiffer(tags: seq<int>, es: seq<Entry>, regionTag: int, k: nat)
    requires |tags| == |es| && k < |tags| && Rising(tags)
    ensures var index := HeaderIndex(tags, es, regionTag);
            index[k + 1].tag == tags[k] && forall j :: k + 1 < j < |index| ==> index[j].tag != tags[k]
  {
    hide LayoutOf;
    var index := HeaderIndex(tags, es, regionTag);
    forall j | k + 1 < j < |index| ensures index[j].tag != tags[k] {
      assert index[j].tag == tags[j - 1];
    }
  }

  lemma DecodedAll(tags: seq<int>, es: seq<Entry>, regionTag: int)
    requires |tags| == |es| && Fits(Trailer(regionTag, |tags|))
    ensures DecodedFirst(tags, es, regionTag, |tags|) == Decode(HeaderIndex(tags, es, regionTag), Store(es, regionTag))
  {
    Whole(HeaderIndex(tags, es, regionTag));
    hide Decode;
    hide HeaderIndex;
  }

  lemma NulFreeDecodes(m: map<int, Value>, regionTag: int)
    requires AllPackable(m) && AllNulFree(m) && Fits(Trailer(regionTag, |Sorted(m.Keys)|))
    ensures var tags, es := Sorted(m.Keys), TagEntries(m);
            Decode(HeaderIndex(tags, es, regionTag), Store(es, regionTag)) == Some(Region(regionTag, |tags|) + m)
  {
    hide *;
    var tags, es := Sorted(m.Keys), TagEntries(m);
    SortedTags(m, regionTag);
    LaidParts(m, tags, es, regionTag);
    DecodeGrows(m, tags, es, regionTag, |tags|);
    DecodedAll(tags, es, regionTag);
    AllTagsAre(m, tags, regionTag);
  }

  /** The tag map comes back, with the region's record beside it, exactly when no string holds a NUL. */
  lemma DecodedIffNulFree(m: map<int, Value>, regionTag: int)
    requires AllPackable(m) && Fits(Trailer(regionTag, |Sorted(m.Keys)|))
    ensures var tags, es := Sorted(m.Keys), TagEntries(m);
            Decode(HeaderIndex(tags, es, regionTag), Store(es, regionTag)) == Some(Region(regionTag, |tags|) + m)
            <==> AllNulFree(m)
  {
    if AllNulFree(m) {
      NulFreeDecodes(m, regionTag);
    } else {
      var t :| t in m && !NulFree(m[t]);
      hide *;
      var tags := Sorted(m.Keys);
      SortedTags(m, regionTag);
      var k :| 0 <= k < |tags| && tags[k] == t;
      NulSpoils(m, tags, TagEntries(m), regionTag, k);
      assert (Region(regionTag, |tags|) + m)[t] == m[t];
    }
  }

  // ---- A whole package file ----

  /** A tag map the writer can represent and the reader can give back. */
  predicate Writable(m: map<int, Value>, regionTag: int) {
    && AllPackable(m) && AllNulFree(m)
    && HeaderFits(Sorted(m.Keys), TagEntries(m), regionTag)
  }

  function HeaderOf(m: map<int, Value>, regionTag: int): seq<byte>
    requires Writable(m, regionTag)
  {
    Header(Sorted(m.Keys), TagEntries(m), regionTag)
  }

  /** What the reader should see: the tags, and the region's record. */
  function Seen(m: map<int, Value>, regionTag: int): map<int, Value>
    requires Writable(m, regionTag)
  {
    assert Fits(Trailer(regionTag, |Sorted(m.Keys)|));
    Region(regionTag, |Sorted(m.Keys)|) + m
  }

  function ReadHeader(data: seq<byte>, offset: nat): Option<(map<int, Value>, nat)> {
    var parsed := ParseHeader(data, offset);
    if parsed.None? then None
    else
      var tags := Decode(parsed.value.index, parsed.value.store);
      if tags.None? then None else Some((tags.value, parsed.value.end))
  }

  /** Writing a tag map and reading at the place where the header was put: the map comes back, and
      the reported end is where the next part begins. */
  lemma HeaderReadsBack(pre: seq<byte>, m: map<int, Value>, regionTag: int, post: seq<byte>)
    requires Writable(m, regionTag)
    ensures ReadHeader(pre + HeaderOf(m, regionTag) + post, |pre|) ==
            Some((Seen(m, regionTag), |pre| + |HeaderOf(m, regionTag)|))
  {
    hide *;
    WritableGives(m, regionTag);
    var tags, es := Sorted(m.Keys), TagEntries(m);
    HeaderRoundTrip(pre, tags, es, regionTag, post);
    NulFreeDecodes(m, regionTag);
    ReadHeaderIs(pre + HeaderOf(m, regionTag) + post, |pre|, HeaderIndex(tags, es, regionTag), Store(es, regionTag),
                 |pre| + |HeaderOf(m, regionTag)|, Seen(m, regionTag));
  }

  lemma WritableGives(m: map<int, Value>, regionTag: int)
    requires Writable(m, regionTag)
    ensures AllPackable(m) && AllNulFree(m)
    ensures var tags, es := Sorted(m.Keys), TagEntries(m);
            && |es| == |tags| && HeaderFits(tags, es, regionTag) && Fits(Trailer(regionTag, |tags|))
            && HeaderOf(m, regionTag) == Header(tags, es, regionTag)
            && Seen(m, regionTag) == Region(regionTag, |tags|) + m
  {
    hide Header;
    hide Region;
    hide Packable;
    hide NulFree;
    hide HeaderIndex;
    hide LayoutOf;
  }

  lemma ReadHeaderIs(data: seq<byte>, offset: nat, index: seq<Index>, store: seq<byte>, end: nat, tags: map<int, Value>)
    requires ParseHeader(data, offset) == Some(Parsed(index, store, end)) && Decode(index, store) == Some(tags)
    ensures ReadHeader(data, offset) == Some((tags, end))
  {
    hide ParseHeader;
    hide Decode;
  }

  const LEAD_MAGIC: seq<byte> := [0xed, 0xab, 0xee, 0xdb]
  const LEAD_SIZE := 96

  function SignaturePadding(size: nat): seq<byte> {
    Zeros((8 - size % 8) % 8)
  }

  /** The builder's file: lead, signature header padded to eight bytes, main header, payload. */
  function PackageFile(lead: seq<byte>, signature: seq<byte>, main: seq<byte>, payload: seq<byte>): seq<byte> {
    lead + signature + SignaturePadding(|signature|) + main + payload
  }

  datatype Package = Package(signature: map<int, Value>, main: map<int, Value>, mainBytes: seq<byte>,
                             payload: seq<byte>)

  /** The verifier's way through a file: the signature behind the lead, the main header at the next
      multiple of eight, the payload behind it. */
  function ReadPackage(data: seq<byte>): Option<Package> {
    if Slice(data, 0, 4) != LEAD_MAGIC then None
    else
      var sig := ReadHeader(data, LEAD_SIZE);
      if sig.None? then None
      else
        var mainOffset := (sig.value.1 + 7) / 8 * 8;
        var main := ReadHeader(data, mainOffset);
        if main.None? then None
        else Some(Package(sig.value.0, main.value.0, Slice(data, mainOffset, main.value.1),
                          Slice(data, main.value.1, |data|)))
  }

  /** The verifier finds every part where the builder put it: rounding the end of the signature up to
      eight is the builder's padding, because the lead is a multiple of eight. */
  lemma PackageRoundTrip(lead: seq<byte>, sigTags: map<int, Value>, sigRegion: int,
                         mainTags: map<int, Value>, mainRegion: int, payload: seq<byte>)
    requires |lead| == LEAD_SIZE && lead[..4] == LEAD_MAGIC
    requires Writable(sigTags, sigRegion) && Writable(mainTags, mainRegion)
    ensures var main := HeaderOf(mainTags, mainRegion);
            ReadPackage(PackageFile(lead, HeaderOf(sigTags, sigRegion), main, payload)) ==
            Some(Package(Seen(sigTags, sigRegion), Seen(mainTags, mainRegion), main, payload))
  {
    hide *;
    var signature, main := HeaderOf(sigTags, sigRegion), HeaderOf(mainTags, mainRegion);
    var padding := SignaturePadding(|signature|);
    PaddingRounds(|signature|);
    FileSplits(lead, signature, main, payload);
    HeaderReadsBack(lead, sigTags, sigRegion, padding + main + payload);
    HeaderReadsBack(lead + signature + padding, mainTags, mainRegion, payload);
    ReadPackageIs(PackageFile(lead, signature, main, payload), Seen(sigTags, sigRegion), |lead| + |signature|,
                  Seen(mainTags, mainRegion), |lead| + |signature| + |padding|, main, payload);
  }

  lemma ReadPackageIs(data: seq<byte>, sig: map<int, Value>, sigEnd: nat, main: map<int, Value>, mainOffset: nat,
                      mainBytes: seq<byte>, payload: seq<byte>)
    requires Slice(data, 0, 4) == LEAD_MAGIC
    requires ReadHeader(data, LEAD_SIZE) == Some((sig, sigEnd)) && mainOffset == (sigEnd + 7) / 8 * 8
    requires ReadHeader(data, mainOffset) == Some((main, mainOffset + |mainBytes|))
    requires Slice(data, mainOffset, mainOffset + |mainBytes|) == mainBytes
    requires Slice(data, mainOffset + |mainBytes|, |data|) == payload
    ensures ReadPackage(data) == Some(Package(sig, main, mainBytes, payload))
  {
    hide Slice;
    hide ReadHeader;
  }

  lemma PaddingRounds(size: nat)
    ensures (LEAD_SIZE + size + 7) / 8 * 8 == LEAD_SIZE + size + |SignaturePadding(size)|
  {
  }

  lemma FileSplits(lead: seq<byte>, signature: seq<byte>, main: seq<byte>, payload: seq<byte>)
    requires |lead| == LEAD_SIZE
    ensures var data, padding := PackageFile(lead, signature, main, payload), SignaturePadding(|signature|);
            && data == lead + signature + (padding + main + payload)
            && data == (lead + signature + padding) + main + payload
            && Slice(data, 0, 4) == lead[..4]
            && var at := |lead| + |signature| + |padding|;
               Slice(data, at, at + |main|) == main && Slice(data, at + |main|, |data|) == payload
  {
  }

  // ---- Writer and reader as loops ----

  function SortedEntries(entries: map<int, Entry>): (es: seq<Entry>)
    ensures |es| == |Sorted(entries.Keys)|
  {
    SortedIs(entries.Keys);
    EntriesOf(entries, Sorted(entries.Keys))
  }

  lemma LayoutSnoc(es: seq<Entry>, k: nat)
    requires k < |es|
    ensures var before := LayoutOf(es[..k]);
            var padded := before.store + Zeros(Pad(|before.store|, BoundaryOf(es[k].typ)));
            LayoutOf(es[..k + 1]) == Layout(padded + es[k].data, before.offsets + [|padded|])
  {
    assert es[..k + 1][..k] == es[..k];
  }

  /** The store is filled entry by entry, each padded to its boundary. */
  method FillStore(es: seq<Entry>) returns (store: seq<byte>, offsets: seq<nat>)
    ensures Layout(store, offsets) == LayoutOf(es)
  {
    hide LayoutOf;
    store, offsets := [], [];
    EmptyLayout(es);
    for k := 0 to |es|
      invariant Layout(store, offsets) == LayoutOf(es[..k])
    {
      LayoutSnoc(es, k);
      var boundary := BoundaryOf(es[k].typ);
      store := store + Zeros(Pad(|store|, boundary));
      offsets := offsets + [|store|];
      store := store + es[k].data;
    }
    Whole(es);
  }

  lemma EmptyLayout(es: seq<Entry>)
    ensures LayoutOf(es[..0]) == Layout([], [])
  {
  }

  lemma PackAllSnoc(records: seq<Index>, k: nat)
    requires k < |records| && AllFit(records[..k]) && Fits(records[k])
    ensures AllFit(records[..k + 1]) && PackAll(records[..k + 1]) == PackAll(records[..k]) + Pack(records[k])
  {
    assert records[..k + 1][..k] == records[..k];
    hide Pack;
  }

  /** The records one behind the other; `None` where `struct.pack` would raise. */
  method PackRecords(records: seq<Index>) returns (r: Option<seq<byte>>)
    ensures r.Some? <==> AllFit(records)
    ensures r.Some? ==> r.value == PackAll(records)
  {
    hide Pack;
    hide Fits;
    hide PackAll;
    var out := [];
    NoRecords(records);
    for k := 0 to |records|
      invariant AllFit(records[..k]) && out == PackAll(records[..k])
    {
      if !FitsNow(records[k]) {
        assert !AllFit(records);
        return None;
      }
      PackAllSnoc(records, k);
      out := out + Pack(records[k]);
    }
    Whole(records);
    return Some(out);
  }

  predicate FitsNow(i: Index)
    ensures FitsNow(i) <==> Fits(i)
  {
    Fits(i)
  }

  lemma NoRecords(records: seq<Index>)
    ensures AllFit(records[..0]) && PackAll(records[..0]) == []
  {
  }

  /** `_header_bytes`: exactly the header of the sorted entries, or nothing when a number does not fit. */
  method HeaderBytes(entries: map<int, Entry>, regionTag: int) returns (r: Option<seq<byte>>)
    ensures var tags, es := Sorted(entries.Keys), SortedEntries(entries);
            && (r.Some? <==> HeaderFits(tags, es, regionTag))
            && (r.Some? ==> r.value == Header(tags, es, regionTag))
  {
    var tags, es := Sorted(entries.Keys), SortedEntries(entries);
    hide Sorted;
    hide SortedEntries;
    hide LayoutOf;
    hide PackAll;
    hide AllFit;
    hide Pack;
    hide U32;
    var store, offsets := FillStore(es);
    var trailer := Trailer(regionTag, |tags|);
    if !Fits(trailer) {
      return None;
    }
    var at := |store|;
    store := store + Pack(trailer);
    var records := [Index(regionTag, TYPE_BINARY, at, 16)] + Records(tags, es, offsets);
    var index := PackRecords(records);
    if index.None? || !IsU32(|records|) || !IsU32(|store|) {
      return None;
    }
    return Some(MAGIC + Zeros(4) + (U32(|records|) + U32(|store|)) + index.value + store);
  }

  lemma ReadIndexSnoc(data: seq<byte>, pos: nat, k: nat)
    ensures ReadIndex(data, pos, k + 1) ==
            var front := ReadIndex(data, pos, k);
            var bytes := Slice(data, pos + 16 * k, pos + 16 * (k + 1));
            if front.None? || |bytes| != 16 then None else Some(front.value + [Unpack(bytes)])
  {
    hide Slice;
    hide Unpack;
  }

  lemma {:induction false} ReadIndexFails(data: seq<byte>, pos: nat, k: nat, count: nat)
    requires k <= count && ReadIndex(data, pos, k).None?
    ensures ReadIndex(data, pos, count).None?
    decreases count
  {
    hide Slice;
    hide Unpack;
    if k < count {
      ReadIndexFails(data, pos, k, count - 1);
    }
  }

  /** `parse_header`. */
  method ParseHeaderBytes(data: seq<byte>, offset: nat) returns (r: Option<Parsed>)
    ensures r == ParseHeader(data, offset)
  {
    hide Slice;
    hide ReadIndex;
    hide Unpack;
    hide FromU32;
    if Slice(data, offset, offset + 4) != MAGIC {
      return None;
    }
    var counts := Slice(data, offset + 8, offset + 16);
    if |counts| != 8 {
      return None;
    }
    var count, size := FromU32(counts[..4]), FromU32(counts[4..]);
    var entries, pos := [], offset + 16;
    ReadNone(data, pos);
    for k := 0 to count
      invariant pos == offset + 16 + 16 * k
      invariant ReadIndex(data, offset + 16, k) == Some(entries)
    {
      ReadIndexSnoc(data, offset + 16, k);
      var bytes := Slice(data, pos, pos + 16);
      if |bytes| != 16 {
        ReadIndexFails(data, offset + 16, k + 1, count);
        return None;
      }
      entries := entries + [Unpack(bytes)];
      pos := pos + 16;
    }
    return Some(Parsed(entries, Slice(data, pos, pos + size), pos + size));
  }

  lemma ReadNone(data: seq<byte>, pos: nat)
    ensures ReadIndex(data, pos, 0) == Some([])
  {
  }

  lemma {:induction false} DecodeFails(index: seq<Index>, k: nat, store: seq<byte>)
    requires k <= |index| && Decode(index[..k], store).None?
    ensures Decode(index, store).None?
    decreases |index|
  {
    if k == |index| {
      Whole(index);
    } else {
      assert index[..|index| - 1][..k] == index[..k];
      hide DecodeOne;
      DecodeFails(index[..|index| - 1], k, store);
    }
  }

  lemma DecodeNext(index: seq<Index>, k: nat, store: seq<byte>)
    requires k < |index|
    ensures Decode(index[..k + 1], store) ==
            var before, field := Decode(index[..k], store), DecodeOne(index[k], store);
            if before.None? || field.Raises? then None
            else if field.Ignored? then before
            else Some(before.value[index[k].tag := field.value])
  {
    hide DecodeOne;
    assert index[..k + 1][..k] == index[..k];
  }

  /** `decode`: a later record of a tag replaces an earlier one, a broken one ends it all. */
  method DecodeRecords(index: seq<Index>, store: seq<byte>) returns (r: Option<map<int, Value>>)
    ensures r == Decode(index, store)
  {
    hide DecodeOne;
    hide Decode;
    var result: map<int, Value> := map[];
    DecodeNothing(index, store);
    for k := 0 to |index|
      invariant Decode(index[..k], store) == Some(result)
    {
      DecodeNext(index, k, store);
      var field := DecodeOne(index[k], store);
      match field {
        case Raises =>
          DecodeFails(index, k + 1, store);
          return None;
        case Ignored =>
        case Got(v) =>
          result := result[index[k].tag := v];
      }
    }
    Whole(index);
    return Some(result);
  }
}
