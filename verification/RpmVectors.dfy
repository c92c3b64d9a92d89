/** A header known byte by byte: the layout of section 22.2 of LSB Core 3.1, with one tag of every type. */
module RpmVectors {
  import opened Common
  import opened Bytes
  import opened RpmHeader

  const TAGS: seq<int> := [1000, 1004, 1005, 1006, 1007]

  const ENTRIES: seq<Entry> := [
    Entry(6, 1, [0x61, 0x62, 0]),
    Entry(3, 1, [1, 2]),
    Entry(4, 1, [1, 2, 3, 4]),
    Entry(8, 2, [0x62, 0, 0x63, 0]),
    Entry(7, 1, [5])]

  /** The numbers of the types, and how values become bytes. */
  lemma EntryVectors()
    ensures EntryOf(Str([0x61, 0x62])) == ENTRIES[0]
    ensures EntryOf(Int16s([258])) == ENTRIES[1]
    ensures EntryOf(Int32s([0x01020304])) == ENTRIES[2]
    ensures EntryOf(Strs([[0x62], [0x63]])) == ENTRIES[3]
    ensures EntryOf(Bin([5])) == ENTRIES[4]
  {
    assert [0x01020304][1..] == [] && [258][1..] == [];
    assert [[0x62 as byte], [0x63 as byte]][1..] == [[0x63 as byte]];
  }

  const STORE0: seq<byte> := []
  const STORE1: seq<byte> := [0x61, 0x62, 0]
  const STORE2: seq<byte> := [0x61, 0x62, 0, 0, 1, 2]
  const STORE3: seq<byte> := [0x61, 0x62, 0, 0, 1, 2, 0, 0, 1, 2, 3, 4]
  const STORE4: seq<byte> := [0x61, 0x62, 0, 0, 1, 2, 0, 0, 1, 2, 3, 4, 0x62, 0, 0x63, 0]
  const STORE5: seq<byte> := [0x61, 0x62, 0, 0, 1, 2, 0, 0, 1, 2, 3, 4, 0x62, 0, 0x63, 0, 5]

  lemma Laid0()
    ensures LayoutOf(ENTRIES[..0]) == Layout(STORE0, [])
  {
  }

  lemma Laid1()
    ensures LayoutOf(ENTRIES[..1]) == Layout(STORE1, [0])
  {
    Laid0();
    LayoutSnoc(ENTRIES, 0);
    hide LayoutOf;
  }

  lemma Laid2()
    ensures LayoutOf(ENTRIES[..2]) == Layout(STORE2, [0, 4])
  {
    Laid1();
    LayoutSnoc(ENTRIES, 1);
    hide LayoutOf;
  }

  lemma Laid3()
    ensures LayoutOf(ENTRIES[..3]) == Layout(STORE3, [0, 4, 8])
  {
    Laid2();
    LayoutSnoc(ENTRIES, 2);
    hide LayoutOf;
  }

  lemma Laid4()
    ensures LayoutOf(ENTRIES[..4]) == Layout(STORE4, [0, 4, 8, 12])
  {
    Laid3();
    LayoutSnoc(ENTRIES, 3);
    hide LayoutOf;
  }

  lemma Laid5()
    ensures LayoutOf(ENTRIES[..5]) == Layout(STORE5, [0, 4, 8, 12, 16])
  {
    Laid4();
    LayoutSnoc(ENTRIES, 4);
    hide LayoutOf;
  }

  const RECORD0: seq<byte> := [0, 0, 0, 0x3f, 0, 0, 0, 7, 0, 0, 0, 0x11, 0, 0, 0, 0x10]

  lemma Record0Packed()
    ensures Pack(Index(63, 7, 17, 16)) == RECORD0
  {
  }

  const RECORD1: seq<byte> := [0, 0, 3, 0xe8, 0, 0, 0, 6, 0, 0, 0, 0, 0, 0, 0, 1]

  lemma Record1Packed()
    ensures Pack(Index(1000, 6, 0, 1)) == RECORD1
  {
  }

  const RECORD2: seq<byte> := [0, 0, 3, 0xec, 0, 0, 0, 3, 0, 0, 0, 4, 0, 0, 0, 1]

  lemma Record2Packed()
    ensures Pack(Index(1004, 3, 4, 1)) == RECORD2
  {
  }

  const RECORD3: seq<byte> := [0, 0, 3, 0xed, 0, 0, 0, 4, 0, 0, 0, 8, 0, 0, 0, 1]

  lemma Record3Packed()
    ensures Pack(Index(1005, 4, 8, 1)) == RECORD3
  {
  }

  const RECORD4: seq<byte> := [0, 0, 3, 0xee, 0, 0, 0, 8, 0, 0, 0, 0x0c, 0, 0, 0, 2]

  lemma Record4Packed()
    ensures Pack(Index(1006, 8, 12, 2)) == RECORD4
  {
  }

  const RECORD5: seq<byte> := [0, 0, 3, 0xef, 0, 0, 0, 7, 0, 0, 0, 0x10, 0, 0, 0, 1]

  lemma Record5Packed()
    ensures Pack(Index(1007, 7, 16, 1)) == RECORD5
  {
  }

  const TRAILER: seq<byte> := [0, 0, 0, 0x3f, 0, 0, 0, 7, 0xff, 0xff, 0xff, 0xa0, 0, 0, 0, 0x10]

  lemma TrailerPacked()
    ensures Pack(Index(63, 7, -96, 16)) == TRAILER
  {
  }

  const INDEX: seq<Index> := [
    Index(63, 7, 17, 16),
    Index(1000, 6, 0, 1),
    Index(1004, 3, 4, 1),
    Index(1005, 4, 8, 1),
    Index(1006, 8, 12, 2),
    Index(1007, 7, 16, 1)]

  lemma IndexIs()
    ensures HeaderIndex(TAGS, ENTRIES, 63) == INDEX && Trailer(63, 5) == Index(63, 7, -96, 16)
    ensures HeaderFits(TAGS, ENTRIES, 63) && AllFit(INDEX)
    ensures LayoutOf(ENTRIES) == Layout(STORE5, [0, 4, 8, 12, 16])
  {
    Laid5();
    assert ENTRIES[..5] == ENTRIES;
    hide LayoutOf;
  }

  lemma AllFits()
    ensures AllFit(INDEX) && forall k :: 0 <= k <= 6 ==> AllFit(INDEX[..k])
  {
    IndexIs();
    hide HeaderIndex;
    hide LayoutOf;
    hide Fits;
  }

  lemma Packed0()
    ensures AllFit(INDEX[..0]) && AllFit(INDEX[..1]) && PackAll(INDEX[..1]) == PackAll(INDEX[..0]) + RECORD0
  {
    AllFits();
    Record0Packed();
    hide AllFit;
    hide Pack;
    hide PackAll;
    PackAllSnoc(INDEX, 0);
  }

  lemma Packed1()
    ensures AllFit(INDEX[..1]) && AllFit(INDEX[..2]) && PackAll(INDEX[..2]) == PackAll(INDEX[..1]) + RECORD1
  {
    AllFits();
    Record1Packed();
    hide AllFit;
    hide Pack;
    hide PackAll;
    PackAllSnoc(INDEX, 1);
  }

  lemma Packed2()
    ensures AllFit(INDEX[..2]) && AllFit(INDEX[..3]) && PackAll(INDEX[..3]) == PackAll(INDEX[..2]) + RECORD2
  {
    AllFits();
    Record2Packed();
    hide AllFit;
    hide Pack;
    hide PackAll;
    PackAllSnoc(INDEX, 2);
  }

  lemma Packed3()
    ensures AllFit(INDEX[..3]) && AllFit(INDEX[..4]) && PackAll(INDEX[..4]) == PackAll(INDEX[..3]) + RECORD3
  {
    AllFits();
    Record3Packed();
    hide AllFit;
    hide Pack;
    hide PackAll;
    PackAllSnoc(INDEX, 3);
  }

  lemma Packed4()
    ensures AllFit(INDEX[..4]) && AllFit(INDEX[..5]) && PackAll(INDEX[..5]) == PackAll(INDEX[..4]) + RECORD4
  {
    AllFits();
    Record4Packed();
    hide AllFit;
    hide Pack;
    hide PackAll;
    PackAllSnoc(INDEX, 4);
  }

  lemma Packed5()
    ensures AllFit(INDEX[..5]) && AllFit(INDEX[..6]) && PackAll(INDEX[..6]) == PackAll(INDEX[..5]) + RECORD5
  {
    AllFits();
    Record5Packed();
    hide AllFit;
    hide Pack;
    hide PackAll;
    PackAllSnoc(INDEX, 5);
  }

  lemma IndexPacked()
    ensures AllFit(INDEX) && PackAll(INDEX) == RECORD0 + RECORD1 + RECORD2 + RECORD3 + RECORD4 + RECORD5
  {
    hide *;
    AllFits();
    NothingPacked();
    Packed0();
    Packed1();
    Packed2();
    Packed3();
    Packed4();
    Packed5();
    WholeIndex();
    assert [] + RECORD0 == RECORD0;
  }

  lemma WholeIndex()
    ensures INDEX[..6] == INDEX && INDEX[..0] == []
  {
  }

  lemma NothingPacked()
    ensures PackAll([]) == []
  {
  }

  lemma CountsPacked()
    ensures U32(6) == [0, 0, 0, 6] && U32(33) == [0, 0, 0, 33] && Zeros(4) == [0, 0, 0, 0]
    ensures MAGIC == [0x8e, 0xad, 0xe8, 0x01]
  {
  }

  const HEAD: seq<byte> := [0x8e, 0xad, 0xe8, 0x01, 0, 0, 0, 0, 0, 0, 0, 6, 0, 0, 0, 33]

  lemma HeadIs()
    ensures MAGIC + Zeros(4) + (U32(6) + U32(33)) == HEAD
  {
    CountsPacked();
    hide U32;
    hide Zeros;
  }

  lemma SizesAre()
    ensures |INDEX| == 6 && |STORE5 + TRAILER| == 33 && |ENTRIES| == 5 == |TAGS|
  {
  }

  /** The header of the five tags, byte by byte. */
  lemma HeaderVector()
    ensures |TAGS| == |ENTRIES| && HeaderFits(TAGS, ENTRIES, 63)
    ensures Header(TAGS, ENTRIES, 63) ==
            HEAD + (RECORD0 + RECORD1 + RECORD2 + RECORD3 + RECORD4 + RECORD5) + (STORE5 + TRAILER)
  {
    SizesAre();
    IndexIs();
    IndexPacked();
    TrailerPacked();
    HeadIs();
    hide LayoutOf;
    hide Pack;
    hide PackAll;
    hide Fits;
    hide AllFit;
    hide U32;
    hide Zeros;
    hide HeaderIndex;
  }
}
