/** An archive known byte by byte: a file, a directory and the closing member. */
module CpioVectors {
  import opened Bytes
  import opened Common
  import opened Cpio

  lemma JoinNext(fields: seq<nat>, v: nat)
    ensures Joined(Hexes(fields + [v])) == Joined(Hexes(fields)) + Hex8(v)
  {
    hide Hex8;
    var more := Hexes(fields + [v]);
    assert more[..|more| - 1] == Hexes(fields);
  }

  lemma JoinFive(pre: seq<nat>, a: nat, b: nat, c: nat, d: nat, e: nat)
    ensures Joined(Hexes(pre + [a, b, c, d, e])) ==
            Joined(Hexes(pre)) + (Hex8(a) + Hex8(b) + Hex8(c) + Hex8(d) + Hex8(e))
  {
    hide Hex8;
    hide Hexes;
    hide Joined;
    JoinNext(pre, a);
    JoinNext(pre + [a], b);
    JoinNext(pre + [a] + [b], c);
    JoinNext(pre + [a] + [b] + [c], d);
    JoinNext(pre + [a] + [b] + [c] + [d], e);
    assert pre + [a] + [b] + [c] + [d] + [e] == pre + [a, b, c, d, e];
  }

  lemma NothingJoined()
    ensures Joined(Hexes([])) == []
  {
  }

  /** Number, mode, owner and group 0, one link, time, size, no device, size of the name, no sum. */
  lemma FieldsAre(ino: nat, mode: nat, time: nat, size: nat, name: nat)
    ensures FieldsText([ino, mode, 0, 0, 1, time, size, 0, 0, 0, 0, name, 0]) ==
            (Hex8(ino) + Hex8(mode) + Hex8(0) + Hex8(0) + Hex8(1))
            + (Hex8(time) + Hex8(size) + Hex8(0) + Hex8(0) + Hex8(0)) + Hex8(0) + Hex8(name) + Hex8(0)
  {
    hide Hex8;
    hide Hexes;
    hide Joined;
    var a: seq<nat>, b: seq<nat> := [ino, mode, 0, 0, 1], [time, size, 0, 0, 0];
    NothingJoined();
    JoinFive([], ino, mode, 0, 0, 1);
    assert [] + a == a;
    JoinFive(a, time, size, 0, 0, 0);
    JoinNext(a + b, 0);
    JoinNext(a + b + [0], name);
    JoinNext(a + b + [0] + [name], 0);
    assert a + b + [0] + [name] + [0] == [ino, mode, 0, 0, 1, time, size, 0, 0, 0, 0, name, 0];
  }

  const ZERO: seq<byte> := [0x30, 0x30, 0x30, 0x30, 0x30, 0x30, 0x30, 0x30]
  const ONE: seq<byte> := [0x30, 0x30, 0x30, 0x30, 0x30, 0x30, 0x30, 0x31]
  const TWO: seq<byte> := [0x30, 0x30, 0x30, 0x30, 0x30, 0x30, 0x30, 0x32]
  const THREE: seq<byte> := [0x30, 0x30, 0x30, 0x30, 0x30, 0x30, 0x30, 0x33]
  const ELEVEN: seq<byte> := [0x30, 0x30, 0x30, 0x30, 0x30, 0x30, 0x30, 0x62]
  const FILE_MODE: seq<byte> := [0x30, 0x30, 0x30, 0x30, 0x38, 0x31, 0x61, 0x34]
  const DIR_MODE: seq<byte> := [0x30, 0x30, 0x30, 0x30, 0x34, 0x31, 0x65, 0x64]
  const END_MODE: seq<byte> := [0x30, 0x30, 0x30, 0x30, 0x38, 0x30, 0x30, 0x30]
  const TIME: seq<byte> := [0x30, 0x30, 0x30, 0x30, 0x30, 0x33, 0x65, 0x38]

  lemma ZeroIs()
    ensures Hex8(0x0) == ZERO
  {
  }

  lemma OneIs()
    ensures Hex8(0x1) == ONE
  {
  }

  lemma TwoIs()
    ensures Hex8(0x2) == TWO
  {
  }

  lemma ThreeIs()
    ensures Hex8(0x3) == THREE
  {
  }

  lemma ElevenIs()
    ensures Hex8(0xb) == ELEVEN
  {
  }

  lemma FileModeIs()
    ensures Hex8(0x81a4) == FILE_MODE
  {
  }

  lemma DirModeIs()
    ensures Hex8(0x41ed) == DIR_MODE
  {
  }

  lemma EndModeIs()
    ensures Hex8(0x8000) == END_MODE
  {
  }

  lemma TimeIs()
    ensures Hex8(0x3e8) == TIME
  {
  }

  const FILE_BYTES: seq<byte> :=
    MAGIC + ((ONE + FILE_MODE + ZERO + ZERO + ONE) + (TIME + THREE + ZERO + ZERO + ZERO) + ZERO + THREE + ZERO)
    + [0x61, 0x62, 0, 0, 0, 0, 0x68, 0x69, 0x0a, 0]

  lemma FileHead()
    ensures Head(File([0x61, 0x62], [0x68, 0x69, 0x0a], 0x1a4, false), 1, 0x3e8) ==
            MAGIC + ((ONE + FILE_MODE + ZERO + ZERO + ONE) + (TIME + THREE + ZERO + ZERO + ZERO) + ZERO + THREE + ZERO)
            + [0x61, 0x62, 0]
  {
    var f := File([0x61, 0x62], [0x68, 0x69, 0x0a], 0x1a4, false);
    assert ModeOf(f) == 0x81a4 && |BodyOf(f)| == 3 && |f.path| == 2;
    FieldsAre(1, 0x81a4, 0x3e8, 3, 3);
    OneIs();
    FileModeIs();
    ThreeIs();
    ZeroIs();
    TimeIs();
    hide Hex8;
    hide FieldsText;
  }

  lemma FileRecord()
    ensures Record(File([0x61, 0x62], [0x68, 0x69, 0x0a], 0x1a4, false), 1, 0x3e8) == FILE_BYTES
  {
    var f := File([0x61, 0x62], [0x68, 0x69, 0x0a], 0x1a4, false);
    FileHead();
    MagicSize();
    assert |Head(f, 1, 0x3e8)| == 113 && BodyOf(f) == [0x68, 0x69, 0x0a];
    hide Head;
    hide MAGIC;
  }

  const DIRECTORY_BYTES: seq<byte> :=
    MAGIC + ((TWO + DIR_MODE + ZERO + ZERO + ONE) + (TIME + ZERO + ZERO + ZERO + ZERO) + ZERO + TWO + ZERO)
    + [0x64, 0]

  lemma DirectoryHead()
    ensures Head(File([0x64], [0x78], 0x1ed, true), 2, 0x3e8) ==
            MAGIC + ((TWO + DIR_MODE + ZERO + ZERO + ONE) + (TIME + ZERO + ZERO + ZERO + ZERO) + ZERO + TWO + ZERO)
            + [0x64, 0]
  {
    var f := File([0x64], [0x78], 0x1ed, true);
    assert ModeOf(f) == 0x41ed && |BodyOf(f)| == 0 && |f.path| == 1;
    FieldsAre(2, 0x41ed, 0x3e8, 0, 2);
    TwoIs();
    DirModeIs();
    ZeroIs();
    OneIs();
    TimeIs();
    hide Hex8;
    hide FieldsText;
  }

  lemma DirectoryRecord()
    ensures Record(File([0x64], [0x78], 0x1ed, true), 2, 0x3e8) == DIRECTORY_BYTES
  {
    var f := File([0x64], [0x78], 0x1ed, true);
    DirectoryHead();
    MagicSize();
    assert |Head(f, 2, 0x3e8)| == 112 && BodyOf(f) == [];
    hide Head;
    hide MAGIC;
  }

  const CLOSING_BYTES: seq<byte> :=
    MAGIC + ((THREE + END_MODE + ZERO + ZERO + ONE) + (TIME + ZERO + ZERO + ZERO + ZERO) + ZERO + ELEVEN + ZERO)
    + [0x54, 0x52, 0x41, 0x49, 0x4c, 0x45, 0x52, 0x21, 0x21, 0x21, 0, 0, 0, 0]

  lemma ClosingHead()
    ensures Head(Closing(), 3, 0x3e8) ==
            MAGIC + ((THREE + END_MODE + ZERO + ZERO + ONE) + (TIME + ZERO + ZERO + ZERO + ZERO) + ZERO + ELEVEN + ZERO)
            + [0x54, 0x52, 0x41, 0x49, 0x4c, 0x45, 0x52, 0x21, 0x21, 0x21, 0]
  {
    var f := Closing();
    assert ModeOf(f) == 0x8000 && |BodyOf(f)| == 0 && |f.path| == 10;
    FieldsAre(3, 0x8000, 0x3e8, 0, 11);
    ThreeIs();
    EndModeIs();
    ZeroIs();
    ElevenIs();
    OneIs();
    TimeIs();
    hide Hex8;
    hide FieldsText;
  }

  lemma ClosingRecord()
    ensures Record(Closing(), 3, 0x3e8) == CLOSING_BYTES
  {
    var f := Closing();
    ClosingHead();
    MagicSize();
    assert |Head(f, 3, 0x3e8)| == 121 && BodyOf(f) == [];
    hide Head;
    hide MAGIC;
  }

  lemma GoodNames1()
    ensures Utf8([0xc2, 0x80]) && Utf8([0xdf, 0xbf]) && Utf8([0xe0, 0xa0, 0x80])
  {
    assert CharLength([0xc2, 0x80]) == 2 && [0xc2, 0x80][2..] == [];
    assert CharLength([0xdf, 0xbf]) == 2 && [0xdf, 0xbf][2..] == [];
    assert CharLength([0xe0, 0xa0, 0x80]) == 3 && [0xe0, 0xa0, 0x80][3..] == [];
  }

  lemma GoodNames2()
    ensures Utf8([0xe1, 0xbf, 0xbf]) && Utf8([0xed, 0x9f, 0xbf]) && Utf8([0xee, 0x80, 0x80])
  {
    assert CharLength([0xe1, 0xbf, 0xbf]) == 3 && [0xe1, 0xbf, 0xbf][3..] == [];
    assert CharLength([0xed, 0x9f, 0xbf]) == 3 && [0xed, 0x9f, 0xbf][3..] == [];
    assert CharLength([0xee, 0x80, 0x80]) == 3 && [0xee, 0x80, 0x80][3..] == [];
  }

  lemma GoodNames3()
    ensures Utf8([0xef, 0xbf, 0xbf]) && Utf8([0xf0, 0x90, 0x80, 0x80]) && Utf8([0xf1, 0xbf, 0xbf, 0xbf])
  {
    assert CharLength([0xef, 0xbf, 0xbf]) == 3 && [0xef, 0xbf, 0xbf][3..] == [];
    assert CharLength([0xf0, 0x90, 0x80, 0x80]) == 4 && [0xf0, 0x90, 0x80, 0x80][4..] == [];
    assert CharLength([0xf1, 0xbf, 0xbf, 0xbf]) == 4 && [0xf1, 0xbf, 0xbf, 0xbf][4..] == [];
  }

  lemma GoodNames4()
    ensures Utf8([0xf4, 0x8f, 0xbf, 0xbf]) && Utf8([0x7f])
  {
    assert CharLength([0xf4, 0x8f, 0xbf, 0xbf]) == 4 && [0xf4, 0x8f, 0xbf, 0xbf][4..] == [];
    assert CharLength([0x7f]) == 1 && [0x7f][1..] == [];
  }

  lemma BadNames1()
    ensures !Utf8([0x80]) && !Utf8([0xbf]) && !Utf8([0xc0, 0x80])
  {
    assert CharLength([0x80]) == 0;
    assert CharLength([0xbf]) == 0;
    assert CharLength([0xc0, 0x80]) == 0;
  }

  lemma BadNames2()
    ensures !Utf8([0xc1, 0xbf]) && !Utf8([0xc2, 0x7f]) && !Utf8([0xc2, 0xc0])
  {
    assert CharLength([0xc1, 0xbf]) == 0;
    assert CharLength([0xc2, 0x7f]) == 0;
    assert CharLength([0xc2, 0xc0]) == 0;
  }

  lemma BadNames3()
    ensures !Utf8([0xc2]) && !Utf8([0xe0, 0x9f, 0xbf]) && !Utf8([0xed, 0xa0, 0x80])
  {
    assert CharLength([0xc2]) == 0;
    assert CharLength([0xe0, 0x9f, 0xbf]) == 0;
    assert CharLength([0xed, 0xa0, 0x80]) == 0;
  }

  lemma BadNames4()
    ensures !Utf8([0xe1, 0x80]) && !Utf8([0xe1, 0x80, 0x7f]) && !Utf8([0xe1, 0xc0, 0x80])
  {
    assert CharLength([0xe1, 0x80]) == 0;
    assert CharLength([0xe1, 0x80, 0x7f]) == 0;
    assert CharLength([0xe1, 0xc0, 0x80]) == 0;
  }

  lemma BadNames5()
    ensures !Utf8([0xf0, 0x8f, 0xbf, 0xbf]) && !Utf8([0xf4, 0x90, 0x80, 0x80]) && !Utf8([0xf5, 0x80, 0x80, 0x80])
  {
    assert CharLength([0xf0, 0x8f, 0xbf, 0xbf]) == 0;
    assert CharLength([0xf4, 0x90, 0x80, 0x80]) == 0;
    assert CharLength([0xf5, 0x80, 0x80, 0x80]) == 0;
  }

  lemma BadNames6()
    ensures !Utf8([0xf1, 0x80, 0x80]) && !Utf8([0xf1, 0x80, 0x80, 0x7f]) && !Utf8([0xff])
  {
    assert CharLength([0xf1, 0x80, 0x80]) == 0;
    assert CharLength([0xf1, 0x80, 0x80, 0x7f]) == 0;
    assert CharLength([0xff]) == 0;
  }

  /** Names at the edges of section 4 of RFC 3629: shortest forms only, no surrogates, nothing beyond
      0x10ffff, no missing or misplaced bytes. */
  lemma NameVectors()
    ensures Utf8([0xc2, 0x80]) && Utf8([0xdf, 0xbf]) && Utf8([0xe0, 0xa0, 0x80])
    ensures Utf8([0xe1, 0xbf, 0xbf]) && Utf8([0xed, 0x9f, 0xbf]) && Utf8([0xee, 0x80, 0x80])
    ensures Utf8([0xef, 0xbf, 0xbf]) && Utf8([0xf0, 0x90, 0x80, 0x80]) && Utf8([0xf1, 0xbf, 0xbf, 0xbf])
    ensures Utf8([0xf4, 0x8f, 0xbf, 0xbf]) && Utf8([0x7f])
    ensures !Utf8([0x80]) && !Utf8([0xbf]) && !Utf8([0xc0, 0x80])
    ensures !Utf8([0xc1, 0xbf]) && !Utf8([0xc2, 0x7f]) && !Utf8([0xc2, 0xc0])
    ensures !Utf8([0xc2]) && !Utf8([0xe0, 0x9f, 0xbf]) && !Utf8([0xed, 0xa0, 0x80])
    ensures !Utf8([0xe1, 0x80]) && !Utf8([0xe1, 0x80, 0x7f]) && !Utf8([0xe1, 0xc0, 0x80])
    ensures !Utf8([0xf0, 0x8f, 0xbf, 0xbf]) && !Utf8([0xf4, 0x90, 0x80, 0x80]) && !Utf8([0xf5, 0x80, 0x80, 0x80])
    ensures !Utf8([0xf1, 0x80, 0x80]) && !Utf8([0xf1, 0x80, 0x80, 0x7f]) && !Utf8([0xff])
  {
    hide *;
    GoodNames1();
    GoodNames2();
    GoodNames3();
    GoodNames4();
    BadNames1();
    BadNames2();
    BadNames3();
    BadNames4();
    BadNames5();
    BadNames6();
  }

  // ---- What a field may look like ----

  /** White space and digits, byte by byte. */
  lemma CharactersAre(b: byte)
    ensures IsSpace(b) <==> b == 9 || b == 10 || b == 11 || b == 12 || b == 13 || b == 32
    ensures DigitValue(b).Some? <==> 48 <= b <= 57 || 65 <= b <= 70 || 97 <= b <= 102
    ensures 48 <= b <= 57 ==> DigitValue(b) == Some(b - 48)
    ensures 65 <= b <= 70 ==> DigitValue(b) == Some(b - 55)
    ensures 97 <= b <= 102 ==> DigitValue(b) == Some(b - 87)
  {
  }

  predicate Solid(text: seq<byte>) {
    text != [] && !IsSpace(text[0]) && !IsSpace(text[|text| - 1])
  }

  lemma {:induction false} LeftGoes(a: seq<byte>, text: seq<byte>)
    requires (forall k :: 0 <= k < |a| ==> IsSpace(a[k])) && text != [] && !IsSpace(text[0])
    ensures StripLeft(a + text) == text
  {
    if a == [] {
      assert a + text == text;
    } else {
      LeftGoes(a[1..], text);
      assert (a + text)[1..] == a[1..] + text;
    }
  }

  lemma {:induction false} RightGoes(text: seq<byte>, b: seq<byte>)
    requires (forall k :: 0 <= k < |b| ==> IsSpace(b[k])) && text != [] && !IsSpace(text[|text| - 1])
    ensures StripRight(text + b) == text
  {
    if b == [] {
      assert text + b == text;
    } else {
      RightGoes(text, b[..|b| - 1]);
      assert (text + b)[..|text + b| - 1] == text + b[..|b| - 1];
    }
  }

  lemma SpaceGoes(a: seq<byte>, text: seq<byte>, b: seq<byte>)
    requires Solid(text)
    requires (forall k :: 0 <= k < |a| ==> IsSpace(a[k])) && (forall k :: 0 <= k < |b| ==> IsSpace(b[k]))
    ensures StripRight(StripLeft(a + text + b)) == text
  {
    hide IsSpace;
    hide StripLeft;
    hide StripRight;
    LeftGoes(a, text + b);
    RightGoes(text, b);
    assert a + text + b == a + (text + b);
  }

  /** White space around a field does not matter. */
  lemma SpaceAround(a: seq<byte>, text: seq<byte>, b: seq<byte>)
    requires Solid(text)
    requires (forall k :: 0 <= k < |a| ==> IsSpace(a[k])) && (forall k :: 0 <= k < |b| ==> IsSpace(b[k]))
    ensures HexInt(a + text + b) == HexInt(text)
  {
    hide HexInt;
    hide StripLeft;
    hide StripRight;
    SpaceGoes(a, text, b);
    NothingToStrip(text);
    HexIntOf(a + text + b, text);
    HexIntOf(text, text);
  }

  /** A plus changes nothing, a minus negates. */
  lemma Signs(text: seq<byte>)
    requires Solid(text) && text[0] != 0x2b && text[0] != 0x2d
    ensures HexInt(text) == HexInt([0x2b] + text) == Unsigned(text)
    ensures Unsigned(text).None? ==> HexInt([0x2d] + text) == None
    ensures Unsigned(text).Some? ==> HexInt([0x2d] + text) == Some(-Unsigned(text).value)
  {
    hide HexInt;
    hide StripLeft;
    hide StripRight;
    hide Unsigned;
    var plus: seq<byte>, minus: seq<byte> := [0x2b] + text, [0x2d] + text;
    assert plus[1..] == text && minus[1..] == text;
    NothingToStrip(text);
    NothingToStrip(plus);
    NothingToStrip(minus);
    HexIntOf(text, text);
    HexIntOf(plus, plus);
    HexIntOf(minus, minus);
  }

  lemma HexIntOf(text: seq<byte>, s: seq<byte>)
    requires StripRight(StripLeft(text)) == s && s != []
    ensures s[0] != 0x2b && s[0] != 0x2d ==> HexInt(text) == Unsigned(s)
    ensures s[0] == 0x2b ==> HexInt(text) == Unsigned(s[1..])
    ensures s[0] == 0x2d && Unsigned(s[1..]).None? ==> HexInt(text) == None
    ensures s[0] == 0x2d && Unsigned(s[1..]).Some? ==> HexInt(text) == Some(-Unsigned(s[1..]).value)
  {
    hide StripLeft;
    hide StripRight;
    hide Unsigned;
  }

  /** A text that begins neither with a prefix nor with an underscore. */
  predicate Bare(text: seq<byte>) {
    text != [] && text[0] != UNDERSCORE && WithoutPrefix(text) == text
  }

  /** One prefix is dropped, with one underscore behind it. */
  lemma PrefixGoes(text: seq<byte>, x: byte)
    requires Bare(text) && (x == 0x78 || x == 0x58)
    ensures Unsigned([0x30, x] + text) == Unsigned(text) == Unsigned([0x30, x, UNDERSCORE] + text)
  {
    hide WellSpaced;
    hide WithoutUnderscores;
    hide FromHex;
    assert ([0x30, x] + text)[2..] == text && ([0x30, x, UNDERSCORE] + text)[3..] == text;
  }

  lemma {:induction false} MarksGo(a: seq<byte>, b: seq<byte>)
    ensures WithoutUnderscores(a + b) == WithoutUnderscores(a) + WithoutUnderscores(b)
    decreases |b|
  {
    if b == [] {
      assert a + b == a;
    } else {
      MarksGo(a, b[..|b| - 1]);
      assert (a + b)[..|a + b| - 1] == a + b[..|b| - 1];
    }
  }

  lemma OneMark()
    ensures WithoutUnderscores([UNDERSCORE]) == []
  {
    var mark: seq<byte> := [UNDERSCORE];
    var nothing := mark[..|mark| - 1];
    assert nothing == [] && WithoutUnderscores(nothing) == [];
    assert WithoutUnderscores(mark) == WithoutUnderscores(nothing);
  }

  /** An underscore between two digits is dropped; two together, or one at an end, spoil the number. */
  lemma UnderscoresCount(a: seq<byte>, b: seq<byte>)
    requires Bare(a) && a[|a| - 1] != UNDERSCORE && b != [] && b[0] != UNDERSCORE && Bare(a + b)
    requires WithoutPrefix(a + [UNDERSCORE] + b) == a + [UNDERSCORE] + b
    requires WithoutPrefix(a + [UNDERSCORE, UNDERSCORE] + b) == a + [UNDERSCORE, UNDERSCORE] + b
    requires WithoutPrefix(a + [UNDERSCORE]) == a + [UNDERSCORE]
    ensures Unsigned(a + [UNDERSCORE] + b) == Unsigned(a + b)
    ensures Unsigned(a + [UNDERSCORE, UNDERSCORE] + b) == None == Unsigned(a + [UNDERSCORE])
  {
    hide WithoutPrefix;
    OneMark();
    MarksGo(a, [UNDERSCORE]);
    MarksGo(a + [UNDERSCORE], b);
    MarksGo(a, b);
    assert WithoutUnderscores(a + [UNDERSCORE]) == WithoutUnderscores(a);
    hide WithoutUnderscores;
    hide FromHex;
    SpacedSame(a, b);
    var two := a + [UNDERSCORE, UNDERSCORE] + b;
    assert two[|a|] == UNDERSCORE && two[|a| + 1] == UNDERSCORE;
    assert !WellSpaced(two) && !WellSpaced(a + [UNDERSCORE]);
  }

  lemma SpacedSame(a: seq<byte>, b: seq<byte>)
    requires a != [] && b != [] && a[|a| - 1] != UNDERSCORE && b[0] != UNDERSCORE
    ensures WellSpaced(a + [UNDERSCORE] + b) <==> WellSpaced(a + b)
  {
    hide WellSpaced;
    if WellSpaced(a + [UNDERSCORE] + b) {
      StillSpaced(a, b);
    }
    if WellSpaced(a + b) {
      SpacedStill(a, b);
    }
  }

  lemma StillSpaced(a: seq<byte>, b: seq<byte>)
    requires a != [] && b != [] && a[|a| - 1] != UNDERSCORE && b[0] != UNDERSCORE
    requires WellSpaced(a + [UNDERSCORE] + b)
    ensures WellSpaced(a + b)
  {
    var one, none := a + [UNDERSCORE] + b, a + b;
    forall k | 0 <= k < |none| - 1 ensures !(none[k] == UNDERSCORE && none[k + 1] == UNDERSCORE) {
      if k < |a| - 1 {
        assert !(one[k] == UNDERSCORE && one[k + 1] == UNDERSCORE);
      } else if k >= |a| {
        assert !(one[k + 1] == UNDERSCORE && one[k + 1 + 1] == UNDERSCORE);
      }
    }
    assert none[0] == one[0] && none[|none| - 1] == one[|one| - 1];
  }

  lemma SpacedStill(a: seq<byte>, b: seq<byte>)
    requires a != [] && b != [] && a[|a| - 1] != UNDERSCORE && b[0] != UNDERSCORE && WellSpaced(a + b)
    ensures WellSpaced(a + [UNDERSCORE] + b)
  {
    var one, none := a + [UNDERSCORE] + b, a + b;
    forall k | 0 <= k < |one| - 1 ensures !(one[k] == UNDERSCORE && one[k + 1] == UNDERSCORE) {
      if k < |a| - 1 {
        assert !(none[k] == UNDERSCORE && none[k + 1] == UNDERSCORE);
      } else if k > |a| {
        assert !(none[k - 1] == UNDERSCORE && none[k - 1 + 1] == UNDERSCORE);
      }
    }
    assert none[0] == one[0] && none[|none| - 1] == one[|one| - 1];
  }

  /** No digits at all, or an underscore in front, is no number. */
  lemma NoDigits(text: seq<byte>)
    ensures Unsigned([]) == None
    ensures text != [] && text[0] == UNDERSCORE ==> Unsigned(text) == None
  {
    hide WithoutUnderscores;
    hide FromHex;
  }

  /** The file type is set once, whatever the mode says already. */
  lemma ModeVectors()
    ensures ModeOf(File([0x61], [], 0x1a4, false)) == 0x81a4 == ModeOf(File([0x61], [], 0x81a4, false))
    ensures ModeOf(File([0x61], [], 0x1ed, true)) == 0x41ed == ModeOf(File([0x61], [], 0x41ed, true))
    ensures ModeOf(File([0x61], [], 0xc1a4, false)) == 0xc1a4 == ModeOf(File([0x61], [], 0xc1a4, true))
    ensures ModeOf(File([0x61], [], 0x81ed, true)) == 0xc1ed == ModeOf(File([0x61], [], 0x41ed, false))
  {
  }

  /** The archive of a file and a directory, byte by byte: the body of a directory is not written. */
  lemma ArchiveVector()
    ensures Archive([File([0x61, 0x62], [0x68, 0x69, 0x0a], 0x1a4, false), File([0x64], [0x78], 0x1ed, true)], 0x3e8)
            == FILE_BYTES + DIRECTORY_BYTES + CLOSING_BYTES
  {
    hide Record;
    FileRecord();
    DirectoryRecord();
    ClosingRecord();
    var a, b, c := File([0x61, 0x62], [0x68, 0x69, 0x0a], 0x1a4, false), File([0x64], [0x78], 0x1ed, true), Closing();
    assert [a, b] + [c] == [a, b, c] && [a, b, c][1..] == [b, c] && [b, c][1..] == [c] && [c][1..] == [];
    RecordsUnfold([a, b, c], 1, 0x3e8);
    RecordsUnfold([b, c], 2, 0x3e8);
    RecordsUnfold([c], 3, 0x3e8);
    hide Closing;
    hide Records;
  }
}
