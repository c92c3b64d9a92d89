/** The newc cpio archive: the writer of rpm_builder.py and the reader of verify_rpm.py.

    A member is a magic, thirteen fields of eight hexadecimal digits, a name closed by a NUL, padding
    to a multiple of four, the body, padding again. The archive ends with a member of a reserved name.
    Names are the UTF-8 bytes of a text. */
module Cpio {
  import opened Common
  import opened Bytes

  const MAGIC: seq<byte> := [0x30, 0x37, 0x30, 0x37, 0x30, 0x31]
  /** `TRAILER!!!` */
  const TRAILER: seq<byte> := [0x54, 0x52, 0x41, 0x49, 0x4c, 0x45, 0x52, 0x21, 0x21, 0x21]
  const S_IFDIR := 0x4000
  const S_IFREG := 0x8000

  // ---- Names ----

  predicate Continues(b: byte) {
    0x80 <= b < 0xc0
  }

  /** The length of the character a byte string begins with; 0 when it begins with none (section 4 of
      RFC 3629: nothing over-long, no surrogates, nothing above U+10FFFF). */
  function CharLength(s: seq<byte>): (n: nat)
    requires s != []
    ensures n <= |s|
  {
    var b := s[0];
    if b < 0x80 then 1
    else if 0xc2 <= b < 0xe0 && |s| >= 2 && Continues(s[1]) then 2
    else if 0xe0 <= b < 0xf0 && |s| >= 3 && Continues(s[1]) && Continues(s[2])
            && (b == 0xe0 ==> s[1] >= 0xa0) && (b == 0xed ==> s[1] < 0xa0) then 3
    else if 0xf0 <= b < 0xf5 && |s| >= 4 && Continues(s[1]) && Continues(s[2]) && Continues(s[3])
            && (b == 0xf0 ==> s[1] >= 0x90) && (b == 0xf4 ==> s[1] < 0x90) then 4
    else 0
  }

  /** What `decode("utf-8")` accepts. */
  predicate Utf8(s: seq<byte>)
    decreases |s|
  {
    s == [] || (CharLength(s) > 0 && Utf8(s[CharLength(s)..]))
  }

  lemma {:induction false} AsciiIsUtf8(s: seq<byte>)
    requires forall k :: 0 <= k < |s| ==> s[k] < 0x80
    ensures Utf8(s)
    decreases |s|
  {
    if s != [] {
      AsciiIsUtf8(s[1..]);
    }
  }

  datatype File = File(path: seq<byte>, body: seq<byte>, mode: nat, isDir: bool)

  // ---- Hexadecimal ----

  function Digit(d: nat): byte
    requires d < 16
  {
    if d < 10 then 0x30 + d else 0x61 + (d - 10)
  }

  function DigitValue(b: byte): Option<nat> {
    if 0x30 <= b <= 0x39 then Some(b - 0x30)
    else if 0x61 <= b <= 0x66 then Some(b - 0x61 + 10)
    else if 0x41 <= b <= 0x46 then Some(b - 0x41 + 10)
    else None
  }

  function Digits(v: nat): (r: seq<byte>)
    ensures |r| > 0
  {
    if v < 16 then [Digit(v)] else Digits(v / 16) + [Digit(v % 16)]
  }

  /** `f"{v:08x}"`: never fewer than eight digits, but more when the number needs them. */
  function Hex8(v: nat): seq<byte> {
    var digits := Digits(v);
    seq(if |digits| < 8 then 8 - |digits| else 0, _ => 0x30) + digits
  }

  /** The number plain digits stand for. */
  function FromHex(text: seq<byte>): Option<nat> {
    if text == [] then None
    else
      var low := DigitValue(text[|text| - 1]);
      if low.None? then None
      else if |text| == 1 then low
      else
        var high := FromHex(text[..|text| - 1]);
        if high.None? then None else Some(high.value * 16 + low.value)
  }

  predicate IsSpace(b: byte) {
    0x09 <= b <= 0x0d || b == 0x20
  }

  function StripLeft(text: seq<byte>): seq<byte> {
    if text != [] && IsSpace(text[0]) then StripLeft(text[1..]) else text
  }

  function StripRight(text: seq<byte>): seq<byte> {
    if text != [] && IsSpace(text[|text| - 1]) then StripRight(text[..|text| - 1]) else text
  }

  const UNDERSCORE: byte := 0x5f

  /** A single underscore may stand between two digits. */
  predicate WellSpaced(text: seq<byte>) {
    && text != [] && text[0] != UNDERSCORE && text[|text| - 1] != UNDERSCORE
    && forall k :: 0 <= k < |text| - 1 ==> !(text[k] == UNDERSCORE && text[k + 1] == UNDERSCORE)
  }

  function WithoutUnderscores(text: seq<byte>): seq<byte> {
    if text == [] then []
    else WithoutUnderscores(text[..|text| - 1]) + if text[|text| - 1] == UNDERSCORE then [] else [text[|text| - 1]]
  }

  /** `0x` or `0X` in front, and an underscore behind it. */
  function WithoutPrefix(text: seq<byte>): seq<byte> {
    if |text| >= 2 && text[0] == 0x30 && (text[1] == 0x78 || text[1] == 0x58) then
      if |text| > 2 && text[2] == UNDERSCORE then text[3..] else text[2..]
    else text
  }

  function Unsigned(text: seq<byte>): Option<int> {
    var body := WithoutPrefix(text);
    var v := if WellSpaced(body) then FromHex(WithoutUnderscores(body)) else None;
    if v.None? then None else Some(v.value)
  }

  /** `int(text, 16)`: white space at the ends, a sign, a prefix and underscores are accepted. */
  function HexInt(text: seq<byte>): Option<int> {
    var stripped := StripRight(StripLeft(text));
    if stripped != [] && stripped[0] == 0x2d then
      var v := Unsigned(stripped[1..]);
      if v.None? then None else Some(-v.value)
    else if stripped != [] && stripped[0] == 0x2b then Unsigned(stripped[1..])
    else Unsigned(stripped)
  }

  lemma {:induction false} AllDigits(text: seq<byte>)
    requires FromHex(text).Some?
    ensures text != [] && forall k :: 0 <= k < |text| ==> DigitValue(text[k]).Some?
    decreases |text|
  {
    if |text| > 1 {
      AllDigits(text[..|text| - 1]);
    }
  }

  lemma {:induction false} NoUnderscores(text: seq<byte>)
    requires forall k :: 0 <= k < |text| ==> text[k] != UNDERSCORE
    ensures WithoutUnderscores(text) == text
    decreases |text|
  {
    if text != [] {
      NoUnderscores(text[..|text| - 1]);
    }
  }

  lemma PlainHasNoMarks(text: seq<byte>)
    requires FromHex(text).Some?
    ensures text != []
    ensures forall k :: 0 <= k < |text| ==> text[k] != UNDERSCORE && text[k] != 0x78 && text[k] != 0x58
  {
    AllDigits(text);
    hide FromHex;
  }

  lemma PlainIsUnsigned(text: seq<byte>)
    requires FromHex(text).Some?
    ensures Unsigned(text).Some? && Unsigned(text).value == FromHex(text).value
  {
    hide FromHex;
    hide WithoutUnderscores;
    PlainHasNoMarks(text);
    NoUnderscores(text);
    assert WithoutPrefix(text) == text;
  }

  lemma NothingToStrip(text: seq<byte>)
    requires text != [] && !IsSpace(text[0]) && !IsSpace(text[|text| - 1])
    ensures StripRight(StripLeft(text)) == text
  {
  }

  /** Plain digits are read as the number they stand for, with a minus as its opposite. */
  lemma PlainIsRead(text: seq<byte>)
    requires FromHex(text).Some?
    ensures HexInt(text).Some? && HexInt(text).value == FromHex(text).value
    ensures HexInt([0x2d] + text).Some? && HexInt([0x2d] + text).value + FromHex(text).value == 0
  {
    AllDigits(text);
    PlainIsUnsigned(text);
    var minus := [0x2d] + text;
    assert minus[|minus| - 1] == text[|text| - 1] && minus[1..] == text;
    assert DigitValue(text[0]).Some? && DigitValue(text[|text| - 1]).Some?;
    NothingToStrip(text);
    NothingToStrip(minus);
    hide FromHex;
    hide Unsigned;
    hide StripLeft;
    hide StripRight;
  }

  function Power16(n: nat): nat {
    if n == 0 then 1 else 16 * Power16(n - 1)
  }

  lemma {:induction false} DigitsLength(v: nat, n: nat)
    requires n > 0
    ensures |Digits(v)| <= n <==> v < Power16(n)
  {
    if v >= 16 && n > 1 {
      DigitsLength(v / 16, n - 1);
      Quotient(v, Power16(n - 1));
    } else if n > 1 {
      Power16Grows(n);
    }
  }

  lemma Quotient(v: nat, p: nat)
    ensures v / 16 < p <==> v < 16 * p
  {
  }

  lemma {:induction false} Power16Grows(n: nat)
    requires n > 0
    ensures Power16(n) >= 16
  {
    if n > 1 {
      Power16Grows(n - 1);
    }
  }

  lemma {:induction false} DigitsRead(v: nat)
    ensures FromHex(Digits(v)) == Some(v)
  {
    if v >= 16 {
      DigitsRead(v / 16);
      assert Digits(v)[..|Digits(v)| - 1] == Digits(v / 16);
    }
  }

  lemma {:induction false} LeadingZeros(n: nat, text: seq<byte>)
    requires FromHex(text).Some?
    ensures FromHex(seq(n, _ => 0x30) + text) == FromHex(text)
    decreases |text|
  {
    var all := seq(n, _ => 0x30) + text;
    if |text| > 1 {
      LeadingZeros(n, text[..|text| - 1]);
      assert all[..|all| - 1] == seq(n, _ => 0x30) + text[..|text| - 1];
    } else if n > 0 {
      ZerosRead(n);
      assert all[..|all| - 1] == seq(n, _ => 0x30);
    } else {
      assert all == text;
    }
  }

  lemma {:induction false} ZerosRead(n: nat)
    requires n > 0
    ensures FromHex(seq(n, _ => 0x30)) == Some(0)
  {
    if n > 1 {
      ZerosRead(n - 1);
      assert seq(n, _ => 0x30)[..n - 1] == seq(n - 1, _ => 0x30);
    }
  }

  /** A number comes back from its field, and takes exactly the eight digits when it has 32 bits. */
  lemma HexField(v: nat)
    ensures FromHex(Hex8(v)) == Some(v) && HexInt(Hex8(v)) == Some(v)
    ensures |Hex8(v)| == 8 <==> v < TWO32
  {
    DigitsRead(v);
    LeadingZeros(if |Digits(v)| < 8 then 8 - |Digits(v)| else 0, Digits(v));
    PlainIsRead(Hex8(v));
    hide HexInt;
    DigitsLength(v, 8);
    assert Power16(8) == TWO32 by {
      assert Power16(4) == TWO16;
    }
  }

  // ---- Writer ----

  /** `m | bit` for a number with one bit set. */
  function WithBit(m: nat, bit: nat): nat
    requires bit > 0
  {
    if m / bit % 2 == 1 then m else m + bit
  }

  function ModeOf(f: File): nat {
    if f.path == TRAILER then S_IFREG else if f.isDir then WithBit(f.mode, S_IFDIR) else WithBit(f.mode, S_IFREG)
  }

  function BodyOf(f: File): seq<byte> {
    if f.path == TRAILER || f.isDir then [] else f.body
  }

  /** The member that closes every archive. */
  function Closing(): File {
    File(TRAILER, [], 0, false)
  }

  function Fields(f: File, ino: nat, time: nat): (r: seq<nat>)
    ensures |r| == 13
  {
    [ino, ModeOf(f), 0, 0, 1, time, |BodyOf(f)|, 0, 0, 0, 0, |f.path| + 1, 0]
  }

  function FieldsText(fields: seq<nat>): seq<byte> {
    Joined(Hexes(fields))
  }

  function Hexes(fields: seq<nat>): (r: seq<seq<byte>>)
    ensures |r| == |fields|
  {
    seq(|fields|, i requires 0 <= i < |fields| => Hex8(fields[i]))
  }

  function Joined(texts: seq<seq<byte>>): seq<byte> {
    if texts == [] then [] else Joined(texts[..|texts| - 1]) + texts[|texts| - 1]
  }

  function Padding(n: nat): (r: nat)
    ensures r < 4 && (n + r) % 4 == 0
  {
    (4 - n % 4) % 4
  }

  function Padded(s: seq<byte>): (r: seq<byte>)
    ensures |r| % 4 == 0
  {
    s + Zeros(Padding(|s|))
  }

  function Head(f: File, ino: nat, time: nat): seq<byte> {
    MAGIC + FieldsText(Fields(f, ino, time)) + (f.path + [0])
  }

  /** One member, on its own. */
  function Record(f: File, ino: nat, time: nat): (r: seq<byte>)
    ensures |r| % 4 == 0
  {
    Padded(Padded(Head(f, ino, time)) + BodyOf(f))
  }

  function Records(files: seq<File>, ino: nat, time: nat): seq<byte>
    decreases files
  {
    if files == [] then [] else Record(files[0], ino, time) + Records(files[1..], ino + 1, time)
  }

  function Archive(files: seq<File>, time: nat): seq<byte> {
    Records(files + [Closing()], 1, time)
  }

  // ---- Reader ----

  /** `n` fields of eight characters; `None` when one is not a number. */
  function ReadFields(raw: seq<byte>, at: int, n: nat): (r: Option<seq<int>>)
    ensures r.Some? ==> |r.value| == n
  {
    if n == 0 then Some([])
    else
      var front := ReadFields(raw, at, n - 1);
      var last := HexInt(Slice(raw, at + 8 * (n - 1), at + 8 * n));
      if front.None? || last.None? then None else Some(front.value + [last.value])
  }

  datatype Member = Member(name: seq<byte>, mode: int, body: seq<byte>, next: int)

  /** `(pos + 3) & ~3`, for negative positions too. */
  function Align(pos: int): (r: int)
    ensures pos <= r < pos + 4 && r % 4 == 0
  {
    (pos + 3) / 4 * 4
  }

  /** The member at a position. Slices are Python's: a negative position counts from the end. A name that
      is no UTF-8 is an error like a field that is no number. */
  function ReadMember(raw: seq<byte>, pos: int): Option<Member> {
    if Slice(raw, pos, pos + 6) != MAGIC then None
    else
      var fields := ReadFields(raw, pos + 6, 13);
      if fields.None? then None
      else
        var mode, size, nameSize := fields.value[1], fields.value[6], fields.value[11];
        var nameAt := pos + 110;
        var name := Slice(raw, nameAt, nameAt + nameSize - 1);
        var bodyAt := Align(nameAt + nameSize);
        if !Utf8(name) then None
        else Some(Member(name, mode, Slice(raw, bodyAt, bodyAt + size), Align(bodyAt + size)))
  }

  type Contents = map<seq<byte>, (int, seq<byte>)>

  datatype Parsed = Malformed | Files(found: Contents) | StillRunning

  /** The loop from a position on, for a number of turns. */
  function ParseFrom(raw: seq<byte>, pos: int, found: Contents, turns: nat): Parsed
    decreases turns
  {
    if turns == 0 then StillRunning
    else
      var m := ReadMember(raw, pos);
      if m.None? then Malformed
      else if m.value.name == TRAILER then Files(found)
      else ParseFrom(raw, m.value.next, found[m.value.name := (m.value.mode, m.value.body)], turns - 1)
  }

  function Parse(raw: seq<byte>, turns: nat): Parsed {
    ParseFrom(raw, 0, map[], turns)
  }

  // ---- Reading one member back ----

  predicate AllU32(fields: seq<nat>) {
    forall k :: 0 <= k < |fields| ==> fields[k] < TWO32
  }

  predicate Eights(texts: seq<seq<byte>>, values: seq<int>) {
    |texts| == |values| && forall k :: 0 <= k < |texts| ==> |texts[k]| == 8 && HexInt(texts[k]) == Some(values[k])
  }

  lemma {:induction false} JoinedLength(texts: seq<seq<byte>>, values: seq<int>)
    requires Eights(texts, values)
    ensures |Joined(texts)| == 8 * |texts|
  {
    hide HexInt;
    if texts != [] {
      JoinedLength(texts[..|texts| - 1], values[..|texts| - 1]);
    }
  }

  lemma HexesAreEights(fields: seq<nat>)
    requires AllU32(fields)
    ensures Eights(Hexes(fields), fields)
  {
    hide HexInt;
    hide FromHex;
    hide Hex8;
    forall k | 0 <= k < |fields| ensures |Hex8(fields[k])| == 8 && HexInt(Hex8(fields[k])) == Some(fields[k]) {
      HexField(fields[k]);
    }
  }

  lemma FieldsLength(fields: seq<nat>)
    requires AllU32(fields)
    ensures |FieldsText(fields)| == 8 * |fields|
  {
    HexesAreEights(fields);
    JoinedLength(Hexes(fields), fields);
    hide *;
  }

  lemma FieldsRead(pre: seq<byte>, fields: seq<nat>, post: seq<byte>)
    requires AllU32(fields)
    ensures ReadFields(pre + FieldsText(fields) + post, |pre|, |fields|) == Some(fields)
  {
    HexesAreEights(fields);
    TextsRead(pre, Hexes(fields), fields, post);
    hide ReadFields;
    hide Hexes;
    hide Joined;
  }

  /** Fields of eight characters are read back one by one. */
  lemma {:induction false} TextsRead(pre: seq<byte>, texts: seq<seq<byte>>, values: seq<int>, post: seq<byte>)
    requires Eights(texts, values)
    ensures ReadFields(pre + Joined(texts) + post, |pre|, |texts|) == Some(values)
    decreases |texts|
  {
    hide *;
    EightsSize(texts, values);
    if texts == [] {
      NoFields(pre + Joined(texts) + post, |pre|);
    } else {
      var front, last := texts[..|texts| - 1], texts[|texts| - 1];
      EightsParts(texts, values);
      TextsRead(pre, front, values[..|texts| - 1], last + post);
      JoinedUnfold(texts);
      Regroup(pre, Joined(front), last, post);
      LastField(pre, front, values[..|texts| - 1], last, post);
      ReadFieldsSnoc(pre + Joined(texts) + post, |pre|, values);
    }
  }

  lemma NoFields(raw: seq<byte>, at: nat)
    ensures ReadFields(raw, at, 0) == Some([])
  {
  }

  lemma LastField(pre: seq<byte>, front: seq<seq<byte>>, values: seq<int>, last: seq<byte>, post: seq<byte>)
    requires Eights(front, values) && |last| == 8
    ensures var at := |pre| + 8 * |front|; Slice(pre + Joined(front) + last + post, at, at + 8) == last
  {
    hide *;
    JoinedLength(front, values);
    SliceOfMiddle(pre + Joined(front), last, post, 0, 8);
    Whole(last);
  }

  lemma EightsSize(texts: seq<seq<byte>>, values: seq<int>)
    requires Eights(texts, values)
    ensures |texts| == |values|
  {
    hide HexInt;
  }

  lemma EightsParts(texts: seq<seq<byte>>, values: seq<int>)
    requires texts != [] && |texts| == |values| && Eights(texts, values)
    ensures Eights(texts[..|texts| - 1], values[..|texts| - 1])
    ensures |texts[|texts| - 1]| == 8 && HexInt(texts[|texts| - 1]) == Some(values[|texts| - 1])
  {
    hide HexInt;
  }

  lemma JoinedUnfold(texts: seq<seq<byte>>)
    requires texts != []
    ensures Joined(texts) == Joined(texts[..|texts| - 1]) + texts[|texts| - 1]
  {
  }

  lemma Regroup(a: seq<byte>, b: seq<byte>, c: seq<byte>, d: seq<byte>)
    ensures a + (b + c) + d == a + b + (c + d) == (a + b) + c + d
  {
    assert (a + b) + c == a + (b + c);
  }

  lemma ReadFieldsSnoc(raw: seq<byte>, at: nat, fields: seq<int>)
    requires fields != []
    requires ReadFields(raw, at, |fields| - 1) == Some(fields[..|fields| - 1])
    requires var from := at + 8 * (|fields| - 1); HexInt(Slice(raw, from, from + 8)) == Some(fields[|fields| - 1])
    ensures ReadFields(raw, at, |fields|) == Some(fields)
  {
    hide Slice;
    hide HexInt;
    assert fields[..|fields| - 1] + [fields[|fields| - 1]] == fields;
    assert at + 8 * (|fields| - 1) + 8 == at + 8 * |fields|;
  }

  /** Every number of the member has room in its field, and its name is an encoded text. */
  predicate Fits(f: File, ino: nat, time: nat) {
    && Utf8(f.path)
    && ino < TWO32 && time < TWO32 && ModeOf(f) < TWO32 && |BodyOf(f)| < TWO32 && |f.path| + 1 < TWO32
  }

  lemma FitsFields(f: File, ino: nat, time: nat)
    requires Fits(f, ino, time)
    ensures AllU32(Fields(f, ino, time))
    ensures Fields(f, ino, time)[1] == ModeOf(f) && Fields(f, ino, time)[6] == |BodyOf(f)|
    ensures Fields(f, ino, time)[11] == |f.path| + 1 && Utf8(f.path)
  {
    hide Utf8;
    hide ModeOf;
    hide BodyOf;
  }

  lemma AlignIsPadding(pos: nat, n: nat)
    requires pos % 4 == 0
    ensures Align(pos + n) == pos + n + Padding(n)
  {
  }

  /** A member standing at a multiple of four is read back, and the reader skips exactly the padding
      that was written. */
  lemma MemberRoundTrip(pre: seq<byte>, f: File, ino: nat, time: nat, post: seq<byte>)
    requires Fits(f, ino, time) && |pre| % 4 == 0
    ensures ReadMember(pre + Record(f, ino, time) + post, |pre|) ==
            Some(Member(f.path, ModeOf(f), BodyOf(f), |pre| + |Record(f, ino, time)|))
  {
    hide *;
    var fields := Fields(f, ino, time);
    var text, name, body := FieldsText(fields), f.path + [0], BodyOf(f);
    FitsFields(f, ino, time);
    FieldsLength(fields);
    var headSize := 110 + |name|;
    var pad1, pad2 := Zeros(Padding(headSize)), Zeros(Padding(headSize + Padding(headSize) + |body|));
    RecordIs(f, ino, time, text, name, body);
    var raw := pre + Record(f, ino, time) + post;
    Parts(pre, MAGIC, text, name, pad1, body, pad2, post);
    MagicSize();
    SliceOfMiddle(pre, MAGIC, text + name + pad1 + body + pad2 + post, 0, 6);
    Whole(MAGIC);
    FieldsRead(pre + MAGIC, fields, name + pad1 + body + pad2 + post);
    SliceOfMiddle(pre + MAGIC + text, name, pad1 + body + pad2 + post, 0, |f.path|);
    SliceOfMiddle(pre + MAGIC + text + name + pad1, body, pad2 + post, 0, |body|);
    Whole(body);
    assert name[0..|f.path|] == f.path;
    AlignIsPadding(|pre|, headSize);
    AlignIsPadding(|pre|, headSize + Padding(headSize) + |body|);
    ReadMemberIs(raw, |pre|, fields, f.path, |name|, body, |body|, |pre| + headSize + Padding(headSize));
  }

  lemma MagicSize()
    ensures |MAGIC| == 6
  {
  }

  lemma RecordIs(f: File, ino: nat, time: nat, text: seq<byte>, name: seq<byte>, body: seq<byte>)
    requires text == FieldsText(Fields(f, ino, time)) && name == f.path + [0] && body == BodyOf(f) && |text| == 104
    ensures var headSize := 110 + |name|;
            var pad1, pad2 := Zeros(Padding(headSize)), Zeros(Padding(headSize + Padding(headSize) + |body|));
            Record(f, ino, time) == MAGIC + text + name + pad1 + body + pad2
            && |Record(f, ino, time)| == headSize + |pad1| + |body| + |pad2|
  {
    hide FieldsText;
    hide Fields;
    hide BodyOf;
    hide Padding;
    var headSize := 110 + |name|;
    var pad1, pad2 := Zeros(Padding(headSize)), Zeros(Padding(headSize + Padding(headSize) + |body|));
    assert |MAGIC + text + name| == headSize;
    assert Padded(Head(f, ino, time)) == MAGIC + text + name + pad1;
  }

  lemma Parts(pre: seq<byte>, a: seq<byte>, b: seq<byte>, c: seq<byte>, d: seq<byte>, e: seq<byte>, f: seq<byte>,
              post: seq<byte>)
    ensures var raw := pre + (a + b + c + d + e + f) + post;
            && raw == pre + a + (b + c + d + e + f + post)
            && raw == (pre + a) + b + (c + d + e + f + post)
            && raw == (pre + a + b) + c + (d + e + f + post)
            && raw == (pre + a + b + c + d) + e + (f + post)
  {
  }

  lemma ReadMemberIs(raw: seq<byte>, pos: int, fields: seq<int>, name: seq<byte>, nameSize: int, body: seq<byte>,
                     size: int, bodyAt: int)
    requires |fields| == 13 && Slice(raw, pos, pos + 6) == MAGIC && ReadFields(raw, pos + 6, 13) == Some(fields)
    requires fields[11] == nameSize && fields[6] == size
    requires Slice(raw, pos + 110, pos + 110 + nameSize - 1) == name && Utf8(name)
    requires bodyAt == Align(pos + 110 + nameSize) && Slice(raw, bodyAt, bodyAt + size) == body
    ensures ReadMember(raw, pos) == Some(Member(name, fields[1], body, Align(bodyAt + size)))
  {
    hide Slice;
    hide ReadFields;
    hide Align;
    hide Utf8;
  }

  // ---- Reading an archive back ----

  /** What a reader should find: the files before the first one that bears the reserved name, a later
      file of a path replacing an earlier one. */
  function Listed(files: seq<File>, found: Contents): Contents
    decreases files
  {
    if files == [] || files[0].path == TRAILER then found
    else Listed(files[1..], found[files[0].path := (ModeOf(files[0]), BodyOf(files[0]))])
  }

  predicate AllFit(files: seq<File>, ino: nat, time: nat) {
    forall k :: 0 <= k < |files| ==> Fits(files[k], ino + k, time)
  }

  lemma AllFitTail(files: seq<File>, ino: nat, time: nat)
    requires files != [] && AllFit(files, ino, time)
    ensures Fits(files[0], ino, time) && AllFit(files[1..], ino + 1, time)
  {
    hide Fits;
    var rest := files[1..];
    assert Fits(files[0], ino + 0, time);
    forall k | 0 <= k < |rest| ensures Fits(rest[k], ino + 1 + k, time) {
      assert Fits(files[k + 1], ino + (k + 1), time);
    }
  }

  lemma {:induction false} ReadsOn(pre: seq<byte>, files: seq<File>, ino: nat, time: nat, found: Contents, turns: nat)
    requires files != [] && files[|files| - 1] == Closing() && AllFit(files, ino, time) && |pre| % 4 == 0
    requires turns >= |files|
    ensures ParseFrom(pre + Records(files, ino, time), |pre|, found, turns) == Files(Listed(files, found))
    decreases |files|
  {
    hide *;
    AllFitTail(files, ino, time);
    var f, rest := files[0], files[1..];
    var record, after := Record(f, ino, time), Records(rest, ino + 1, time);
    RecordsUnfold(files, ino, time);
    var raw := pre + Records(files, ino, time);
    Beside(pre, record, after);
    MemberRoundTrip(pre, f, ino, time, after);
    if f.path == TRAILER {
      ListedStops(files, found);
    } else {
      var more := found[f.path := (ModeOf(f), BodyOf(f))];
      ClosingIsReserved();
      assert |files| > 1 && rest[|rest| - 1] == files[|files| - 1];
      ReadsOn(pre + record, rest, ino + 1, time, more, turns - 1);
      ListedGoesOn(files, found);
    }
    ParseFromIs(raw, |pre|, found, turns);
  }

  lemma Beside(a: seq<byte>, b: seq<byte>, c: seq<byte>)
    ensures a + (b + c) == a + b + c
  {
  }

  lemma ClosingIsReserved()
    ensures Closing().path == TRAILER
  {
  }

  lemma RecordsUnfold(files: seq<File>, ino: nat, time: nat)
    requires files != []
    ensures Records(files, ino, time) == Record(files[0], ino, time) + Records(files[1..], ino + 1, time)
  {
    hide Record;
  }

  lemma ListedStops(files: seq<File>, found: Contents)
    requires files != [] && files[0].path == TRAILER
    ensures Listed(files, found) == found
  {
  }

  lemma ListedGoesOn(files: seq<File>, found: Contents)
    requires files != [] && files[0].path != TRAILER
    ensures Listed(files, found) == Listed(files[1..], found[files[0].path := (ModeOf(files[0]), BodyOf(files[0]))])
  {
    hide ModeOf;
    hide BodyOf;
  }

  lemma ParseFromIs(raw: seq<byte>, pos: int, found: Contents, turns: nat)
    requires turns > 0
    ensures var m := ReadMember(raw, pos);
            ParseFrom(raw, pos, found, turns) ==
            if m.None? then Malformed
            else if m.value.name == TRAILER then Files(found)
            else ParseFrom(raw, m.value.next, found[m.value.name := (m.value.mode, m.value.body)], turns - 1)
  {
    hide ReadMember;
  }

  lemma {:induction false} ClosingIsNotListed(files: seq<File>, found: Contents)
    ensures Listed(files + [Closing()], found) == Listed(files, found)
    decreases |files|
  {
    var all := files + [Closing()];
    if files != [] {
      assert all[1..] == files[1..] + [Closing()];
      if files[0].path != TRAILER {
        ClosingIsNotListed(files[1..], found[files[0].path := (ModeOf(files[0]), BodyOf(files[0]))]);
      }
    }
  }

  /** Whatever the files, the reader takes one turn for each and one for the closing member, and finds
      exactly the listed ones with their mode and body. */
  lemma ArchiveRoundTrip(files: seq<File>, time: nat, turns: nat)
    requires AllFit(files + [Closing()], 1, time) && turns > |files|
    ensures Parse(Archive(files, time), turns) == Files(Listed(files, map[]))
  {
    hide Records;
    hide ParseFrom;
    hide Listed;
    hide AllFit;
    var all := files + [Closing()];
    ReadsOn([], all, 1, time, map[], turns);
    assert [] + Records(all, 1, time) == Records(all, 1, time);
    ClosingIsNotListed(files, map[]);
  }

  predicate Distinct(files: seq<File>) {
    forall i, j :: 0 <= i < j < |files| ==> files[i].path != files[j].path
  }

  predicate NoneReserved(files: seq<File>) {
    forall k :: 0 <= k < |files| ==> files[k].path != TRAILER
  }

  /** Nothing lost and nothing merged: one record for each file, with its mode and body. */
  predicate Complete(files: seq<File>, found: Contents) {
    && |found| == |files|
    && forall k :: 0 <= k < |files| ==>
         files[k].path in found && found[files[k].path] == (ModeOf(files[k]), BodyOf(files[k]))
  }

  lemma {:induction false} ListedKeeps(files: seq<File>, found: Contents, path: seq<byte>)
    requires forall k :: 0 <= k < |files| ==> files[k].path != path
    ensures path in found <==> path in Listed(files, found)
    ensures path in found ==> Listed(files, found)[path] == found[path]
    decreases |files|
  {
    if files != [] && files[0].path != TRAILER {
      ListedKeeps(files[1..], found[files[0].path := (ModeOf(files[0]), BodyOf(files[0]))], path);
    }
  }

  lemma {:induction false} ListedSize(files: seq<File>, found: Contents)
    ensures |found| <= |Listed(files, found)| <= |found| + |files|
    ensures |Listed(files, found)| == |found| + |files| ==> Distinct(files) && NoneReserved(files)
    ensures |Listed(files, found)| == |found| + |files| ==>
            forall k :: 0 <= k < |files| ==> files[k].path !in found
    decreases |files|
  {
    if files != [] && files[0].path != TRAILER {
      var f := files[0];
      var more := found[f.path := (ModeOf(f), BodyOf(f))];
      assert more.Keys == found.Keys + {f.path};
      ListedSize(files[1..], more);
      if |Listed(files, found)| == |found| + |files| {
        HeadAndTail(files, found);
      }
    }
  }

  lemma HeadAndTail(files: seq<File>, found: Contents)
    requires files != [] && files[0].path != TRAILER && files[0].path !in found
    requires Distinct(files[1..]) && NoneReserved(files[1..])
    requires forall k :: 0 <= k < |files[1..]| ==>
               files[1..][k].path !in found && files[1..][k].path != files[0].path
    ensures Distinct(files) && NoneReserved(files)
    ensures forall k :: 0 <= k < |files| ==> files[k].path !in found
  {
    forall k | 0 < k < |files|
      ensures files[k].path != TRAILER && files[k].path !in found && files[k].path != files[0].path {
      assert files[1..][k - 1] == files[k];
    }
    forall i, j | 0 <= i < j < |files| ensures files[i].path != files[j].path {
      if i > 0 {
        assert files[1..][i - 1] == files[i] && files[1..][j - 1] == files[j];
      }
    }
  }

  lemma {:induction false} AllListed(files: seq<File>, found: Contents)
    requires Distinct(files) && NoneReserved(files)
    requires forall k :: 0 <= k < |files| ==> files[k].path !in found
    ensures |Listed(files, found)| == |found| + |files|
    ensures forall k :: 0 <= k < |files| ==>
              files[k].path in Listed(files, found) &&
              Listed(files, found)[files[k].path] == (ModeOf(files[k]), BodyOf(files[k]))
    decreases |files|
  {
    if files != [] {
      var f, rest := files[0], files[1..];
      var more := found[f.path := (ModeOf(f), BodyOf(f))];
      assert more.Keys == found.Keys + {f.path};
      assert Distinct(rest) && NoneReserved(rest);
      AllListed(rest, more);
      ListedKeeps(rest, more, f.path);
      forall k | 0 <= k < |files|
        ensures files[k].path in Listed(files, found) &&
                Listed(files, found)[files[k].path] == (ModeOf(files[k]), BodyOf(files[k]))
      {
        if k > 0 {
          assert rest[k - 1] == files[k];
        }
      }
    }
  }

  /** Every file comes back, and no others do, exactly when the paths differ and none is the reserved one. */
  lemma CompleteIffDistinct(files: seq<File>, time: nat, turns: nat)
    requires AllFit(files + [Closing()], 1, time) && turns > |files|
    ensures (var r := Parse(Archive(files, time), turns); r.Files? && Complete(files, r.found))
            <==> Distinct(files) && NoneReserved(files)
  {
    hide Archive;
    hide Parse;
    hide AllFit;
    ArchiveRoundTrip(files, time, turns);
    ListedSize(files, map[]);
    if Distinct(files) && NoneReserved(files) {
      AllListed(files, map[]);
    }
  }

  /** A directory that bears the reserved name, and another one behind it: the reader finds neither. Two
      directories of one path: it finds the second. */
  lemma FilesGoMissing(turns: nat)
    requires turns > 2
    ensures var a, b, c := File([0x61], [], 0, true), File([0x61], [], 1, true), File(TRAILER, [], 0, true);
            && AllFit([c, a, Closing()], 1, 0) && Parse(Archive([c, a], 0), turns) == Files(map[])
            && AllFit([a, b, Closing()], 1, 0)
            && Parse(Archive([a, b], 0), turns) == Files(map[[0x61] := (ModeOf(b), [])])
  {
    var a, b, c := File([0x61], [], 0, true), File([0x61], [], 1, true), File(TRAILER, [], 0, true);
    TwoFit(c, a);
    TwoFit(a, b);
    assert [c, a] + [Closing()] == [c, a, Closing()] && [a, b] + [Closing()] == [a, b, Closing()];
    TwoListed(a, b, c);
    hide Archive;
    hide Parse;
    hide AllFit;
    hide Listed;
    ArchiveRoundTrip([c, a], 0, turns);
    ArchiveRoundTrip([a, b], 0, turns);
  }

  lemma TwoListed(a: File, b: File, c: File)
    requires a == File([0x61], [], 0, true) && b == File([0x61], [], 1, true) && c.path == TRAILER
    ensures Listed([c, a], map[]) == map[] && Listed([a, b], map[]) == map[[0x61] := (ModeOf(b), [])]
  {
    hide ModeOf;
    assert [a, b][1..] == [b] && [b][1..] == [];
    var first: Contents := map[][[0x61] := (ModeOf(a), [])];
    assert Listed([b], first) == first[[0x61] := (ModeOf(b), [])];
    assert first[[0x61] := (ModeOf(b), [])] == map[[0x61] := (ModeOf(b), [])];
  }

  lemma TwoFit(a: File, b: File)
    requires a.path in [TRAILER, [0x61]] && b.path in [TRAILER, [0x61]]
    requires a.isDir && b.isDir && a.mode <= 1 && b.mode <= 1 && a.body == b.body == []
    ensures AllFit([a, b, Closing()], 1, 0)
  {
    DirectoryFits(a, 1);
    DirectoryFits(b, 2);
    ClosingFits(3);
    hide *;
    ThreeFit(a, b, Closing());
  }

  lemma ThreeFit(a: File, b: File, c: File)
    requires Fits(a, 1, 0) && Fits(b, 2, 0) && Fits(c, 3, 0)
    ensures AllFit([a, b, c], 1, 0)
  {
    hide Fits;
  }

  lemma DirectoryFits(f: File, ino: nat)
    requires f.path in [TRAILER, [0x61]] && f.isDir && f.mode <= 1 && f.body == [] && ino <= 3
    ensures Fits(f, ino, 0)
  {
    hide Utf8;
    AsciiIsUtf8(f.path);
  }

  lemma ClosingFits(ino: nat)
    requires ino <= 3
    ensures Fits(Closing(), ino, 0)
  {
    hide Utf8;
    AsciiIsUtf8(Closing().path);
  }

  // ---- Writer and reader as loops ----

  lemma {:induction false} RecordsSnoc(files: seq<File>, k: nat, ino: nat, time: nat)
    requires k < |files|
    ensures Records(files[..k + 1], ino, time) == Records(files[..k], ino, time) + Record(files[k], ino + k, time)
    decreases k
  {
    hide Record;
    if k == 0 {
      assert files[..1][1..] == [];
    } else {
      RecordsSnoc(files[1..], k - 1, ino + 1, time);
      assert files[..k + 1][1..] == files[1..][..k] && files[..k][1..] == files[1..][..k - 1];
    }
  }

  lemma Multiples(a: nat, b: nat)
    requires a % 4 == 0 && b % 4 == 0
    ensures (a + b) % 4 == 0
  {
  }

  lemma {:induction false} RecordsAlign(files: seq<File>, ino: nat, time: nat)
    ensures |Records(files, ino, time)| % 4 == 0
    decreases |files|
  {
    hide Record;
    if files != [] {
      RecordsAlign(files[1..], ino + 1, time);
      var first, rest := |Record(files[0], ino, time)|, |Records(files[1..], ino + 1, time)|;
      assert first % 4 == 0 && rest % 4 == 0;
      Multiples(first, rest);
    }
  }

  /** Padding the whole output pads the member, when the output before it was a multiple of four. */
  lemma PadsAsRecord(out: seq<byte>, f: File, ino: nat, time: nat)
    requires |out| % 4 == 0
    ensures Padded(Padded(out + Head(f, ino, time)) + BodyOf(f)) == out + Record(f, ino, time)
  {
    hide Head;
    hide BodyOf;
    PadBehind(out, Head(f, ino, time));
    PadBehind(out, Padded(Head(f, ino, time)) + BodyOf(f));
    assert out + Padded(Head(f, ino, time)) + BodyOf(f) == out + (Padded(Head(f, ino, time)) + BodyOf(f));
  }

  lemma PadBehind(out: seq<byte>, s: seq<byte>)
    requires |out| % 4 == 0
    ensures Padded(out + s) == out + Padded(s)
  {
  }

  /** `_cpio_newc`: one output that grows and is padded as a whole. */
  method CpioNewc(entries: seq<File>, time: nat) returns (out: seq<byte>)
    ensures out == Archive(entries, time)
  {
    hide *;
    out := [];
    var ino := 1;
    var all := entries + [Closing()];
    NoRecords(all, time);
    for k := 0 to |all|
      invariant ino == k + 1
      invariant out == Records(all[..k], 1, time)
    {
      var item := all[k];
      RecordsSnoc(all, k, 1, time);
      RecordsAlign(all[..k], 1, time);
      PadsAsRecord(out, item, ino, time);
      HeadIs(out, item, ino, time);
      var name := item.path + [0];
      out := out + MAGIC;
      out := out + FieldsText(Fields(item, ino, time));
      out := out + name;
      out := Padded(out);
      out := out + BodyOf(item);
      out := Padded(out);
      ino := ino + 1;
    }
    Whole(all);
    ArchiveIs(entries, time);
  }

  lemma NoRecords(files: seq<File>, time: nat)
    ensures Records(files[..0], 1, time) == []
  {
  }

  lemma HeadIs(out: seq<byte>, f: File, ino: nat, time: nat)
    ensures out + Head(f, ino, time) == out + MAGIC + FieldsText(Fields(f, ino, time)) + (f.path + [0])
  {
    hide FieldsText;
    hide Fields;
    assert out + (MAGIC + FieldsText(Fields(f, ino, time)) + (f.path + [0])) ==
           out + MAGIC + FieldsText(Fields(f, ino, time)) + (f.path + [0]);
  }

  lemma ArchiveIs(files: seq<File>, time: nat)
    ensures Archive(files, time) == Records(files + [Closing()], 1, time)
  {
    hide Records;
  }

  /** `parse_cpio`, followed for a number of turns: the loop itself has no bound. */
  method ParseCpio(raw: seq<byte>, turns: nat) returns (r: Parsed)
    ensures r == Parse(raw, turns)
  {
    hide ReadMember;
    hide ParseFrom;
    var out: Contents := map[];
    var pos := 0;
    for k := 0 to turns
      invariant ParseFrom(raw, pos, out, turns - k) == Parse(raw, turns)
    {
      ParseFromIs(raw, pos, out, turns - k);
      var m := ReadMember(raw, pos);
      if m.None? {
        return Malformed;
      }
      pos := m.value.next;
      if m.value.name == TRAILER {
        return Files(out);
      }
      out := out[m.value.name := (m.value.mode, m.value.body)];
    }
    NoTurnsLeft(raw, pos, out);
    return StillRunning;
  }

  lemma NoTurnsLeft(raw: seq<byte>, pos: int, found: Contents)
    ensures ParseFrom(raw, pos, found, 0) == StillRunning
  {
  }

  // ---- When the reader ends ----

  /** Where the loop goes on from a position, if it does. */
  function Step(raw: seq<byte>, pos: int): Option<int> {
    var m := ReadMember(raw, pos);
    if m.None? || m.value.name == TRAILER then None else Some(m.value.next)
  }

  /** The position after a number of turns. */
  function Hop(raw: seq<byte>, pos: int, turns: nat): Option<int>
    decreases turns
  {
    if turns == 0 then Some(pos)
    else
      var next := Step(raw, pos);
      if next.None? then None else Hop(raw, next.value, turns - 1)
  }

  lemma {:induction false} RunningIsHop(raw: seq<byte>, pos: int, found: Contents, turns: nat)
    ensures ParseFrom(raw, pos, found, turns) == StillRunning <==> Hop(raw, pos, turns).Some?
    decreases turns
  {
    hide ReadMember;
    if turns > 0 && Step(raw, pos).Some? {
      var m := ReadMember(raw, pos).value;
      RunningIsHop(raw, m.next, found[m.name := (m.mode, m.body)], turns - 1);
    }
  }

  lemma {:induction false} HopAdds(raw: seq<byte>, pos: int, a: nat, b: nat)
    ensures var mid := Hop(raw, pos, a);
            Hop(raw, pos, a + b) == if mid.None? then None else Hop(raw, mid.value, b)
    decreases a
  {
    hide Step;
    if a > 0 && Step(raw, pos).Some? {
      HopAdds(raw, Step(raw, pos).value, a - 1, b);
    }
  }

  /** A member stands within the archive, counted from its start or from its end. */
  lemma StepIsInside(raw: seq<byte>, pos: int)
    requires Step(raw, pos).Some?
    ensures -|raw| <= pos < |raw|
  {
    hide ReadFields;
    assert |Slice(raw, pos, pos + 6)| == 6;
  }

  lemma OnTheWay(raw: seq<byte>, pos: int, k: nat, turns: nat)
    requires k < turns && Hop(raw, pos, turns).Some?
    ensures Hop(raw, pos, k).Some? && -|raw| <= Hop(raw, pos, k).value < |raw|
  {
    hide *;
    HopAdds(raw, pos, k, turns - k);
    StepFirst(raw, Hop(raw, pos, k).value, turns - k);
    StepIsInside(raw, Hop(raw, pos, k).value);
  }

  lemma StepFirst(raw: seq<byte>, pos: int, turns: nat)
    requires turns > 0 && Hop(raw, pos, turns).Some?
    ensures Step(raw, pos).Some?
  {
    hide Step;
  }

  /** Back at a position, the loop never ends. */
  lemma {:induction false} CycleRuns(raw: seq<byte>, pos: int, d: nat, turns: nat)
    requires d > 0 && Hop(raw, pos, d) == Some(pos)
    ensures Hop(raw, pos, turns).Some?
    decreases turns
  {
    hide *;
    if turns <= d {
      HopAdds(raw, pos, turns, d - turns);
    } else {
      HopAdds(raw, pos, d, turns - d);
      CycleRuns(raw, pos, d, turns - d);
    }
  }

  /** More values than places: two are equal. */
  lemma {:induction false} Pigeonhole(s: seq<int>, lo: int, hi: int) returns (i: nat, j: nat)
    requires lo <= hi && |s| > hi - lo && forall k :: 0 <= k < |s| ==> lo <= s[k] < hi
    ensures i < j < |s| && s[i] == s[j]
    decreases hi - lo
  {
    assert lo <= s[0] < hi;
    if a: nat, b: nat :| a < b < |s| && s[a] == s[b] && s[a] == hi - 1 {
      i, j := a, b;
    } else if c: nat :| c < |s| && s[c] == hi - 1 {
      var rest := s[..c] + s[c + 1..];
      forall k | 0 <= k < |rest| ensures lo <= rest[k] < hi - 1 {
        assert rest[k] == if k < c then s[k] else s[k + 1];
        assert rest[k] != hi - 1;
      }
      var x, y := Pigeonhole(rest, lo, hi - 1);
      i, j := if x < c then x else x + 1, if y < c then y else y + 1;
    } else {
      i, j := Pigeonhole(s, lo, hi - 1);
    }
  }

  /** The loop returns to a position it has read from. */
  ghost predicate Returns(raw: seq<byte>) {
    exists i: nat, j: nat :: Again(raw, i, j)
  }

  predicate Again(raw: seq<byte>, i: nat, j: nat) {
    i < j <= 2 * |raw| && Hop(raw, 0, i).Some? && Hop(raw, 0, i) == Hop(raw, 0, j)
  }

  /** The reader runs for ever exactly when it returns to a position, which shows within 2 |raw| + 1
      turns; otherwise it has ended by then. */
  lemma RunsForEverIffReturns(raw: seq<byte>)
    ensures (forall turns: nat :: Parse(raw, turns) == StillRunning) <==> Returns(raw)
    ensures (forall turns: nat :: Parse(raw, turns) == StillRunning) <==> Parse(raw, 2 * |raw| + 1) == StillRunning
  {
    hide *;
    if Parse(raw, 2 * |raw| + 1) == StillRunning {
      ParseIsHop(raw, 2 * |raw| + 1);
      LongRunReturns(raw);
    }
    if Returns(raw) {
      forall turns: nat ensures Parse(raw, turns) == StillRunning {
        ReturningRuns(raw, turns);
        ParseIsHop(raw, turns);
      }
    }
  }

  lemma ParseIsHop(raw: seq<byte>, turns: nat)
    ensures Parse(raw, turns) == StillRunning <==> Hop(raw, 0, turns).Some?
  {
    RunningIsHop(raw, 0, map[], turns);
    hide Hop;
    hide ParseFrom;
  }

  lemma LongRunReturns(raw: seq<byte>)
    requires Hop(raw, 0, 2 * |raw| + 1).Some?
    ensures Returns(raw)
  {
    hide Hop;
    var n := 2 * |raw| + 1;
    var places: seq<int> := [];
    for k := 0 to n
      invariant |places| == k
      invariant forall i :: 0 <= i < k ==> Hop(raw, 0, i) == Some(places[i]) && -|raw| <= places[i] < |raw|
    {
      OnTheWay(raw, 0, k, n);
      places := places + [Hop(raw, 0, k).value];
    }
    var i, j := Pigeonhole(places, -|raw|, |raw|);
    assert Again(raw, i, j);
  }

  lemma ReturningRuns(raw: seq<byte>, turns: nat)
    requires Returns(raw)
    ensures Hop(raw, 0, turns).Some?
  {
    hide Hop;
    var i: nat, j: nat :| Again(raw, i, j);
    var p := Hop(raw, 0, i).value;
    HopAdds(raw, 0, i, j - i);
    CycleRuns(raw, p, j - i, turns);
    HopAdds(raw, 0, i, turns);
    HopAdds(raw, 0, turns, i);
  }

  /** No member that can be read gives a size below zero. */
  ghost predicate NoNegativeSizes(raw: seq<byte>) {
    forall pos: int :: Step(raw, pos).Some? ==> SizesAt(raw, pos)
  }

  predicate SizesAt(raw: seq<byte>, pos: int) {
    var fields := ReadFields(raw, pos + 6, 13);
    fields.Some? && fields.value[6] >= 0 && fields.value[11] >= 0
  }

  lemma StepsOn(raw: seq<byte>, pos: int)
    requires Step(raw, pos).Some? && SizesAt(raw, pos)
    ensures Step(raw, pos).value > pos
  {
    hide ReadFields;
    hide Slice;
  }

  /** Without negative sizes every member moves the position on, and the reader ends. */
  lemma EndsWithoutNegativeSizes(raw: seq<byte>)
    requires NoNegativeSizes(raw)
    ensures Parse(raw, |raw| + 1) != StillRunning
  {
    ParseIsHop(raw, |raw| + 1);
    HopsOn(raw, 0, |raw| + 1);
    hide *;
    if Hop(raw, 0, |raw| + 1).Some? {
      OnTheWay(raw, 0, |raw|, |raw| + 1);
      HopsOn(raw, 0, |raw|);
    }
  }

  lemma {:induction false} HopsOn(raw: seq<byte>, pos: int, turns: nat)
    requires NoNegativeSizes(raw)
    ensures Hop(raw, pos, turns).Some? ==> Hop(raw, pos, turns).value >= pos + turns
    decreases turns
  {
    hide Step;
    hide SizesAt;
    if turns > 0 && Step(raw, pos).Some? {
      assert SizesAt(raw, pos);
      StepsOn(raw, pos);
      HopsOn(raw, Step(raw, pos).value, turns - 1);
    }
  }

  // ---- An archive that is never finished ----

  const NAME: seq<byte> := [0x61, 0]

  /** Thirteen fields: a size of -0x70, a name of two bytes, zeros otherwise. */
  function LoopTexts(): seq<seq<byte>> {
    var zero := Hex8(0);
    [zero, zero, zero, zero, zero, zero, MinusSeventy(), zero, zero, zero, zero, Hex8(2), zero]
  }

  /** `-0000070` */
  function MinusSeventy(): seq<byte> {
    [0x2d] + (seq(5, _ => 0x30) + Digits(0x70))
  }

  /** One member of 112 bytes. */
  function Loop(): seq<byte> {
    MAGIC + Joined(LoopTexts()) + NAME
  }

  lemma MinusSeventyIs()
    ensures HexInt(MinusSeventy()) == Some(-112) && |MinusSeventy()| == 8
  {
    var digits := seq(5, _ => 0x30) + Digits(0x70);
    DigitsRead(0x70);
    SeventyHasTwo();
    LeadingZeros(5, Digits(0x70));
    PlainIsRead(digits);
    hide *;
    MinusSeventyMeans();
  }

  lemma SeventyHasTwo()
    ensures |Digits(0x70)| == 2
  {
    assert Digits(7) == [0x37];
  }

  lemma MinusSeventyMeans()
    ensures MinusSeventy() == [0x2d] + (seq(5, _ => 0x30) + Digits(0x70))
  {
    hide Digits;
  }

  lemma LoopTextsAre()
    ensures Eights(LoopTexts(), [0, 0, 0, 0, 0, 0, -112, 0, 0, 0, 0, 2, 0])
  {
    HexField(0);
    HexField(2);
    MinusSeventyIs();
    ThirteenEights(Hex8(0), MinusSeventy(), Hex8(2));
    hide HexInt;
    hide Hex8;
    hide FromHex;
    hide MinusSeventy;
    hide Eights;
  }

  lemma ThirteenEights(zero: seq<byte>, size: seq<byte>, nameSize: seq<byte>)
    requires |zero| == 8 && |size| == 8 && |nameSize| == 8
    requires HexInt(zero) == Some(0) && HexInt(size) == Some(-112) && HexInt(nameSize) == Some(2)
    ensures Eights([zero, zero, zero, zero, zero, zero, size, zero, zero, zero, zero, nameSize, zero],
                   [0, 0, 0, 0, 0, 0, -112, 0, 0, 0, 0, 2, 0])
  {
    hide HexInt;
  }

  lemma LoopIs()
    ensures var text := Joined(LoopTexts());
            && |MAGIC| == 6 && |NAME| == 2 && |LoopTexts()| == 13
            && Loop() == MAGIC + text + NAME == (MAGIC + text) + NAME + [] == [] + MAGIC + (text + NAME)
            && |Loop()| == 8 + |text|
  {
    hide Joined;
    hide Hex8;
    hide MinusSeventy;
  }

  lemma LoopName()
    ensures NAME[0..1] == [0x61] != TRAILER && Utf8(NAME[0..1])
  {
    hide Utf8;
    AsciiIsUtf8(NAME[0..1]);
  }

  lemma NothingBetween(raw: seq<byte>)
    requires |raw| == 112
    ensures Slice(raw, 112, 112 + -112) == []
  {
  }

  lemma StepIs(raw: seq<byte>, pos: int, name: seq<byte>, mode: int, body: seq<byte>, next: int)
    requires ReadMember(raw, pos) == Some(Member(name, mode, body, next)) && name != TRAILER
    ensures Step(raw, pos) == Some(next)
  {
    hide ReadMember;
  }

  lemma OneHop(raw: seq<byte>, pos: int, next: int)
    requires Step(raw, pos) == Some(next)
    ensures Hop(raw, pos, 1) == Some(next)
  {
    hide Step;
    assert Hop(raw, next, 0) == Some(next);
  }

  /** The member says that its body ends 112 bytes before it begins, so the reader is sent back to the
      start of the same member. */
  lemma LoopComesBack()
    ensures Step(Loop(), 0) == Some(0)
  {
    hide *;
    var texts, values := LoopTexts(), [0, 0, 0, 0, 0, 0, -112, 0, 0, 0, 0, 2, 0];
    LoopTextsAre();
    JoinedLength(texts, values);
    LoopIs();
    TextsRead(MAGIC, texts, values, NAME);
    SliceOfMiddle([], MAGIC, Joined(texts) + NAME, 0, 6);
    Whole(MAGIC);
    SliceOfMiddle(MAGIC + Joined(texts), NAME, [], 0, 1);
    NothingBetween(Loop());
    AlignIsPadding(0, 112);
    PaddingOf112();
    AlignIsPadding(0, 0);
    LoopName();
    ReadMemberIs(Loop(), 0, values, NAME[0..1], 2, [], -112, 112);
    StepIs(Loop(), 0, NAME[0..1], 0, [], 0);
  }

  lemma PaddingOf112()
    ensures Padding(112) == 0 && Padding(0) == 0
  {
  }

  /** The reader never finishes this archive. */
  lemma LoopNeverEnds(turns: nat)
    ensures Parse(Loop(), turns) == StillRunning
  {
    hide *;
    LoopComesBack();
    OneHop(Loop(), 0, 0);
    CycleRuns(Loop(), 0, 1, turns);
    ParseIsHop(Loop(), turns);
  }
}
