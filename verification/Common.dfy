/** Failure values and text primitives shared by the models. */
module Common {
  datatype Option<+T> = None | Some(value: T)

  datatype Result<+T, +E> = Ok(value: T) | Err(error: E)
}

/** The part of Python's `str` that the modelled code uses: which characters count as white
    space, and the three strip operations. */
module Text {
  predicate IsSpace(c: char) {
    || '\t' <= c <= '\r' || '\U{1c}' <= c <= ' '
    || c == '\U{85}' || c == '\U{a0}' || c == '\U{1680}' || '\U{2000}' <= c <= '\U{200a}'
    || c == '\U{2028}' || c == '\U{2029}' || c == '\U{202f}' || c == '\U{205f}' || c == '\U{3000}'
  }

  predicate Blank(s: string) {
    forall i :: 0 <= i < |s| ==> IsSpace(s[i])
  }

  function LStrip(s: string): string {
    if s != "" && IsSpace(s[0]) then LStrip(s[1..]) else s
  }

  function RStrip(s: string): string {
    if s != "" && IsSpace(s[|s| - 1]) then RStrip(s[..|s| - 1]) else s
  }

  function Strip(s: string): string {
    RStrip(LStrip(s))
  }

  /** Nothing left to strip at either end. */
  predicate Trimmed(s: string) {
    s != "" ==> !IsSpace(s[0]) && !IsSpace(s[|s| - 1])
  }

  lemma {:induction false} LStripSplits(s: string) returns (a: string)
    ensures s == a + LStrip(s) && Blank(a)
    ensures LStrip(s) != "" ==> !IsSpace(LStrip(s)[0])
  {
    if s != "" && IsSpace(s[0]) {
      var b := LStripSplits(s[1..]);
      a := [s[0]] + b;
      assert s == [s[0]] + s[1..];
    } else {
      a := "";
    }
  }

  lemma {:induction false} RStripSplits(s: string) returns (b: string)
    ensures s == RStrip(s) + b && Blank(b)
    ensures RStrip(s) != "" ==> !IsSpace(RStrip(s)[|RStrip(s)| - 1])
  {
    if s != "" && IsSpace(s[|s| - 1]) {
      var c := RStripSplits(s[..|s| - 1]);
      b := c + [s[|s| - 1]];
      assert s == s[..|s| - 1] + [s[|s| - 1]];
    } else {
      b := "";
    }
  }

  /** Stripping removes white space only, and only at the two ends. */
  lemma StripSplits(s: string) returns (a: string, b: string)
    ensures s == a + Strip(s) + b && Blank(a) && Blank(b) && Trimmed(Strip(s))
  {
    a := LStripSplits(s);
    b := RStripSplits(LStrip(s));
    assert Strip(s) != "" ==> LStrip(s)[0] == Strip(s)[0];
  }

  lemma {:induction false} LStripDrops(a: string, s: string)
    requires Blank(a)
    ensures LStrip(a + s) == LStrip(s)
  {
    if a == "" {
      assert a + s == s;
    } else {
      assert (a + s)[1..] == a[1..] + s;
      LStripDrops(a[1..], s);
    }
  }

  /** White space in front makes no difference to a trimmed text. */
  lemma StripOfPadded(a: string, s: string)
    requires Blank(a) && Trimmed(s)
    ensures Strip(a + s) == s
  {
    LStripDrops(a, s);
  }
}

/** Python's `sorted` on a set of integers. */
module Ordering {
  lemma SomeElement<T>(s: set<T>) returns (a: T)
    requires s != {}
    ensures a in s
  {
    a :| a in s;
  }

  lemma {:induction false} LeastExists(s: set<int>)
    requires s != {}
    ensures exists m :: m in s && forall x :: x in s ==> m <= x
    decreases |s|
  {
    var a := SomeElement(s);
    var rest := s - {a};
    if rest != {} {
      LeastExists(rest);
      var m :| m in rest && forall x :: x in rest ==> m <= x;
      var least := if a < m then a else m;
      assert forall x :: x in s ==> x == a || x in rest;
      assert least in s && forall x :: x in s ==> least <= x;
    } else {
      assert s == {a};
      assert a in s && forall x :: x in s ==> a <= x;
    }
  }

  function Least(s: set<int>): (m: int)
    requires s != {}
    ensures m in s && forall x :: x in s ==> m <= x
  {
    LeastExists(s);
    var m :| m in s && forall x :: x in s ==> m <= x;
    m
  }

  /** `sorted(entries)`. */
  function Sorted(s: set<int>): seq<int>
    decreases |s|
  {
    if s == {} then []
    else
      var m := Least(s);
      [m] + Sorted(s - {m})
  }

  lemma {:induction false} SortedIs(s: set<int>)
    ensures forall i, j :: 0 <= i < j < |Sorted(s)| ==> Sorted(s)[i] < Sorted(s)[j]
    ensures forall x :: x in Sorted(s) <==> x in s
    ensures forall k :: 0 <= k < |Sorted(s)| ==> Sorted(s)[k] in s
    decreases |s|
  {
    if s != {} {
      var m := Least(s);
      SortedIs(s - {m});
      var rest := Sorted(s - {m});
      assert Sorted(s) == [m] + rest;
      assert forall k :: 0 <= k < |rest| ==> rest[k] in s - {m};
    }
  }
}
