/** The schema script splitter of db.py.

    A script is cut at the semicolons that stand outside quotes and line comments; comments are
    dropped (the newline that ends one stays), pieces are stripped and empty ones forgotten. The
    statements are later joined again and executed at start-up, so cutting the joined text must
    give back the same statements. */
module SqlScript {
  import opened Common
  import opened Text

  datatype Mode = Code | Quoted(q: char) | Comment

  predicate IsQuote(c: char) { c == '\'' || c == '"' }

  /** The pieces of `s` between separators, comments dropped, when the scan is in `mode` and has
      already read `buf` of the first piece. */
  function Pieces(s: string, mode: Mode, buf: string): (ps: seq<string>)
    ensures |ps| > 0
    decreases |s|
  {
    if s == "" then [buf]
    else match mode
      case Comment =>
        if s[0] == '\n' then Pieces(s[1..], Code, buf + "\n") else Pieces(s[1..], Comment, buf)
      case Quoted(q) =>
        if s[0] != q then Pieces(s[1..], mode, buf + [s[0]])
        else if |s| > 1 && s[1] == q then Pieces(s[2..], mode, buf + [q, q])
        else Pieces(s[1..], Code, buf + [q])
      case Code =>
        if s[0] == '-' && |s| > 1 && s[1] == '-' then Pieces(s[2..], Comment, buf)
        else if IsQuote(s[0]) then Pieces(s[1..], Quoted(s[0]), buf + [s[0]])
        else if s[0] == ';' then [buf] + Pieces(s[1..], Code, "")
        else Pieces(s[1..], Code, buf + [s[0]])
  }

  /** The pieces, stripped, without the empty ones. */
  function Statements(ps: seq<string>): seq<string> {
    if ps == [] then []
    else (if Strip(ps[0]) == "" then [] else [Strip(ps[0])]) + Statements(ps[1..])
  }

  function Split(script: string): seq<string> {
    Statements(Pieces(script, Code, ""))
  }

  /** Statements joined with ";\n" and closed with ";", as the start-up code does. */
  function Join(stmts: seq<string>): string {
    if |stmts| == 0 then ";"
    else if |stmts| == 1 then stmts[0] + ";"
    else stmts[0] + ";\n" + Join(stmts[1..])
  }

  /** Where a text read as code leaves the reader. `Broken` once it holds a separator or a comment
      mark outside quotes. A doubled quote closes and opens again, so it needs no case. */
  datatype Shape = Plain | Open(q: char) | Broken

  function ShapeOf(s: string): Shape {
    if s == "" then Plain
    else
      var c := s[|s| - 1];
      match ShapeOf(s[..|s| - 1])
      case Broken => Broken
      case Open(q) => if c == q then Plain else Open(q)
      case Plain =>
        if c == ';' || (c == '-' && EndsInDash(s[..|s| - 1])) then Broken
        else if IsQuote(c) then Open(c)
        else Plain
  }

  predicate EndsInDash(s: string) {
    s != "" && s[|s| - 1] == '-'
  }

  /** One statement as the executed script needs it: trimmed, not empty, quotes closed, and no
      separator or comment mark outside quotes. */
  predicate Clean(s: string) {
    s != "" && Trimmed(s) && ShapeOf(s) == Plain
  }

  function ShapeFor(mode: Mode): Shape {
    match mode
    case Quoted(q) => Open(q)
    case _ => Plain
  }

  /** What every point of a scan keeps: the text read so far has the shape of the mode, and a
      trailing dash is never followed by another one. */
  predicate InStep(s: string, mode: Mode, buf: string) {
    && ShapeOf(buf) == ShapeFor(mode)
    && (mode.Quoted? ==> IsQuote(mode.q))
    && (mode.Comment? ==> !EndsInDash(buf))
    && (mode.Code? && EndsInDash(buf) && s != "" ==> s[0] != '-')
  }

  /** Every quote opened in the rest of the script is closed. */
  predicate Terminated(s: string, mode: Mode)
    decreases |s|
  {
    if s == "" then !mode.Quoted?
    else match mode
      case Comment => Terminated(s[1..], if s[0] == '\n' then Code else Comment)
      case Quoted(q) => Terminated(s[1..], if s[0] == q then Code else mode)
      case Code =>
        if s[0] == '-' && |s| > 1 && s[1] == '-' then Terminated(s[2..], Comment)
        else Terminated(s[1..], if IsQuote(s[0]) then Quoted(s[0]) else Code)
  }

  // ---- Shapes ----

  lemma ShapeSnoc(s: string, c: char)
    ensures ShapeOf(s + [c]) ==
            match ShapeOf(s)
            case Broken => Broken
            case Open(q) => if c == q then Plain else Open(q)
            case Plain =>
              if c == ';' || (c == '-' && EndsInDash(s)) then Broken
              else if IsQuote(c) then Open(c) else Plain
  {
    assert (s + [c])[..|s|] == s;
  }

  /** White space has no marks in it. */
  lemma {:induction false} ShapeOfBlank(a: string)
    requires Blank(a)
    ensures ShapeOf(a) == Plain && !EndsInDash(a)
    decreases |a|
  {
    hide ShapeOf;
    if a == "" {
      ShapeOfNothing();
    } else {
      var t, c := a[..|a| - 1], a[|a| - 1];
      assert IsSpace(a[|a| - 1]);
      ShapeOfBlank(t);
      ShapeSnoc(t, c);
      assert a == t + [c];
    }
  }

  lemma ShapeOfNothing()
    ensures ShapeOf("") == Plain
  {
  }

  lemma {:induction false} ShapeDropsBlank(a: string, s: string)
    requires Blank(a)
    ensures ShapeOf(a + s) == ShapeOf(s)
    decreases |s|
  {
    hide ShapeOf;
    ShapeOfBlank(a);
    if s == "" {
      ShapeOfNothing();
      assert a + s == a;
    } else {
      var t, c := s[..|s| - 1], s[|s| - 1];
      assert s == t + [c];
      assert a + s == (a + t) + [c];
      ShapeDropsBlank(a, t);
      ShapeSnoc(a + t, c);
      ShapeSnoc(t, c);
      assert t != "" ==> (a + t)[|a + t| - 1] == t[|t| - 1];
      assert t == "" ==> a + t == a;
    }
  }

  lemma {:induction false} ShapeKeepsTail(s: string, b: string)
    requires Blank(b) && !ShapeOf(s + b).Broken?
    requires forall c :: ShapeOf(s + b) == Open(c) ==> IsQuote(c)
    ensures ShapeOf(s) == ShapeOf(s + b)
  {
    if b == "" {
      assert s + b == s;
    } else {
      var t, c := b[..|b| - 1], b[|b| - 1];
      assert IsSpace(c);
      assert s + b == (s + t) + [c];
      ShapeSnoc(s + t, c);
      QuotesOnly(s + t);
      ShapeKeepsTail(s, t);
    }
  }

  lemma {:induction false} QuotesOnly(s: string)
    ensures ShapeOf(s).Open? ==> IsQuote(ShapeOf(s).q)
  {
    if s != "" {
      QuotesOnly(s[..|s| - 1]);
    }
  }

  lemma ShapeOfStripped(s: string)
    requires !ShapeOf(s).Broken?
    ensures ShapeOf(Strip(s)) == ShapeOf(s)
  {
    hide ShapeOf;
    hide Strip;
    var a, b := StripSplits(s);
    assert s == a + (Strip(s) + b);
    ShapeDropsBlank(a, Strip(s) + b);
    QuotesOnly(s);
    ShapeKeepsTail(Strip(s), b);
  }

  // ---- What the splitter produces ----

  function After(mode: Mode, c: char): Mode {
    match mode
    case Comment => mode
    case Quoted(q) => if c == q then Code else mode
    case Code => if IsQuote(c) then Quoted(c) else Code
  }

  /** Reading one character that neither separates nor starts a comment: a doubled quote is the
      same as closing and opening again. */
  lemma PiecesStep(s: string, mode: Mode, buf: string)
    requires s != "" && !mode.Comment? && (mode.Quoted? ==> IsQuote(mode.q))
    requires mode.Code? ==> s[0] != ';' && !StartsComment(s, mode)
    ensures Pieces(s, mode, buf) == Pieces(s[1..], After(mode, s[0]), buf + [s[0]])
  {
    if mode.Quoted? && s[0] == mode.q && |s| > 1 && s[1] == mode.q {
      assert s[1..][1..] == s[2..];
      assert buf + [s[0]] + [s[0]] == buf + [mode.q, mode.q];
    }
  }

  predicate StartsComment(s: string, mode: Mode) {
    mode.Code? && |s| > 1 && s[0] == '-' && s[1] == '-'
  }

  lemma InStepKept(s: string, mode: Mode, buf: string)
    requires s != "" && InStep(s, mode, buf) && !mode.Comment? && !StartsComment(s, mode)
    requires mode.Code? ==> s[0] != ';'
    ensures InStep(s[1..], After(mode, s[0]), buf + [s[0]])
  {
    ShapeSnoc(buf, s[0]);
  }

  /** Every piece but the last is plain; the last one is plain exactly when the quotes are closed. */
  predicate WellCut(ps: seq<string>, closed: bool)
    requires |ps| > 0
  {
    && (forall k :: 0 <= k < |ps| - 1 ==> ShapeOf(ps[k]) == Plain)
    && (ShapeOf(ps[|ps| - 1]) == Plain <==> closed)
    && !ShapeOf(ps[|ps| - 1]).Broken?
  }

  lemma WellCutCons(p: string, ps: seq<string>, closed: bool)
    requires |ps| > 0 && ShapeOf(p) == Plain && WellCut(ps, closed)
    ensures WellCut([p] + ps, closed)
  {
    var all := [p] + ps;
    forall k | 0 <= k < |all| - 1 ensures ShapeOf(all[k]) == Plain {
      assert all[k] == if k == 0 then p else ps[k - 1];
    }
  }

  lemma {:induction false} PieceShapes(s: string, mode: Mode, buf: string)
    requires InStep(s, mode, buf)
    ensures WellCut(Pieces(s, mode, buf), Terminated(s, mode))
    decreases |s|
  {
    if s == "" {
    } else if mode.Comment? {
      ShapeSnoc(buf, '\n');
      assert buf + ['\n'] == buf + "\n";
      if s[0] == '\n' {
        PieceShapes(s[1..], Code, buf + "\n");
      } else {
        PieceShapes(s[1..], Comment, buf);
      }
    } else if StartsComment(s, mode) {
      PieceShapes(s[2..], Comment, buf);
    } else if mode.Code? && s[0] == ';' {
      PieceShapes(s[1..], Code, "");
      WellCutCons(buf, Pieces(s[1..], Code, ""), Terminated(s[1..], Code));
    } else {
      InStepKept(s, mode, buf);
      PiecesStep(s, mode, buf);
      PieceShapes(s[1..], After(mode, s[0]), buf + [s[0]]);
    }
  }

  lemma {:induction false} StatementsAppend(a: seq<string>, b: seq<string>)
    ensures Statements(a + b) == Statements(a) + Statements(b)
  {
    if a == [] {
      assert a + b == b;
    } else {
      assert (a + b)[1..] == a[1..] + b;
      StatementsAppend(a[1..], b);
    }
  }

  lemma {:induction false} PlainPiecesGiveClean(ps: seq<string>)
    requires forall k :: 0 <= k < |ps| ==> ShapeOf(ps[k]) == Plain
    ensures forall t :: t in Statements(ps) ==> Clean(t)
  {
    if ps != [] {
      PlainPiecesGiveClean(ps[1..]);
      ShapeOfStripped(ps[0]);
      var _, _ := StripSplits(ps[0]);
    }
  }

  /** A script whose quotes are all closed yields only clean statements. */
  lemma StatementsAreClean(script: string)
    requires Terminated(script, Code)
    ensures forall t :: t in Split(script) ==> Clean(t)
  {
    PieceShapes(script, Code, "");
    PlainPiecesGiveClean(Pieces(script, Code, ""));
  }

  /** What clean means character by character: a separator, or two dashes in a row, can only stand
      where a quote is open. */
  lemma {:induction false} CleanHidesMarks(t: string, k: nat)
    requires ShapeOf(t) != Broken && k < |t|
    ensures t[k] == ';' ==> ShapeOf(t[..k]).Open?
    ensures k > 0 && t[k] == '-' && t[k - 1] == '-' ==> ShapeOf(t[..k]).Open?
    decreases |t|
  {
    var u := t[..|t| - 1];
    if k < |u| {
      CleanHidesMarks(u, k);
      assert t[..k] == u[..k];
    } else {
      assert t[..k] == u;
    }
  }

  // ---- Splitting again ----

  lemma {:induction false} UnbrokenPrefix(a: string, b: string)
    requires !ShapeOf(a + b).Broken?
    ensures !ShapeOf(a).Broken?
    decreases |b|
  {
    if b == "" {
      assert a + b == a;
    } else {
      assert (a + b)[..|a + b| - 1] == a + b[..|b| - 1];
      UnbrokenPrefix(a, b[..|b| - 1]);
    }
  }

  /** Two dashes in plain code break a text. */
  lemma DashesBreak(buf: string, p: string)
    requires ShapeOf(buf) == Plain && |p| > 1 && p[0] == '-' && p[1] == '-'
    ensures ShapeOf(buf + p) == Broken
  {
    ShapeSnoc(buf, '-');
    ShapeSnoc(buf + "-", '-');
    assert (buf + "-") + "-" == buf + "--";
    assert buf + p == (buf + "--") + p[2..];
    if ShapeOf(buf + p) != Broken {
      UnbrokenPrefix(buf + "--", p[2..]);
    }
  }

  lemma StepKeeps(p: string, mode: Mode, buf: string)
    requires p != "" && !mode.Comment? && !ShapeOf(buf + p).Broken?
    requires ShapeOf(buf) == ShapeFor(mode) && (mode.Quoted? ==> IsQuote(mode.q))
    ensures ShapeOf(buf + [p[0]]) == ShapeFor(After(mode, p[0]))
    ensures buf + p == (buf + [p[0]]) + p[1..]
    ensures mode.Code? ==> p[0] != ';' && !StartsComment(p, mode)
  {
    assert StartsComment(p, mode) ==> false by {
      if StartsComment(p, mode) {
        DashesBreak(buf, p);
      }
    }
    assert buf + p == (buf + [p[0]]) + p[1..];
    UnbrokenPrefix(buf + [p[0]], p[1..]);
    ShapeSnoc(buf, p[0]);
  }

  /** A prefix that leaves the text unbroken is read as one piece, up to the separator behind it. */
  lemma {:induction false} PrefixIsOnePiece(p: string, rest: string, mode: Mode, buf: string)
    requires !mode.Comment? && (mode.Quoted? ==> IsQuote(mode.q))
    requires ShapeOf(buf) == ShapeFor(mode) && !ShapeOf(buf + p).Broken?
    requires rest != "" && rest[0] == ';'
    ensures Pieces(p + rest, mode, buf) ==
            Pieces(rest, if ShapeOf(buf + p).Open? then Quoted(ShapeOf(buf + p).q) else Code, buf + p)
    decreases |p|
  {
    if p == "" {
      assert p + rest == rest && buf + p == buf;
    } else {
      var s := p + rest;
      StepKeeps(p, mode, buf);
      assert s[1..] == p[1..] + rest;
      PiecesStep(s, mode, buf);
      PrefixIsOnePiece(p[1..], rest, After(mode, p[0]), buf + [p[0]]);
    }
  }

  /** The joined text of clean statements, after a newline or not, is split at exactly the joints;
      an open last statement swallows the closing separator. */
  lemma {:induction false} SplitOfJoined(stmts: seq<string>, pad: string)
    requires |stmts| > 0 && (pad == "" || pad == "\n")
    requires forall k :: 0 <= k < |stmts| - 1 ==> Clean(stmts[k])
    requires Kept(stmts[|stmts| - 1])
    ensures Statements(Pieces(Join(stmts), Code, pad)) ==
            stmts[..|stmts| - 1] + [Closed(stmts[|stmts| - 1])]
    decreases |stmts|
  {
    hide Pieces;
    hide ShapeOf;
    var t := stmts[0];
    if |stmts| == 1 {
      LastOfJoined(t, pad);
      assert stmts[..0] + [Closed(t)] == [Closed(t)];
    } else {
      var rest := Join(stmts[1..]);
      FirstOfJoined(t, pad, rest);
      SplitOfJoined(stmts[1..], "\n");
      var last := [Closed(stmts[|stmts| - 1])];
      assert stmts[1..][..|stmts| - 2] == stmts[1..|stmts| - 1];
      assert [t] + (stmts[1..|stmts| - 1] + last) == stmts[..|stmts| - 1] + last;
    }
  }

  /** A statement that may still have a quote open. */
  predicate Kept(s: string) {
    s != "" && Trimmed(s) && !ShapeOf(s).Broken?
  }

  /** A statement with the closing separator behind it: an open quote swallows the separator. */
  function Closed(s: string): string {
    if ShapeOf(s) == Plain then s else s + ";"
  }

  lemma LastOfJoined(t: string, pad: string)
    requires Kept(t) && (pad == "" || pad == "\n")
    ensures Statements(Pieces(t + ";", Code, pad)) == [Closed(t)]
  {
    ShapeDropsBlank(pad, t);
    ShapeDropsBlank(pad, "");
    assert pad + "" == pad;
    QuotesOnly(t);
    PrefixIsOnePiece(t, ";", Code, pad);
    if ShapeOf(t) == Plain {
      StripOfPadded(pad, t);
      assert Pieces(";", Code, pad + t) == [pad + t, ""];
      assert Statements([pad + t, ""]) == [t] + Statements([""]);
    } else {
      assert Pieces(";", Quoted(ShapeOf(t).q), pad + t) == [pad + t + ";"];
      assert pad + t + ";" == pad + (t + ";");
      StripOfPadded(pad, t + ";");
    }
  }

  lemma FirstOfJoined(t: string, pad: string, rest: string)
    requires Clean(t) && (pad == "" || pad == "\n")
    ensures Statements(Pieces(t + ";\n" + rest, Code, pad)) == [t] + Statements(Pieces(rest, Code, "\n"))
  {
    ShapeDropsBlank(pad, t);
    ShapeDropsBlank(pad, "");
    assert pad + "" == pad;
    var behind := ";\n" + rest;
    assert t + ";\n" + rest == t + behind;
    PrefixIsOnePiece(t, behind, Code, pad);
    assert behind[1..] == "\n" + rest;
    PiecesStep(behind[1..], Code, "");
    assert behind[1..][1..] == rest && "" + ['\n'] == "\n";
    StripOfPadded(pad, t);
    StatementsAtSeparator(behind, pad + t);
    StatementsOfOne(pad + t);
  }

  /** Any list of clean statements survives joining and splitting: the two halves of the schema
      are executed as exactly the statements they were cut into. */
  lemma SplitJoinOfClean(stmts: seq<string>)
    requires forall t :: t in stmts ==> Clean(t)
    ensures Split(Join(stmts)) == stmts
  {
    if stmts == [] {
      assert Pieces(";", Code, "") == ["", ""];
      assert Statements(["", ""]) == Statements([""]) == [];
    } else {
      assert stmts[|stmts| - 1] in stmts;
      SplitOfJoined(stmts, "");
    }
  }

  lemma OpenTailIsKept(script: string) returns (tail: string)
    requires !Terminated(script, Code)
    ensures Split(script) != [] && tail == Split(script)[|Split(script)| - 1]
    ensures Trimmed(tail) && ShapeOf(tail).Open?
    ensures forall k :: 0 <= k < |Split(script)| - 1 ==> Clean(Split(script)[k])
  {
    PieceShapes(script, Code, "");
    var ps := Pieces(script, Code, "");
    var init, last := ps[..|ps| - 1], ps[|ps| - 1];
    assert ps == init + [last];
    StatementsAppend(init, [last]);
    PlainPiecesGiveClean(init);
    ShapeOfStripped(last);
    var _, _ := StripSplits(last);
    tail := Strip(last);
    assert Statements([last]) == [tail];
  }

  /** The splitter has reached a fixpoint on its own output exactly when every quote of the
      script is closed. */
  lemma ResplitIffTerminated(script: string)
    ensures Split(Join(Split(script))) == Split(script) <==> Terminated(script, Code)
  {
    if Terminated(script, Code) {
      StatementsAreClean(script);
      SplitJoinOfClean(Split(script));
    } else {
      var tail := OpenTailIsKept(script);
      var stmts := Split(script);
      SplitOfJoined(stmts, "");
      assert (stmts[..|stmts| - 1] + [Closed(tail)])[|stmts| - 1] != tail;
    }
  }

  /** A script with an open quote: joining its statements again draws the separator into the quote. */
  lemma OpenQuoteGrows()
    ensures Split("x'") == ["x'"] && Split(Join(["x'"])) == ["x';"]
  {
    SplitOfOne("x'", "'", ["x'"]);
    SplitOfOne("x';", "';", ["x';"]);
    assert Join(["x'"]) == "x';";
  }

  lemma SplitOfOne(script: string, rest: string, ps: seq<string>)
    requires (script == "x'" && rest == "'") || (script == "x';" && rest == "';")
    requires ps == [script]
    ensures Split(script) == ps
  {
    PiecesOfOne(script, rest);
    assert !IsSpace(script[0]) && !IsSpace(script[|script| - 1]);
    hide Pieces;
    hide IsSpace;
    AlreadyStripped(script);
    hide Strip;
    assert [script][1..] == [];
    assert Statements([]) == [];
  }

  lemma AlreadyStripped(s: string)
    requires s != "" && !IsSpace(s[0]) && !IsSpace(s[|s| - 1])
    ensures Strip(s) == s
  {
    hide IsSpace;
    assert LStrip(s) == s;
    assert RStrip(s) == s;
  }

  lemma PiecesOfOne(script: string, rest: string)
    requires (script == "x'" && rest == "'") || (script == "x';" && rest == "';")
    ensures Pieces(script, Code, "") == [script]
  {
    assert script[1..] == rest && rest[0] == '\'';
    var tail := rest[1..];
    assert Pieces(script, Code, "") == Pieces(rest, Code, "x") by {
      assert [] + [script[0]] == "x";
    }
    assert "x" + [rest[0]] == "x'";
    assert Pieces(rest, Code, "x") == Pieces(tail, Quoted('\''), "x'");
    if tail != "" {
      assert tail == ";" && tail[1..] == "" && "x'" + [tail[0]] == "x';";
      assert Pieces(tail, Quoted('\''), "x'") == Pieces("", Quoted('\''), "x';");
    }
    assert Pieces("", Quoted('\''), script) == [script];
    assert tail == "" ==> script == "x'";
  }

  /** The scanner as written: an index, a buffer, an open quote and a comment flag. */
  method SplitSqlScript(script: string) returns (out: seq<string>)
    ensures out == Split(script)
  {
    out := [];
    var buf := "";
    var quote: Option<char> := None;
    var lineComment := false;
    var i := 0;
    assert script[0..] == script;
    while i < |script|
      invariant 0 <= i <= |script| && (lineComment ==> quote.None?)
      invariant out + Statements(Pieces(script[i..], ModeOf(quote, lineComment), buf)) == Split(script)
    {
      var ch := script[i];
      Tail(script, i);
      ghost var before := buf;
      if lineComment {
        if ch == '\n' {
          assert buf + [ch] == buf + "\n";
          lineComment := false;
          buf := buf + [ch];
        }
        i := i + 1;
        continue;
      }
      if quote.Some? {
        buf := buf + [ch];
        if ch == quote.value {
          if i + 1 < |script| && script[i + 1] == quote.value {
            assert buf + [ch] == before + [ch, ch];
            buf := buf + [ch];
            i := i + 2;
            continue;
          }
          quote := None;
        }
        i := i + 1;
        continue;
      }
      if ch == '-' && i + 1 < |script| && script[i + 1] == '-' {
        lineComment := true;
        i := i + 2;
        continue;
      }
      if IsQuote(ch) {
        quote := Some(ch);
        buf := buf + [ch];
        i := i + 1;
        continue;
      }
      if ch == ';' {
        EmitAtSeparator(out, script, i, buf);
        var stmt := Strip(buf);
        if stmt != "" {
          out := out + [stmt];
        }
        buf := "";
        i := i + 1;
        continue;
      }
      buf := buf + [ch];
      i := i + 1;
    }
    assert script[i..] == "";
    StatementsOfOne(buf);
    var tail := Strip(buf);
    if tail != "" {
      out := out + [tail];
    }
  }

  lemma Tail(s: string, i: nat)
    requires i < |s|
    ensures s[i..][0] == s[i] && s[i..][1..] == s[i + 1..]
    ensures |s[i..]| > 1 <==> i + 1 < |s|
    ensures i + 1 < |s| ==> s[i..][1] == s[i + 1] && s[i..][2..] == s[i + 2..]
  {
  }

  lemma StatementsOfOne(buf: string)
    ensures Statements([buf]) == if Strip(buf) == "" then [] else [Strip(buf)]
  {
    assert [buf][1..] == [];
  }

  lemma EmitAtSeparator(out: seq<string>, script: string, i: nat, buf: string)
    requires i < |script| && script[i] == ';'
    ensures out + Statements(Pieces(script[i..], Code, buf)) ==
            (if Strip(buf) == "" then out else out + [Strip(buf)]) + Statements(Pieces(script[i + 1..], Code, ""))
  {
    hide *;
    Tail(script, i);
    StatementsAtSeparator(script[i..], buf);
    StatementsOfOne(buf);
    InLine(out, Statements([buf]), Statements(Pieces(script[i + 1..], Code, "")));
    assert out + [] == out;
  }

  lemma InLine(a: seq<string>, b: seq<string>, c: seq<string>)
    ensures a + (b + c) == (a + b) + c
  {
  }

  lemma StatementsAtSeparator(s: string, buf: string)
    requires s != "" && s[0] == ';'
    ensures Statements(Pieces(s, Code, buf)) ==
            Statements([buf]) + Statements(Pieces(s[1..], Code, ""))
  {
    hide Statements;
    StatementsAppend([buf], Pieces(s[1..], Code, ""));
  }

  function ModeOf(quote: Option<char>, lineComment: bool): Mode {
    if lineComment then Comment else if quote.Some? then Quoted(quote.value) else Code
  }

  // ---- The schema's two halves ----

  function Upper(s: string): (r: string)
    ensures |r| == |s|
  {
    seq(|s|, i requires 0 <= i < |s| => if 'a' <= s[i] <= 'z' then s[i] - 'a' + 'A' else s[i])
  }

  predicate IsIndex(stmt: string) {
    "CREATE INDEX" <= Upper(LStrip(stmt))
  }

  /** Which statements go to the second half: those that create an index, in any case and behind white
      space, but not a unique index. */
  lemma IndexStatements()
    ensures IsIndex("CREATE INDEX i ON t(x)") && IsIndex("  create index azAZ") && IsIndex("CREATE INDEX")
    ensures !IsIndex("CREATE UNIQUE INDEX i ON t(x)") && !IsIndex("CREATE TABLE t(x)") && !IsIndex("CREATE INDE")
  {
    PlainIndex();
    LowerIndex();
    UniqueIsNoIndex();
    TableIsNoIndex();
  }

  lemma PlainIndex()
    ensures IsIndex("CREATE INDEX i ON t(x)") && IsIndex("CREATE INDEX")
  {
    assert Upper("CREATE INDEX") == "CREATE INDEX";
    assert Upper("CREATE INDEX i ON t(x)") == "CREATE INDEX I ON T(X)";
  }

  lemma LowerIndex()
    ensures IsIndex("  create index azAZ")
    ensures Upper("`az{@AZ[09") == "`AZ{@AZ[09"
  {
    IndexBehindSpace();
    UpperEnds();
    hide LStrip;
    assert "CREATE INDEX" <= Upper("create index azAZ");
  }

  lemma IndexBehindSpace()
    ensures LStrip("  create index azAZ") == "create index azAZ"
  {
    assert "  create index azAZ"[1..] == " create index azAZ" && " create index azAZ"[1..] == "create index azAZ";
    assert LStrip("create index azAZ") == "create index azAZ";
  }

  lemma UpperEnds()
    ensures Upper("create index azAZ") == "CREATE INDEX AZAZ" && Upper("`az{@AZ[09") == "`AZ{@AZ[09"
  {
  }

  lemma UniqueIsNoIndex()
    ensures !IsIndex("CREATE UNIQUE INDEX i ON t(x)")
  {
    assert Upper("CREATE UNIQUE INDEX i ON t(x)")[7] == 'U';
  }

  lemma TableIsNoIndex()
    ensures !IsIndex("CREATE TABLE t(x)") && !IsIndex("CREATE INDE")
  {
    assert Upper("CREATE TABLE t(x)")[7] == 'T';
    assert |Upper("CREATE INDE")| == 11;
  }

  /** The statements of one kind, in their order in the script. */
  function Kind(stmts: seq<string>, index: bool): seq<string> {
    if stmts == [] then []
    else (if IsIndex(stmts[0]) == index then [stmts[0]] else []) + Kind(stmts[1..], index)
  }

  lemma {:induction false} KindSnoc(stmts: seq<string>, t: string, index: bool)
    ensures Kind(stmts + [t], index) == Kind(stmts, index) + if IsIndex(t) == index then [t] else []
  {
    hide IsIndex;
    if stmts == [] {
      assert stmts + [t] == [t];
    } else {
      assert (stmts + [t])[1..] == stmts[1..] + [t];
      KindSnoc(stmts[1..], t, index);
    }
  }

  /** No statement is lost, doubled or changed by the partition. */
  lemma {:induction false} KindsPartition(stmts: seq<string>)
    ensures multiset(Kind(stmts, false)) + multiset(Kind(stmts, true)) == multiset(stmts)
  {
    hide IsIndex;
    if stmts != [] {
      KindsPartition(stmts[1..]);
      KindCons(stmts[0], stmts[1..]);
      assert stmts == [stmts[0]] + stmts[1..];
    }
  }

  lemma KindCons(t: string, rest: seq<string>)
    ensures var k := IsIndex(t);
            Kind([t] + rest, k) == [t] + Kind(rest, k) && Kind([t] + rest, !k) == Kind(rest, !k)
  {
    hide IsIndex;
    assert ([t] + rest)[1..] == rest;
  }

  /** `part` is made of the elements of `whole` at the places `at`, in rising order. */
  predicate InOrder(part: seq<string>, whole: seq<string>, at: seq<nat>) {
    && |at| == |part|
    && (forall k :: 0 <= k < |at| ==> at[k] < |whole| && part[k] == whole[at[k]])
    && forall j, k :: 0 <= j < k < |at| ==> at[j] < at[k]
  }

  lemma PlacesMoved(part: seq<string>, s: string, rest: seq<string>, at: seq<nat>) returns (moved: seq<nat>)
    requires InOrder(part, rest, at)
    ensures InOrder(part, [s] + rest, moved) && InOrder([s] + part, [s] + rest, [0] + moved)
  {
    moved := seq(|at|, k requires 0 <= k < |at| => at[k] + 1);
  }

  /** A half holds its statements in the order of the script. */
  lemma {:induction false} KindKeepsOrder(stmts: seq<string>, index: bool) returns (at: seq<nat>)
    ensures InOrder(Kind(stmts, index), stmts, at)
    decreases |stmts|
  {
    hide IsIndex;
    if stmts == [] {
      at := [];
    } else {
      var rest := KindKeepsOrder(stmts[1..], index);
      var moved := PlacesMoved(Kind(stmts[1..], index), stmts[0], stmts[1..], rest);
      hide InOrder;
      assert [stmts[0]] + stmts[1..] == stmts;
      assert [] + Kind(stmts[1..], index) == Kind(stmts[1..], index);
      at := if IsIndex(stmts[0]) == index then [0] + moved else moved;
    }
  }

  lemma {:induction false} KindMember(stmts: seq<string>, index: bool, t: string)
    requires t in Kind(stmts, index)
    ensures t in stmts && IsIndex(t) == index
  {
    if t !in (if IsIndex(stmts[0]) == index then [stmts[0]] else []) {
      KindMember(stmts[1..], index, t);
    }
  }

  datatype Wanted = BaseOnly | IndexOnly | Both

  method SchemaStatements(schema: string, indexes: Wanted) returns (r: seq<string>)
    ensures r == match indexes
                 case BaseOnly => Kind(Split(schema), false)
                 case IndexOnly => Kind(Split(schema), true)
                 case Both => Kind(Split(schema), false) + Kind(Split(schema), true)
  {
    var stmts := SplitSqlScript(schema);
    var base, idx := [], [];
    for k := 0 to |stmts|
      invariant base == Kind(stmts[..k], false) && idx == Kind(stmts[..k], true)
    {
      assert stmts[..k + 1] == stmts[..k] + [stmts[k]];
      KindSnoc(stmts[..k], stmts[k], false);
      KindSnoc(stmts[..k], stmts[k], true);
      if IsIndex(stmts[k]) {
        idx := idx + [stmts[k]];
      } else {
        base := base + [stmts[k]];
      }
    }
    assert stmts[..|stmts|] == stmts;
    r := match indexes case BaseOnly => base case IndexOnly => idx case Both => base + idx;
  }

  /** Start-up runs the joined base half and later the joined index half: together exactly the
      schema's statements, base ones first, each half in script order. */
  lemma StartupRunsTheSchema(schema: string)
    requires Terminated(schema, Code)
    ensures var base, idx := Kind(Split(schema), false), Kind(Split(schema), true);
            && Split(Join(base)) == base && Split(Join(idx)) == idx
            && multiset(base) + multiset(idx) == multiset(Split(schema))
  {
    StatementsAreClean(schema);
    KindsPartition(Split(schema));
    KindIsClean(Split(schema), false);
    KindIsClean(Split(schema), true);
  }

  lemma KindIsClean(stmts: seq<string>, index: bool)
    requires forall t :: t in stmts ==> Clean(t)
    ensures Split(Join(Kind(stmts, index))) == Kind(stmts, index)
  {
    forall t | t in Kind(stmts, index) ensures Clean(t) {
      KindMember(stmts, index, t);
    }
    SplitJoinOfClean(Kind(stmts, index));
  }
}
