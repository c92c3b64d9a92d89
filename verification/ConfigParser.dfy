/** The indentation parser of configmodel.py: cleaned lines, the stack that finds each line's
    parent, the tree of nodes it builds in place, and the set of paths read off that tree. */
module ConfigParser {
  import opened Text

  datatype Line = Line(text: string, indent: nat)

  type Path = seq<string>

  // ---- Cleaning ----

  function Lower(s: string): (r: string)
    ensures |r| == |s|
  {
    seq(|s|, i requires 0 <= i < |s| => if 'A' <= s[i] <= 'Z' then s[i] - 'A' + 'a' else s[i])
  }

  const NOISE: seq<string> := [
    "building configuration", "current configuration", "version ",
    "boot-start-marker", "boot-end-marker"]

  /** Blank lines, comment lines, the final `end` and the banner lines carry no configuration. */
  predicate Dropped(raw: string) {
    Noise(Strip(RStrip(raw)))
  }

  predicate Noise(stripped: string) {
    || stripped == "" || stripped == "!" || "! " <= stripped
    || Lower(stripped) == "end"
    || exists k :: 0 <= k < |NOISE| && NOISE[k] <= Lower(stripped)
  }

  /** Surrounding white space does not matter. */
  lemma DroppedByText(raw: string)
    requires Trimmed(raw)
    ensures Dropped(raw) <==> Noise(raw)
  {
  }

  lemma BannerIsNoise(k: nat, rest: string, s: string)
    requires k < |NOISE| && Lower(s) == NOISE[k] + rest
    ensures Noise(s)
  {
    assert NOISE[k] <= Lower(s);
  }

  /** Exactly the letters from A to Z are lowered. */
  lemma LowerEnds()
    ensures Lower("@AZ[`az{09") == "@az[`az{09"
  {
  }

  lemma MarksAreDropped()
    ensures Dropped("") && Dropped("!") && Dropped("! comment")
  {
    DroppedByText("");
    DroppedByText("!");
    DroppedByText("! comment");
  }

  lemma EndIsDropped()
    ensures Dropped("end") && Dropped("END")
  {
    DroppedByText("end");
    DroppedByText("END");
    assert Lower("END") == "end" && Lower("end") == "end";
    hide Dropped;
  }

  lemma BuildingIsDropped()
    ensures Dropped("Building configuration.")
  {
    DroppedByText("Building configuration.");
    assert Lower("Building configuration.") == "building configuration" + ".";
    BannerIsNoise(0, ".", "Building configuration.");
    hide Dropped;
    hide Noise;
  }

  lemma CurrentIsDropped()
    ensures Dropped("Current configuration:")
  {
    DroppedByText("Current configuration:");
    assert Lower("Current configuration:") == "current configuration" + ":";
    BannerIsNoise(1, ":", "Current configuration:");
    hide Dropped;
    hide Noise;
  }

  lemma VersionIsDropped()
    ensures Dropped("version 15.2")
  {
    DroppedByText("version 15.2");
    assert Lower("version 15.2") == "version " + "15.2";
    BannerIsNoise(2, "15.2", "version 15.2");
    hide Dropped;
    hide Noise;
  }

  lemma BootStartIsDropped()
    ensures Dropped("boot-start-marker")
  {
    DroppedByText("boot-start-marker");
    assert Lower("boot-start-marker") == "boot-start-marker" + "";
    BannerIsNoise(3, "", "boot-start-marker");
    hide Dropped;
    hide Noise;
  }

  lemma BootEndIsDropped()
    ensures Dropped("boot-end-marker")
  {
    DroppedByText("boot-end-marker");
    assert Lower("boot-end-marker") == "boot-end-marker" + "";
    BannerIsNoise(4, "", "boot-end-marker");
    hide Dropped;
    hide Noise;
  }

  lemma LookalikeIsKept()
    ensures !Dropped("!comment") && !Dropped("version")
  {
    DroppedByText("!comment");
    DroppedByText("version");
    hide Dropped;
    assert Lower("!comment")[0] == '!' && "!comment"[1] != ' ';
    assert |Lower("version")| == 7 && Lower("version")[0] == 'v';
  }

  lemma OtherLinesAreKept()
    ensures !Dropped("end-policy") && !Dropped("hostname r1")
  {
    DroppedByText("end-policy");
    DroppedByText("hostname r1");
    hide Dropped;
    assert |Lower("end-policy")| == 10 && Lower("end-policy")[0] == 'e' && Lower("hostname r1")[0] == 'h';
  }

  /** What is dropped, at concrete lines, and lines that look alike and are kept. */
  lemma DroppedLines()
    ensures Dropped("") && Dropped("!") && Dropped("! comment") && Dropped("end") && Dropped("END")
    ensures Dropped("Building configuration.") && Dropped("Current configuration:")
    ensures Dropped("version 15.2") && Dropped("boot-start-marker") && Dropped("boot-end-marker")
    ensures !Dropped("!comment") && !Dropped("end-policy") && !Dropped("version") && !Dropped("hostname r1")
    ensures Lower("@AZ[`az{09") == "@az[`az{09"
  {
    hide *;
    LowerEnds();
    MarksAreDropped();
    EndIsDropped();
    BuildingIsDropped();
    CurrentIsDropped();
    VersionIsDropped();
    BootStartIsDropped();
    BootEndIsDropped();
    LookalikeIsKept();
    OtherLinesAreKept();
  }

  function Cleaned(lines: seq<string>): seq<string> {
    if lines == [] then []
    else (if Dropped(lines[0]) then [] else [RStrip(lines[0])]) + Cleaned(lines[1..])
  }

  method CleanLines(lines: seq<string>) returns (out: seq<string>)
    ensures out == Cleaned(lines)
  {
    out := [];
    for k := 0 to |lines|
      invariant out + Cleaned(lines[k..]) == Cleaned(lines)
    {
      CleanedStep(out, lines, k);
      if !Dropped(lines[k]) {
        out := out + [RStrip(lines[k])];
      }
    }
    assert lines[|lines|..] == [];
  }

  lemma CleanedStep(out: seq<string>, lines: seq<string>, k: nat)
    requires k < |lines|
    ensures out + Cleaned(lines[k..]) ==
            (if Dropped(lines[k]) then out else out + [RStrip(lines[k])]) + Cleaned(lines[k + 1..])
  {
    assert lines[k..][1..] == lines[k + 1..];
    assert out + [] == out;
  }

  lemma {:induction false} RStripTwice(s: string)
    ensures RStrip(RStrip(s)) == RStrip(s)
  {
    if s != "" && IsSpace(s[|s| - 1]) {
      RStripTwice(s[..|s| - 1]);
    }
  }

  /** Cleaning is a normal form: cleaned lines pass unchanged. */
  lemma {:induction false} CleanedTwice(lines: seq<string>)
    ensures Cleaned(Cleaned(lines)) == Cleaned(lines)
  {
    if lines != [] {
      CleanedTwice(lines[1..]);
      RStripTwice(lines[0]);
      var head := if Dropped(lines[0]) then [] else [RStrip(lines[0])];
      assert head != [] ==> (head + Cleaned(lines[1..]))[1..] == Cleaned(lines[1..]);
      assert head == [] ==> head + Cleaned(lines[1..]) == Cleaned(lines[1..]);
    }
  }

  lemma {:induction false} LStripShortens(s: string)
    ensures |LStrip(s)| <= |s|
  {
    if s != "" && IsSpace(s[0]) {
      LStripShortens(s[1..]);
    }
  }

  function LineOf(raw: string): Line {
    LStripShortens(raw);
    Line(Strip(raw), |raw| - |LStrip(raw)|)
  }

  function Lines(raws: seq<string>): (ls: seq<Line>)
    ensures |ls| == |raws| && forall i :: 0 <= i < |ls| ==> ls[i] == LineOf(raws[i])
  {
    seq(|raws|, i requires 0 <= i < |raws| => LineOf(raws[i]))
  }

  // ---- Parents ----

  /** The last of the lines 0..j that is indented less than `indent`; -1 stands for the root. */
  function Nearest(ls: seq<Line>, j: int, indent: nat): (p: int)
    requires -1 <= j < |ls|
    ensures -1 <= p <= j
    ensures p >= 0 ==> ls[p].indent < indent
    ensures forall m :: p < m <= j ==> ls[m].indent >= indent
    decreases j
  {
    if j < 0 || ls[j].indent < indent then j else Nearest(ls, j - 1, indent)
  }

  function Parent(ls: seq<Line>, i: nat): (p: int)
    requires i < |ls|
    ensures -1 <= p < i
  {
    Nearest(ls, i - 1, ls[i].indent)
  }

  lemma NearestUnique(ls: seq<Line>, j: int, indent: nat, p: int)
    requires -1 <= p <= j < |ls|
    requires p >= 0 ==> ls[p].indent < indent
    requires forall m :: p < m <= j ==> ls[m].indent >= indent
    ensures Nearest(ls, j, indent) == p
  {
  }

  function PathOf(ls: seq<Line>, i: int): (p: Path)
    requires -1 <= i < |ls|
    ensures i >= 0 ==> p != []
    decreases i
  {
    if i < 0 then [] else PathOf(ls, Parent(ls, i)) + [ls[i].text]
  }

  function PathSet(ls: seq<Line>): set<Path> {
    set i | 0 <= i < |ls| :: PathOf(ls, i)
  }

  ghost predicate PrefixClosed(ps: set<Path>) {
    && [] !in ps
    && forall p, k :: p in ps && 0 < k <= |p| ==> p[..k] in ps
  }

  lemma {:induction false} PathPrefix(ls: seq<Line>, i: nat, k: nat)
    requires i < |ls| && 0 < k <= |PathOf(ls, i)|
    ensures PathOf(ls, i)[..k] in PathSet(ls)
    decreases i
  {
    var p := PathOf(ls, i);
    if k == |p| {
      assert p[..k] == p;
    } else {
      var up := Parent(ls, i);
      assert p[..k] == PathOf(ls, up)[..k];
      PathPrefix(ls, up, k);
    }
  }

  lemma PathSetClosed(ls: seq<Line>)
    ensures PrefixClosed(PathSet(ls))
  {
    forall p, k | p in PathSet(ls) && 0 < k <= |p|
      ensures p[..k] in PathSet(ls)
    {
      var i :| 0 <= i < |ls| && p == PathOf(ls, i);
      PathPrefix(ls, i, k);
    }
  }

  // ---- The tree built in place ----

  class Node {
    const text: string
    const indent: int
    var children: seq<Node>

    constructor (text: string, indent: int)
      ensures this.text == text && this.indent == indent && children == []
    {
      this.text := text;
      this.indent := indent;
      children := [];
    }
  }

  /** The nodes of the children of line `p` (-1: the root) among the first `n` lines, in order;
      `all[i + 1]` is the node of line i. */
  ghost function KidNodes(all: seq<Node>, ls: seq<Line>, p: int, n: nat): seq<Node>
    requires n <= |ls| && n < |all|
  {
    if n == 0 then []
    else KidNodes(all, ls, p, n - 1) + if Parent(ls, n - 1) == p then [all[n]] else []
  }

  lemma {:induction false} KidNodesGrow(all: seq<Node>, x: Node, ls: seq<Line>, p: int, n: nat)
    requires n <= |ls| && n < |all|
    ensures KidNodes(all + [x], ls, p, n) == KidNodes(all, ls, p, n)
  {
    if n > 0 {
      KidNodesGrow(all, x, ls, p, n - 1);
    }
  }

  ghost predicate Labelled(all: seq<Node>, ls: seq<Line>, n: nat)
    requires n <= |ls|
  {
    && |all| == n + 1 && all[0].indent == -1
    && (forall i, j :: 0 <= i < j < |all| ==> all[i] != all[j])
    && (forall i :: 0 <= i < n ==> all[i + 1].text == ls[i].text && all[i + 1].indent == ls[i].indent)
  }

  /** The heap tree says exactly what the first `n` lines say: each node hangs under the node of
      the nearest earlier line that is indented less. */
  ghost predicate Represents(all: seq<Node>, ls: seq<Line>, n: nat)
    requires n <= |ls|
    reads all
  {
    && Labelled(all, ls, n)
    && forall k :: 0 <= k <= n ==> all[k].children == KidNodes(all, ls, k - 1, n)
  }

  /** The open modes: the last line read and its chain of parents, root first. */
  ghost predicate Chain(ls: seq<Line>, n: nat, open: seq<int>)
    requires n <= |ls|
  {
    && |open| > 0 && open[0] == -1
    && (forall m :: 0 < m < |open| ==> 0 <= open[m] < n && Parent(ls, open[m]) == open[m - 1])
  }

  lemma {:induction false} ChainIncreases(ls: seq<Line>, n: nat, open: seq<int>, a: nat, b: nat)
    requires n <= |ls| && Chain(ls, n, open) && 0 < a < b < |open|
    ensures ls[open[a]].indent < ls[open[b]].indent
  {
    if a + 1 < b {
      ChainIncreases(ls, n, open, a, b - 1);
    }
  }

  /** `stack` holds the nodes of the open modes. */
  ghost predicate Stacked(all: seq<Node>, ls: seq<Line>, n: nat, stack: seq<Node>, open: seq<int>)
    requires n <= |ls| && |all| == n + 1
  {
    && Chain(ls, n, open) && |stack| == |open|
    && forall m :: 0 <= m < |stack| ==> stack[m] == all[open[m] + 1]
  }

  /** Closes the modes that line n does not belong to; its parent is left on top. */
  method PopTo(stack: seq<Node>, indent: nat, ghost all: seq<Node>, ghost ls: seq<Line>, ghost n: nat,
               ghost open: seq<int>)
    returns (left: seq<Node>, ghost still: seq<int>)
    requires n < |ls| && Labelled(all, ls, n) && indent == ls[n].indent
    requires Stacked(all, ls, n, stack, open) && open[|open| - 1] == n - 1
    ensures Stacked(all, ls, n, left, still) && left <= stack && still <= open
    ensures still[|still| - 1] == Parent(ls, n)
  {
    hide Parent;
    left, still := stack, open;
    while |left| > 1 && indent <= left[|left| - 1].indent
      invariant Stacked(all, ls, n, left, still) && left <= stack && still <= open
      invariant forall m :: still[|still| - 1] < m < n ==> ls[m].indent >= indent
    {
      ParentBounds(ls, still[|still| - 1]);
      left := left[..|left| - 1];
      still := still[..|still| - 1];
    }
    ParentIs(ls, n, still[|still| - 1]);
  }

  lemma ParentIs(ls: seq<Line>, i: nat, p: int)
    requires -1 <= p < i < |ls|
    requires p >= 0 ==> ls[p].indent < ls[i].indent
    requires forall m :: p < m < i ==> ls[m].indent >= ls[i].indent
    ensures Parent(ls, i) == p
  {
    NearestUnique(ls, i - 1, ls[i].indent, p);
  }

  /** A line between another line and its parent is indented at least as deep as that other line. */
  lemma ParentBounds(ls: seq<Line>, i: nat)
    requires i < |ls|
    ensures Parent(ls, i) >= 0 ==> ls[Parent(ls, i)].indent < ls[i].indent
    ensures forall m :: Parent(ls, i) < m < i ==> ls[m].indent >= ls[i].indent
  {
  }

  method ParseIndented(lines: seq<string>) returns (root: Node, ghost all: seq<Node>)
    ensures all != [] && root == all[0] && fresh(all)
    ensures Represents(all, Lines(Cleaned(lines)), |Cleaned(lines)|)
    ensures Hanging(root.children, all, |Cleaned(lines)|) == Forest(Lines(Cleaned(lines)))
  {
    var raws := CleanLines(lines);
    root, all := BuildTree(Lines(raws));
    HeapIsForest(all, Lines(raws));
  }

  method BuildTree(ls: seq<Line>) returns (root: Node, ghost all: seq<Node>)
    ensures all != [] && root == all[0] && fresh(all)
    ensures Represents(all, ls, |ls|)
  {
    hide *;
    var stack;
    ghost var open;
    root, all, stack, open := Root(ls);
    for n := 0 to |ls|
      invariant |all| == n + 1 && root == all[0] && fresh(all)
      invariant Represents(all, ls, n)
      invariant Stacked(all, ls, n, stack, open) && |open| > 0 && open[|open| - 1] == n - 1
    {
      var node;
      stack, node, open := ReadLine(stack, ls[n], all, ls, n, open);
      all := all + [node];
    }
  }

  method Root(ghost ls: seq<Line>) returns (root: Node, ghost all: seq<Node>, stack: seq<Node>, ghost open: seq<int>)
    ensures all == [root] && fresh(root)
    ensures Represents(all, ls, 0)
    ensures Stacked(all, ls, 0, stack, open) && |open| > 0 && open[|open| - 1] == -1
  {
    root := new Node("<root>", -1);
    all, stack, open := [root], [root], [-1];
  }

  /** One line: leave the modes it is not in, hang its node, enter it. */
  method ReadLine(stack: seq<Node>, line: Line, ghost all: seq<Node>, ghost ls: seq<Line>, ghost n: nat,
                  ghost open: seq<int>)
    returns (next: seq<Node>, node: Node, ghost now: seq<int>)
    requires n < |ls| && Represents(all, ls, n) && line == ls[n]
    requires Stacked(all, ls, n, stack, open) && open[|open| - 1] == n - 1
    modifies all
    ensures fresh(node) && Represents(all + [node], ls, n + 1)
    ensures Stacked(all + [node], ls, n + 1, next, now) && |now| > 0 && now[|now| - 1] == n
  {
    next, now := PopTo(stack, line.indent, all, ls, n, open);
    node := new Node(line.text, line.indent);
    Hang(next[|next| - 1], node, all, ls, n);
    Pushed(all, node, ls, n, next, now);
    next := next + [node];
    now := now + [n];
  }

  lemma Pushed(all: seq<Node>, node: Node, ls: seq<Line>, n: nat, stack: seq<Node>, open: seq<int>)
    requires n < |ls| && |all| == n + 1 && Stacked(all, ls, n, stack, open)
    requires open[|open| - 1] == Parent(ls, n)
    ensures Stacked(all + [node], ls, n + 1, stack + [node], open + [n])
  {
    hide Parent;
    var grown, now := all + [node], open + [n];
    assert forall m :: 0 <= m < |open| ==> now[m] == open[m] && grown[open[m] + 1] == all[open[m] + 1];
  }

  /** `top.children.append(node)` for the node of line n under its parent. */
  method Hang(top: Node, node: Node, ghost all: seq<Node>, ghost ls: seq<Line>, ghost n: nat)
    requires n < |ls| && Represents(all, ls, n) && node !in all && node.children == []
    requires node.text == ls[n].text && node.indent == ls[n].indent
    requires top == all[Parent(ls, n) + 1]
    modifies top`children
    ensures Represents(all + [node], ls, n + 1)
  {
    hide KidNodes;
    hide Parent;
    top.children := top.children + [node];
    forall k | 0 <= k <= n + 1
      ensures (all + [node])[k].children == KidNodes(all + [node], ls, k - 1, n + 1)
    {
      KidNodesNext(all, node, ls, n, k);
    }
  }

  /** Adding the node of line n changes the children of its parent, and of no other node. */
  lemma KidNodesNext(all: seq<Node>, node: Node, ls: seq<Line>, n: nat, k: nat)
    requires n < |ls| && |all| == n + 1 && k <= n + 1
    ensures KidNodes(all + [node], ls, k - 1, n + 1) ==
            if k == n + 1 then []
            else KidNodes(all, ls, k - 1, n) + if Parent(ls, n) == k - 1 then [node] else []
  {
    KidNodesGrow(all, node, ls, k - 1, n);
    if k == n + 1 {
      NoKidsBelow(all, ls, n, n);
    }
  }

  lemma {:induction false} NoKidsBelow(all: seq<Node>, ls: seq<Line>, p: int, n: nat)
    requires n <= |ls| && n < |all| && n <= p + 1
    ensures KidNodes(all, ls, p, n) == []
  {
    if n > 0 {
      NoKidsBelow(all, ls, p, n - 1);
    }
  }

  // ---- Reading the paths off the tree ----

  /** The children of line `p` among the first `n` lines, as line numbers. */
  ghost function Kids(ls: seq<Line>, p: int, n: nat): (ks: seq<int>)
    requires n <= |ls|
    ensures forall m :: 0 <= m < |ks| ==> 0 <= ks[m] < n && Parent(ls, ks[m]) == p
    ensures forall i :: 0 <= i < n && Parent(ls, i) == p ==> i in ks
  {
    if n == 0 then [] else Kids(ls, p, n - 1) + if Parent(ls, n - 1) == p then [n - 1] else []
  }

  lemma {:induction false} KidNodesAreKids(all: seq<Node>, ls: seq<Line>, p: int, n: nat)
    requires n <= |ls| && n < |all|
    ensures var nodes, ks := KidNodes(all, ls, p, n), Kids(ls, p, n);
            |nodes| == |ks| && forall m :: 0 <= m < |ks| ==> nodes[m] == all[ks[m] + 1]
  {
    hide Parent;
    if n > 0 {
      KidNodesAreKids(all, ls, p, n - 1);
    }
  }

  /** Line i lies somewhere below line k. */
  ghost predicate Under(ls: seq<Line>, k: int, i: int)
    requires -1 <= k && 0 <= i < |ls|
    decreases i
  {
    var up := Parent(ls, i);
    up == k || (up >= 0 && Under(ls, k, up))
  }

  ghost function Below(ls: seq<Line>, k: int): set<Path>
    requires -1 <= k
  {
    set i | 0 <= i < |ls| && Under(ls, k, i) :: PathOf(ls, i)
  }

  lemma {:induction false} UnderVia(ls: seq<Line>, k: int, i: int) returns (c: int)
    requires -1 <= k && 0 <= i < |ls| && Under(ls, k, i)
    ensures 0 <= c < |ls| && Parent(ls, c) == k && (c == i || Under(ls, c, i))
    decreases i
  {
    var up := Parent(ls, i);
    if up == k {
      c := i;
    } else {
      c := UnderVia(ls, k, up);
    }
  }

  lemma {:induction false} UnderTrans(ls: seq<Line>, k: int, c: int, i: int)
    requires -1 <= k && 0 <= c < |ls| && 0 <= i < |ls| && Parent(ls, c) == k && Under(ls, c, i)
    ensures Under(ls, k, i)
    decreases i
  {
    if Parent(ls, i) != c {
      UnderTrans(ls, k, c, Parent(ls, i));
    }
  }

  lemma BelowChild(ls: seq<Line>, k: int, c: int)
    requires -1 <= k && 0 <= c < |ls| && Parent(ls, c) == k
    ensures {PathOf(ls, c)} + Below(ls, c) <= Below(ls, k)
  {
    forall p | p in Below(ls, c) ensures p in Below(ls, k) {
      var i :| 0 <= i < |ls| && Under(ls, c, i) && p == PathOf(ls, i);
      UnderTrans(ls, k, c, i);
    }
    assert Under(ls, k, c);
  }

  lemma BelowIsCovered(ls: seq<Line>, k: int, out: set<Path>)
    requires -1 <= k
    requires forall c :: 0 <= c < |ls| && Parent(ls, c) == k ==> PathOf(ls, c) in out && Below(ls, c) <= out
    ensures Below(ls, k) <= out
  {
    forall p | p in Below(ls, k) ensures p in out {
      var i :| 0 <= i < |ls| && Under(ls, k, i) && p == PathOf(ls, i);
      var c := UnderVia(ls, k, i);
      assert c != i ==> PathOf(ls, i) in Below(ls, c);
    }
  }

  lemma {:induction false} AllUnderRoot(ls: seq<Line>, i: int)
    requires 0 <= i < |ls|
    ensures Under(ls, -1, i)
    decreases i
  {
    if Parent(ls, i) >= 0 {
      AllUnderRoot(ls, Parent(ls, i));
    }
  }

  /** `walk`: the paths of everything below a node, collected by recursion over `children`. */
  method Walk(node: Node, prefix: Path, ghost all: seq<Node>, ghost ls: seq<Line>, ghost k: int)
    returns (out: set<Path>)
    requires Represents(all, ls, |ls|) && -1 <= k < |ls|
    requires node == all[k + 1] && prefix == PathOf(ls, k)
    ensures out == Below(ls, k)
    decreases |ls| - k
  {
    hide *;
    out := {};
    ghost var kids := Kids(ls, k, |ls|);
    ChildrenAreKids(all, ls, k);
    for m := 0 to |node.children|
      invariant out <= Below(ls, k)
      invariant forall q :: 0 <= q < m ==> PathOf(ls, kids[q]) in out && Below(ls, kids[q]) <= out
    {
      var child := node.children[m];
      var path := PathOfChild(ls, kids[m], prefix, child.text);
      var below := Walk(child, path, all, ls, kids[m]);
      BelowChild(ls, k, kids[m]);
      out := out + {path} + below;
    }
    BelowIsCovered(ls, k, out);
  }

  lemma ChildrenAreKids(all: seq<Node>, ls: seq<Line>, k: int)
    requires Represents(all, ls, |ls|) && -1 <= k < |ls|
    ensures |all| == |ls| + 1
    ensures var node, ks := all[k + 1], Kids(ls, k, |ls|);
            && |node.children| == |ks|
            && forall m :: 0 <= m < |ks| ==>
              && k < ks[m] < |ls| && Parent(ls, ks[m]) == k
              && node.children[m] == all[ks[m] + 1] && node.children[m].text == ls[ks[m]].text
  {
    KidNodesAreKids(all, ls, k, |ls|);
    assert all[k + 1].children == KidNodes(all, ls, k + 1 - 1, |ls|);
  }

  /** `prefix + (child.text,)` is the path of the child's line. */
  method PathOfChild(ghost ls: seq<Line>, ghost i: int, prefix: Path, text: string) returns (path: Path)
    requires 0 <= i < |ls| && prefix == PathOf(ls, Parent(ls, i)) && text == ls[i].text
    ensures path == PathOf(ls, i)
  {
    path := prefix + [text];
  }

  method Paths(root: Node, ghost all: seq<Node>, ghost ls: seq<Line>) returns (out: set<Path>)
    requires Represents(all, ls, |ls|) && root == all[0]
    ensures out == PathSet(ls)
  {
    out := Walk(root, [], all, ls, -1);
    forall i | 0 <= i < |ls| ensures Under(ls, -1, i) {
      AllUnderRoot(ls, i);
    }
  }

  // ---- Printing and parsing again ----

  /** A configuration as a value: a line and the sections nested under it. */
  datatype Tree = Tree(line: Line, kids: seq<Tree>)

  function Print(f: seq<Tree>): seq<Line> {
    if f == [] then [] else [f[0].line] + Print(f[0].kids) + Print(f[1..])
  }

  /** How many leading lines are indented deeper than `indent`. */
  function Run(ls: seq<Line>, indent: nat): (n: nat)
    ensures n <= |ls|
    ensures forall m :: 0 <= m < n ==> ls[m].indent > indent
    ensures n < |ls| ==> ls[n].indent <= indent
  {
    if ls == [] || ls[0].indent <= indent then 0
    else
      var n := Run(ls[1..], indent);
      assert forall m :: 1 <= m < n + 1 ==> ls[m] == ls[1..][m - 1];
      n + 1
  }

  /** The nesting of a line list by indentation alone: a line owns the run of deeper lines behind it. */
  function Forest(ls: seq<Line>): seq<Tree>
    decreases |ls|
  {
    if ls == [] then []
    else
      var n := Run(ls[1..], ls[0].indent);
      [Tree(ls[0], Forest(ls[1..n + 1]))] + Forest(ls[n + 1..])
  }

  predicate Deeper(f: seq<Tree>, indent: nat) {
    forall k :: 0 <= k < |f| ==> f[k].line.indent > indent
  }

  /** The trees the parser can produce: sections are deeper than their header, and a later sibling
      is never deeper than an earlier one. */
  predicate Nested(f: seq<Tree>)
    decreases f
  {
    f == [] || (
      && Deeper(f[0].kids, f[0].line.indent) && Nested(f[0].kids)
      && (|f| > 1 ==> f[1].line.indent <= f[0].line.indent) && Nested(f[1..]))
  }

  lemma PrintCons(t: Tree, f: seq<Tree>)
    ensures Print([t] + f) == [t.line] + Print(t.kids) + Print(f)
  {
    assert ([t] + f)[1..] == f;
  }

  lemma ThreeParts(ls: seq<Line>, n: nat)
    requires n < |ls|
    ensures [ls[0]] + ls[1..n + 1] + ls[n + 1..] == ls
  {
  }

  lemma ForestUnfold(ls: seq<Line>)
    requires ls != []
    ensures var n := Run(ls[1..], ls[0].indent);
            Forest(ls) == [Tree(ls[0], Forest(ls[1..n + 1]))] + Forest(ls[n + 1..])
  {
  }

  /** Reading a tree off a line list and printing it gives the lines back, in order. */
  lemma {:induction false} PrintOfForest(ls: seq<Line>)
    ensures Print(Forest(ls)) == ls
    decreases |ls|
  {
    if ls != [] {
      hide *;
      var n := Run(ls[1..], ls[0].indent);
      ForestUnfold(ls);
      PrintOfForest(ls[1..n + 1]);
      PrintOfForest(ls[n + 1..]);
      PrintCons(Tree(ls[0], Forest(ls[1..n + 1])), Forest(ls[n + 1..]));
      ThreeParts(ls, n);
    } else {
      assert Print(Forest(ls)) == [];
    }
  }

  lemma ForestHeads(ls: seq<Line>)
    ensures Forest(ls) != [] <==> ls != []
    ensures ls != [] ==> Forest(ls)[0].line == ls[0]
  {
  }

  lemma {:induction false} ForestIsDeeper(ls: seq<Line>, indent: nat)
    requires forall m :: 0 <= m < |ls| ==> ls[m].indent > indent
    ensures Deeper(Forest(ls), indent)
    decreases |ls|
  {
    if ls != [] {
      var n := Run(ls[1..], ls[0].indent);
      ForestIsDeeper(ls[n + 1..], indent);
    }
  }

  lemma {:induction false} ForestIsNested(ls: seq<Line>)
    ensures Nested(Forest(ls))
    decreases |ls|
  {
    if ls != [] {
      var n := Run(ls[1..], ls[0].indent);
      ForestIsDeeper(ls[1..n + 1], ls[0].indent);
      ForestIsNested(ls[1..n + 1]);
      ForestIsNested(ls[n + 1..]);
      ForestHeads(ls[n + 1..]);
      assert Forest(ls)[1..] == Forest(ls[n + 1..]);
    }
  }

  lemma {:induction false} PrintIsDeeper(f: seq<Tree>, indent: nat)
    requires Nested(f) && Deeper(f, indent)
    ensures forall m :: 0 <= m < |Print(f)| ==> Print(f)[m].indent > indent
    decreases f
  {
    if f != [] {
      PrintIsDeeper(f[0].kids, indent);
      PrintIsDeeper(f[1..], indent);
    }
  }

  lemma RunIs(a: seq<Line>, b: seq<Line>, indent: nat)
    requires forall m :: 0 <= m < |a| ==> a[m].indent > indent
    requires b != [] ==> b[0].indent <= indent
    ensures Run(a + b, indent) == |a|
  {
    assert forall m :: 0 <= m < |a| ==> (a + b)[m] == a[m];
    assert b != [] ==> (a + b)[|a|] == b[0];
  }

  /** A header, the deeper lines behind it and a rest that is not deeper parse separately. */
  lemma ForestCons(h: Line, kids: seq<Line>, rest: seq<Line>)
    requires forall m :: 0 <= m < |kids| ==> kids[m].indent > h.indent
    requires rest != [] ==> rest[0].indent <= h.indent
    ensures Forest([h] + kids + rest) == [Tree(h, Forest(kids))] + Forest(rest)
  {
    var ls := [h] + kids + rest;
    RunIs(kids, rest, h.indent);
    assert ls[1..] == kids + rest;
    assert ls[1..|kids| + 1] == kids && ls[|kids| + 1..] == rest;
  }

  lemma PrintHead(f: seq<Tree>)
    ensures f != [] ==> Print(f) != [] && Print(f)[0] == f[0].line
  {
  }

  lemma NestedGives(f: seq<Tree>)
    requires Nested(f) && f != []
    ensures Deeper(f[0].kids, f[0].line.indent) && Nested(f[0].kids) && Nested(f[1..])
    ensures f[1..] != [] ==> f[1..][0].line.indent <= f[0].line.indent
    ensures Print(f) == [f[0].line] + Print(f[0].kids) + Print(f[1..])
  {
  }

  lemma NothingPrinted()
    ensures Print([]) == [] && Forest([]) == []
  {
  }

  /** Printing a nested tree and parsing the lines again returns the same tree. */
  lemma {:induction false} ForestOfPrint(f: seq<Tree>)
    requires Nested(f)
    ensures Forest(Print(f)) == f
    decreases f
  {
    hide *;
    NothingPrinted();
    if f != [] {
      NestedGives(f);
      PrintIsDeeper(f[0].kids, f[0].line.indent);
      ForestOfPrint(f[0].kids);
      ForestOfPrint(f[1..]);
      PrintHead(f[1..]);
      ForestCons(f[0].line, Print(f[0].kids), Print(f[1..]));
      assert f == [Tree(f[0].line, f[0].kids)] + f[1..];
    }
  }

  /** A tree is what the parser makes of its own print exactly when it is nested. */
  lemma RoundTripIffNested(f: seq<Tree>)
    ensures Forest(Print(f)) == f <==> Nested(f)
  {
    if Nested(f) {
      ForestOfPrint(f);
    } else {
      ForestIsNested(Print(f));
    }
  }

  // ---- The tree on the heap is that forest ----

  /** The children of line `p` among the lines lo..hi - 1. */
  ghost function KidsWithin(ls: seq<Line>, p: int, lo: nat, hi: nat): (ks: seq<nat>)
    requires lo <= hi <= |ls|
    ensures forall m :: 0 <= m < |ks| ==> lo <= ks[m] < hi && Parent(ls, ks[m]) == p
  {
    if lo == hi then []
    else KidsWithin(ls, p, lo, hi - 1) + if Parent(ls, hi - 1) == p then [hi - 1] else []
  }

  lemma {:induction false} KidsWithinSplit(ls: seq<Line>, p: int, lo: nat, mid: nat, hi: nat)
    requires lo <= mid <= hi <= |ls|
    ensures KidsWithin(ls, p, lo, hi) == KidsWithin(ls, p, lo, mid) + KidsWithin(ls, p, mid, hi)
    decreases hi
  {
    if mid < hi {
      hide Parent;
      KidsWithinSplit(ls, p, lo, mid, hi - 1);
    }
  }

  lemma {:induction false} KidsFromStart(ls: seq<Line>, p: int, n: nat)
    requires n <= |ls|
    ensures Kids(ls, p, n) == KidsWithin(ls, p, 0, n)
  {
    if n > 0 {
      hide Parent;
      KidsFromStart(ls, p, n - 1);
    }
  }

  lemma {:induction false} NoKidsWithin(ls: seq<Line>, p: int, lo: nat, hi: nat)
    requires lo <= hi <= |ls| && forall i :: lo <= i < hi ==> Parent(ls, i) != p
    ensures KidsWithin(ls, p, lo, hi) == []
  {
    if lo < hi {
      NoKidsWithin(ls, p, lo, hi - 1);
    }
  }

  /** The tree that hangs on the node of line i, read through the parent relation. */
  ghost function TreeAt(ls: seq<Line>, i: nat): Tree
    requires i < |ls|
    decreases |ls| - i
  {
    Tree(ls[i], TreesAt(ls, i, KidsWithin(ls, i, 0, |ls|)))
  }

  ghost function TreesAt(ls: seq<Line>, p: int, ks: seq<nat>): seq<Tree>
    requires -1 <= p < |ls| && forall m :: 0 <= m < |ks| ==> p < ks[m] < |ls|
    decreases |ls| - p, 0
  {
    seq(|ks|, m requires 0 <= m < |ks| => TreeAt(ls, ks[m]))
  }

  /** The lines lo..hi - 1 hang under `p` or under each other, and nothing behind hangs under them. */
  ghost predicate Segment(ls: seq<Line>, p: int, lo: nat, hi: nat) {
    && -1 <= p < lo <= hi <= |ls|
    && (forall i :: lo <= i < hi ==> Parent(ls, i) == p || Parent(ls, i) >= lo)
    && (forall i :: hi <= i < |ls| ==> !(lo <= Parent(ls, i) < hi))
  }

  lemma SegmentSplits(ls: seq<Line>, p: int, lo: nat, mid: nat, hi: nat)
    requires Segment(ls, p, lo, hi) && lo < mid <= hi
    requires forall i :: lo < i < mid ==> ls[i].indent > ls[lo].indent
    requires mid < hi ==> ls[mid].indent <= ls[lo].indent
    ensures Parent(ls, lo) == p
    ensures Segment(ls, lo, lo + 1, mid) && Segment(ls, p, mid, hi)
    ensures forall i :: mid <= i < |ls| ==> Parent(ls, i) != lo
  {
  }

  lemma TreesAtAppend(ls: seq<Line>, p: int, a: seq<nat>, b: seq<nat>)
    requires -1 <= p < |ls|
    requires forall m :: 0 <= m < |a| ==> p < a[m] < |ls|
    requires forall m :: 0 <= m < |b| ==> p < b[m] < |ls|
    ensures TreesAt(ls, p, a + b) == TreesAt(ls, p, a) + TreesAt(ls, p, b)
  {
    hide TreeAt;
  }

  lemma TreeOfRun(ls: seq<Line>, p: int, lo: nat, mid: nat, hi: nat)
    requires Segment(ls, p, lo, hi) && lo < mid <= hi && Parent(ls, lo) == p
    requires Segment(ls, lo, lo + 1, mid) && forall i :: mid <= i < |ls| ==> Parent(ls, i) != lo
    ensures KidsWithin(ls, p, lo, hi) == [lo] + KidsWithin(ls, p, mid, hi)
    ensures KidsWithin(ls, lo, 0, |ls|) == KidsWithin(ls, lo, lo + 1, mid)
  {
    hide KidsWithin;
    hide Parent;
    OneKidWithin(ls, p, lo);
    NoKidsWithin(ls, p, lo + 1, mid);
    NoKidsWithin(ls, lo, 0, lo + 1);
    NoKidsWithin(ls, lo, mid, |ls|);
    KidsWithinSplit(ls, p, lo, lo + 1, hi);
    KidsWithinSplit(ls, p, lo + 1, mid, hi);
    KidsWithinSplit(ls, lo, 0, lo + 1, |ls|);
    KidsWithinSplit(ls, lo, lo + 1, mid, |ls|);
  }

  lemma OneKidWithin(ls: seq<Line>, p: int, i: nat)
    requires i < |ls| && Parent(ls, i) == p
    ensures KidsWithin(ls, p, i, i + 1) == [i]
  {
    assert KidsWithin(ls, p, i, i) == [];
  }

  /** Where the run of deeper lines behind line `lo` ends. */
  lemma RunEnd(ls: seq<Line>, lo: nat, hi: nat) returns (mid: nat)
    requires lo < hi <= |ls|
    ensures lo < mid <= hi
    ensures forall i :: lo < i < mid ==> ls[i].indent > ls[lo].indent
    ensures mid < hi ==> ls[mid].indent <= ls[lo].indent
    ensures Forest(ls[lo..hi]) == [Tree(ls[lo], Forest(ls[lo + 1..mid]))] + Forest(ls[mid..hi])
  {
    hide Forest;
    var seg := ls[lo..hi];
    var n := Run(seg[1..], seg[0].indent);
    mid := lo + 1 + n;
    assert forall i :: lo < i < mid ==> ls[i] == seg[1..][i - lo - 1];
    assert mid < hi ==> ls[mid] == seg[1..][n];
    ForestUnfold(seg);
    assert seg[1..n + 1] == ls[lo + 1..mid] && seg[n + 1..] == ls[mid..hi];
  }

  lemma {:induction false} SegmentIsForest(ls: seq<Line>, p: int, lo: nat, hi: nat)
    requires Segment(ls, p, lo, hi) && p < |ls|
    ensures TreesAt(ls, p, KidsWithin(ls, p, lo, hi)) == Forest(ls[lo..hi])
    decreases hi - lo
  {
    if lo < hi {
      hide *;
      var mid := RunEnd(ls, lo, hi);
      SegmentSplits(ls, p, lo, mid, hi);
      TreeOfRun(ls, p, lo, mid, hi);
      SegmentIsForest(ls, lo, lo + 1, mid);
      SegmentIsForest(ls, p, mid, hi);
      TreesAtAppend(ls, p, [lo], KidsWithin(ls, p, mid, hi));
      TreesAtOne(ls, p, lo);
    } else {
      assert KidsWithin(ls, p, lo, hi) == [];
    }
  }

  lemma TreesAtOne(ls: seq<Line>, p: int, i: nat)
    requires -1 <= p < i < |ls|
    ensures TreesAt(ls, p, [i]) == [Tree(ls[i], TreesAt(ls, i, KidsWithin(ls, i, 0, |ls|)))]
  {
    assert TreesAt(ls, p, [i]) == [TreeAt(ls, i)];
  }

  /** The parser's tree, read through its parent relation, is the nesting by indentation; so its
      preorder is the cleaned input. */
  lemma ParsedTreeIsForest(ls: seq<Line>)
    ensures TreesAt(ls, -1, Kids(ls, -1, |ls|)) == Forest(ls)
    ensures Print(TreesAt(ls, -1, Kids(ls, -1, |ls|))) == ls
  {
    KidsFromStart(ls, -1, |ls|);
    SegmentIsForest(ls, -1, 0, |ls|);
    assert ls[0..|ls|] == ls;
    PrintOfForest(ls);
  }

  /** The trees that hang on the nodes, read by following `children` for `depth` levels. */
  ghost function Hanging(nodes: seq<Node>, all: seq<Node>, depth: nat): seq<Tree>
    reads all
    decreases depth, |nodes|
  {
    if nodes == [] || depth == 0 then []
    else
      var node := nodes[0];
      [Tree(Line(node.text, if node.indent < 0 then 0 else node.indent),
            if node in all then Hanging(node.children, all, depth - 1) else [])] + Hanging(nodes[1..], all, depth)
  }

  lemma {:induction false} HangingIs(all: seq<Node>, ls: seq<Line>, p: int, ks: seq<nat>, nodes: seq<Node>, depth: nat)
    requires Represents(all, ls, |ls|) && |all| == |ls| + 1 && -1 <= p < |ls| && depth >= |ls| - p - 1
    requires |nodes| == |ks| && forall m :: 0 <= m < |ks| ==> p < ks[m] < |ls| && nodes[m] == all[ks[m] + 1]
    ensures Hanging(nodes, all, depth) == TreesAt(ls, p, ks)
    decreases depth, |ks|
  {
    hide *;
    if ks == [] {
      NothingHangs(all, ls, p, depth);
    } else {
      var c, below := ks[0], KidsWithin(ls, ks[0], 0, |ls|);
      ChildrenAreKids(all, ls, c);
      KidsFromStart(ls, c, |ls|);
      HangingIs(all, ls, c, below, nodes[0].children, depth - 1);
      HangingIs(all, ls, p, ks[1..], nodes[1..], depth);
      NodeIs(all, ls, c);
      HangingSplits(nodes, all, depth);
      TreesAtOne(ls, p, c);
      assert ks == [c] + ks[1..];
      TreesAtAppend(ls, p, [c], ks[1..]);
    }
  }

  lemma NothingHangs(all: seq<Node>, ls: seq<Line>, p: int, depth: nat)
    requires -1 <= p < |ls|
    ensures Hanging([], all, depth) == TreesAt(ls, p, [])
  {
  }

  lemma HangingSplits(nodes: seq<Node>, all: seq<Node>, depth: nat)
    requires nodes != [] && depth > 0 && nodes[0] in all && nodes[0].indent >= 0
    ensures Hanging(nodes, all, depth) ==
            [Tree(Line(nodes[0].text, nodes[0].indent), Hanging(nodes[0].children, all, depth - 1))] +
              Hanging(nodes[1..], all, depth)
  {
  }

  lemma NodeIs(all: seq<Node>, ls: seq<Line>, i: nat)
    requires Represents(all, ls, |ls|) && i < |ls|
    ensures i + 1 < |all| && all[i + 1].text == ls[i].text && all[i + 1].indent == ls[i].indent && all[i + 1] in all
  {
  }

  /** The heap tree, followed from its root, is the nesting by indentation. */
  lemma HeapIsForest(all: seq<Node>, ls: seq<Line>)
    requires Represents(all, ls, |ls|) && all != []
    ensures Hanging(all[0].children, all, |ls|) == Forest(ls)
  {
    hide *;
    ChildrenAreKids(all, ls, -1);
    KidsFromStart(ls, -1, |ls|);
    HangingIs(all, ls, -1, KidsWithin(ls, -1, 0, |ls|), all[0].children, |ls|);
    ParsedTreeIsForest(ls);
  }

  // ---- The text of a tree ----

  function Raw(l: Line): string {
    seq(l.indent, i => ' ') + l.text
  }

  function Raws(ls: seq<Line>): seq<string> {
    if ls == [] then [] else [Raw(ls[0])] + Raws(ls[1..])
  }

  /** A text the parser can have taken from a line: stripped, and not one it drops. */
  predicate Written(l: Line) {
    Trimmed(l.text) && !Noise(l.text)
  }

  lemma {:induction false} RawIsRead(l: Line)
    requires Written(l)
    ensures RStrip(Raw(l)) == Raw(l) && !Dropped(Raw(l)) && LineOf(Raw(l)) == l
  {
    var pad := seq(l.indent, i => ' ');
    var raw := Raw(l);
    assert l.text != "" && raw[|raw| - 1] == l.text[|l.text| - 1];
    LStripDrops(pad, l.text);
    assert LStrip(l.text) == l.text;
  }

  lemma {:induction false} RawsAreRead(ls: seq<Line>)
    requires forall k :: 0 <= k < |ls| ==> Written(ls[k])
    ensures Cleaned(Raws(ls)) == Raws(ls) && |Raws(ls)| == |ls|
    ensures forall k :: 0 <= k < |ls| ==> LineOf(Raws(ls)[k]) == ls[k]
  {
    if ls != [] {
      RawIsRead(ls[0]);
      RawsAreRead(ls[1..]);
      hide Written;
      hide Dropped;
      hide LineOf;
      hide RStrip;
      hide Raw;
      assert Raws(ls)[1..] == Raws(ls[1..]);
    }
  }

  lemma {:induction false} CleanedAreWritten(raws: seq<string>, k: nat)
    requires k < |Cleaned(raws)|
    ensures Written(LineOf(Cleaned(raws)[k]))
  {
    if Dropped(raws[0]) || k > 0 {
      CleanedAreWritten(raws[1..], if Dropped(raws[0]) then k else k - 1);
    } else {
      var a, b := StripSplits(RStrip(raws[0]));
    }
  }

  /** Written out as text and parsed again, a tree comes back exactly when it is nested and each of its
      lines has a text that the parser could have taken. */
  lemma TextRoundTripIff(f: seq<Tree>)
    ensures Forest(Lines(Cleaned(Raws(Print(f))))) == f <==>
            Nested(f) && forall k :: 0 <= k < |Print(f)| ==> Written(Print(f)[k])
  {
    hide *;
    var ls := Print(f);
    var back := Lines(Cleaned(Raws(ls)));
    if Nested(f) && forall k :: 0 <= k < |ls| ==> Written(ls[k]) {
      RawsAreRead(ls);
      assert back == ls;
      ForestOfPrint(f);
    }
    if Forest(back) == f {
      ForestIsNested(back);
      PrintOfForest(back);
      forall k | 0 <= k < |back| ensures Written(back[k]) {
        CleanedAreWritten(Raws(ls), k);
      }
    }
  }
}
