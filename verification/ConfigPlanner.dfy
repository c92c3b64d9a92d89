/** The remediation planner of configmodel.py against a device that executes its commands.

    A command sent to the device is plain text, but the planner means one of four things by it;
    the model keeps the meaning as a tag, `Render` gives the text and `ReadAt` what a device makes of
    the text. The device is strict: leaving a mode at top level, negating what is not there and
    setting what is there are all rejected, so a plan that runs to its end is also free of idle
    commands. */
module ConfigPlanner {
  import opened Common
  import opened Text
  import opened ConfigParser

  datatype Command = Enter(text: string) | Exit | Negate(leaf: string) | Set(leaf: string)

  datatype Device = Device(paths: set<Path>, context: Path)

  /** One command; `None` when the device rejects it. */
  function Step(d: Device, c: Command): Option<Device> {
    match c
    case Enter(t) => Some(Device(d.paths + {d.context + [t]}, d.context + [t]))
    case Exit =>
      if d.context == [] then None else Some(d.(context := d.context[..|d.context| - 1]))
    case Negate(t) =>
      var top := d.context + [t];
      if top !in d.paths then None else Some(d.(paths := set p | p in d.paths && !(top <= p)))
    case Set(t) =>
      var leaf := d.context + [t];
      if leaf in d.paths then None else Some(d.(paths := d.paths + {leaf}))
  }

  /** What holds at every point of a run: nothing of `keep` is missing, and the device stands in a
      mode that exists. */
  predicate Sound(d: Device, keep: set<Path>) {
    keep <= d.paths && (d.context == [] || d.context in d.paths)
  }

  /** The device accepts every command, is sound at every point and ends as `goal`. */
  predicate Reaches(d: Device, cs: seq<Command>, keep: set<Path>, goal: Device)
    decreases |cs|
  {
    && Sound(d, keep)
    && if cs == [] then d == goal
       else Step(d, cs[0]).Some? && Reaches(Step(d, cs[0]).value, cs[1..], keep, goal)
  }

  lemma {:induction false} ReachesTrans(d: Device, a: seq<Command>, mid: Device, b: seq<Command>, keep: set<Path>,
                                        goal: Device)
    requires Reaches(d, a, keep, mid) && Reaches(mid, b, keep, goal)
    ensures Reaches(d, a + b, keep, goal)
    decreases |a|
  {
    if a == [] {
      assert a + b == b;
    } else {
      assert (a + b)[1..] == a[1..] + b;
      ReachesTrans(Step(d, a[0]).value, a[1..], mid, b, keep, goal);
    }
  }

  lemma ReachesOne(d: Device, c: Command, keep: set<Path>, goal: Device)
    requires Sound(d, keep) && Step(d, c) == Some(goal) && Sound(goal, keep)
    ensures Reaches(d, [c], keep, goal)
  {
    assert Reaches(goal, [], keep, goal);
    assert [c][1..] == [];
  }

  // ---- Moving between modes ----

  /** The length of the longest common prefix. */
  function CommonLength(a: Path, b: Path): (n: nat)
    ensures n <= |a| && n <= |b| && a[..n] == b[..n]
    ensures n < |a| && n < |b| ==> a[n] != b[n]
  {
    if a == [] || b == [] || a[0] != b[0] then 0
    else
      assert a == [a[0]] + a[1..] && b == [b[0]] + b[1..];
      1 + CommonLength(a[1..], b[1..])
  }

  function Enters(p: Path): seq<Command> {
    seq(|p|, i requires 0 <= i < |p| => Enter(p[i]))
  }

  function Exits(n: nat): seq<Command> {
    seq(n, _ => Exit)
  }

  /** Leave what is not shared, enter what is missing. */
  function Transition(context: Path, target: Path): seq<Command> {
    var n := CommonLength(context, target);
    Exits(|context| - n) + Enters(target[n..])
  }

  method EmitTransition(context: Path, target: Path) returns (cmds: seq<Command>)
    ensures cmds == Transition(context, target)
  {
    var common := 0;
    while common < |context| && common < |target| && context[common] == target[common]
      invariant common <= |context| && common <= |target| && context[..common] == target[..common]
    {
      common := common + 1;
    }
    CommonLengthIs(context, target, common);
    cmds := Exits(|context| - common) + Enters(target[common..]);
  }

  lemma CommonLengthIs(a: Path, b: Path, n: nat)
    requires n <= |a| && n <= |b| && a[..n] == b[..n]
    requires n < |a| && n < |b| ==> a[n] != b[n]
    ensures CommonLength(a, b) == n
  {
    var m := CommonLength(a, b);
    assert forall i :: 0 <= i < n ==> a[..n][i] == a[i] && b[..n][i] == b[i];
    assert forall i :: 0 <= i < m ==> a[..m][i] == a[i] && b[..m][i] == b[i];
  }

  /** The nonempty prefixes of a path: what entering its modes one by one creates. */
  function Prefixes(p: Path): set<Path> {
    set k | 0 < k <= |p| :: p[..k]
  }

  lemma {:induction false} ExitsReach(d: Device, n: nat, keep: set<Path>)
    requires n <= |d.context| && Sound(d, keep) && PrefixClosed(d.paths)
    ensures Reaches(d, Exits(n), keep, d.(context := d.context[..|d.context| - n]))
    decreases n
  {
    if n == 0 {
      assert d.context[..|d.context|] == d.context;
    } else {
      var up := d.(context := d.context[..|d.context| - 1]);
      assert Sound(up, keep);
      ExitsReach(up, n - 1, keep);
      assert Exits(n)[1..] == Exits(n - 1);
      assert up.context[..|up.context| - (n - 1)] == d.context[..|d.context| - n];
    }
  }

  /** Entering the modes of `p` below the current one creates the missing ones and ends in `p`. */
  lemma {:induction false} EntersReach(d: Device, p: Path, keep: set<Path>)
    requires Sound(d, keep) && PrefixClosed(d.paths) && d.context <= p
    ensures Reaches(d, Enters(p[|d.context|..]), keep, Device(d.paths + Prefixes(p), p))
    decreases |p| - |d.context|
  {
    var n := |d.context|;
    if n == |p| {
      assert d.context == p;
      assert Prefixes(p) <= d.paths;
      assert d.paths + Prefixes(p) == d.paths;
    } else {
      var q := p[..n + 1];
      var next := Device(d.paths + {q}, q);
      assert d.context == p[..n] && q == d.context + [p[n]];
      ClosedWith(d.paths, q);
      EntersReach(next, p, keep);
      assert Enters(p[n..])[1..] == Enters(p[n + 1..]);
      assert next.paths + Prefixes(p) == d.paths + Prefixes(p) by {
        assert q in Prefixes(p);
      }
    }
  }

  lemma ClosedWith(ps: set<Path>, p: Path)
    requires PrefixClosed(ps) && p != [] && (|p| > 1 ==> p[..|p| - 1] in ps)
    ensures PrefixClosed(ps + {p})
  {
    forall q, k | q in ps + {p} && 0 < k <= |q| ensures q[..k] in ps + {p} {
      if q == p && k < |p| {
        assert q[..k] == p[..|p| - 1][..k];
      } else {
        assert q[..|q|] == q;
      }
    }
  }

  /** A transition ends in its target and creates nothing but the target's missing modes. */
  lemma TransitionReaches(d: Device, target: Path, keep: set<Path>)
    requires Sound(d, keep) && PrefixClosed(d.paths)
    ensures Reaches(d, Transition(d.context, target), keep, Device(d.paths + Prefixes(target), target))
  {
    var n := CommonLength(d.context, target);
    ExitsReach(d, |d.context| - n, keep);
    var up := d.(context := d.context[..n]);
    assert d.context[..|d.context| - (|d.context| - n)] == d.context[..n];
    assert up.context <= target;
    ReachesIsSound(d, Exits(|d.context| - n), keep, up);
    EntersReach(up, target, keep);
    ReachesTrans(d, Exits(|d.context| - n), up, Enters(target[n..]), keep, Device(d.paths + Prefixes(target), target));
  }

  lemma {:induction false} ReachesIsSound(d: Device, cs: seq<Command>, keep: set<Path>, goal: Device)
    requires Reaches(d, cs, keep, goal)
    ensures Sound(goal, keep)
    decreases |cs|
  {
    if cs != [] {
      ReachesIsSound(Step(d, cs[0]).value, cs[1..], keep, goal);
    }
  }

  // ---- The order of the work ----

  predicate TextAtMost(a: string, b: string) {
    a == "" || (b != "" && (a[0] < b[0] || (a[0] == b[0] && TextAtMost(a[1..], b[1..]))))
  }

  predicate PathAtMost(a: Path, b: Path) {
    a == [] || (b != [] && if a[0] == b[0] then PathAtMost(a[1..], b[1..]) else TextAtMost(a[0], b[0]))
  }

  /** The sort keys of the two work lists: `(len(p), p)` and `(-len(p), p)`. */
  predicate Before(longFirst: bool, a: Path, b: Path) {
    if |a| == |b| then PathAtMost(a, b) else if longFirst then |a| > |b| else |a| < |b|
  }

  lemma {:induction false} TextOrder(a: string, b: string, c: string)
    ensures TextAtMost(a, b) || TextAtMost(b, a)
    ensures TextAtMost(a, b) && TextAtMost(b, a) ==> a == b
    ensures TextAtMost(a, b) && TextAtMost(b, c) ==> TextAtMost(a, c)
  {
    if a != "" && b != "" {
      TextOrder(a[1..], b[1..], if c == "" then "" else c[1..]);
      assert a == [a[0]] + a[1..] && b == [b[0]] + b[1..];
    }
  }

  lemma {:induction false} PathOrder(a: Path, b: Path, c: Path)
    ensures PathAtMost(a, b) || PathAtMost(b, a)
    ensures PathAtMost(a, b) && PathAtMost(b, a) ==> a == b
    ensures PathAtMost(a, b) && PathAtMost(b, c) ==> PathAtMost(a, c)
  {
    if a != [] && b != [] {
      hide TextAtMost;
      PathOrder(a[1..], b[1..], if c == [] then [] else c[1..]);
      TextOrder(a[0], b[0], if c == [] then "" else c[0]);
      if c != [] {
        TextOrder(b[0], c[0], a[0]);
      }
      assert a == [a[0]] + a[1..] && b == [b[0]] + b[1..];
    }
  }

  lemma BeforeOrder(longFirst: bool, a: Path, b: Path, c: Path)
    ensures Before(longFirst, a, b) || Before(longFirst, b, a)
    ensures Before(longFirst, a, b) && Before(longFirst, b, a) ==> a == b
    ensures Before(longFirst, a, b) && Before(longFirst, b, c) ==> Before(longFirst, a, c)
  {
    hide PathAtMost;
    PathOrder(a, b, c);
  }

  predicate SortedBy(longFirst: bool, ps: seq<Path>) {
    forall i, j :: 0 <= i < j < |ps| ==> Before(longFirst, ps[i], ps[j]) && ps[i] != ps[j]
  }

  /** Where two texts differ first, that character decides; a beginning of a text comes before it. */
  lemma {:induction false} TextOrderIs(a: string, b: string, k: nat)
    requires k <= |a| && k <= |b| && a[..k] == b[..k]
    ensures k == |a| ==> TextAtMost(a, b)
    ensures k == |b| < |a| ==> !TextAtMost(a, b)
    ensures k < |a| && k < |b| && a[k] != b[k] ==> (TextAtMost(a, b) <==> a[k] < b[k])
    decreases k
  {
    if k > 0 {
      assert a[0] == a[..k][0] == b[..k][0] == b[0];
      assert a[1..][..k - 1] == a[..k][1..] && b[1..][..k - 1] == b[..k][1..];
      TextOrderIs(a[1..], b[1..], k - 1);
    }
  }

  /** The same for paths, component by component. */
  lemma {:induction false} PathOrderIs(a: Path, b: Path, k: nat)
    requires k <= |a| && k <= |b| && a[..k] == b[..k]
    ensures k == |a| ==> PathAtMost(a, b)
    ensures k == |b| < |a| ==> !PathAtMost(a, b)
    ensures k < |a| && k < |b| && a[k] != b[k] ==> (PathAtMost(a, b) <==> TextAtMost(a[k], b[k]))
    decreases k
  {
    hide TextAtMost;
    if k > 0 {
      assert a[0] == a[..k][0] == b[..k][0] == b[0];
      assert a[1..][..k - 1] == a[..k][1..] && b[1..][..k - 1] == b[..k][1..];
      PathOrderIs(a[1..], b[1..], k - 1);
    }
  }

  /** What the sorted lists look like: additions from short to long, removals from long to short, paths
      of one length in the order of their text. */
  lemma SortedMeans(longFirst: bool, ps: seq<Path>, i: nat, j: nat)
    requires SortedBy(longFirst, ps) && i < j < |ps|
    ensures longFirst ==> |ps[i]| >= |ps[j]|
    ensures !longFirst ==> |ps[i]| <= |ps[j]|
    ensures |ps[i]| == |ps[j]| ==>
              exists k :: 0 <= k < |ps[i]| && ps[i][..k] == ps[j][..k] && ps[i][k] != ps[j][k]
                          && TextAtMost(ps[i][k], ps[j][k])
  {
    hide PathAtMost;
    hide TextAtMost;
    assert Before(longFirst, ps[i], ps[j]) && ps[i] != ps[j];
    if |ps[i]| == |ps[j]| {
      var k := CommonLength(ps[i], ps[j]);
      assert ps[i][..|ps[i]|] == ps[i] && ps[j][..|ps[j]|] == ps[j];
      PathOrderIs(ps[i], ps[j], k);
    }
  }

  /** `ps` lists the paths of `s`, each once. */
  predicate Lists(ps: seq<Path>, s: set<Path>) {
    && (forall i :: 0 <= i < |ps| ==> ps[i] in s)
    && (forall p :: p in s ==> p in ps)
    && (forall i, j :: 0 <= i < j < |ps| ==> ps[i] != ps[j])
  }

  /** `sorted`, by insertion. */
  method Sorted(s: set<Path>, longFirst: bool) returns (ps: seq<Path>)
    ensures Lists(ps, s) && SortedBy(longFirst, ps)
  {
    ps := [];
    var rest := s;
    while rest != {}
      invariant rest <= s && Lists(ps, s - rest) && SortedBy(longFirst, ps)
      decreases rest
    {
      var p :| p in rest;
      ps := Insert(ps, s - rest, p, longFirst);
      rest := rest - {p};
      assert s - rest == s - (rest + {p}) + {p};
    }
    assert s - rest == s;
  }

  method Insert(ps: seq<Path>, ghost s: set<Path>, p: Path, longFirst: bool) returns (r: seq<Path>)
    requires Lists(ps, s) && SortedBy(longFirst, ps) && p !in s
    ensures Lists(r, s + {p}) && SortedBy(longFirst, r)
  {
    hide Before;
    hide Lists;
    var k := |ps|;
    while k > 0 && Before(longFirst, p, ps[k - 1])
      invariant 0 <= k <= |ps| && forall i :: k <= i < |ps| ==> Before(longFirst, p, ps[i])
    {
      k := k - 1;
      forall i | k <= i < |ps| ensures Before(longFirst, p, ps[i]) {
        BeforeOrder(longFirst, p, ps[k], ps[i]);
      }
    }
    forall i | 0 <= i < k ensures Before(longFirst, ps[i], p) {
      BeforeOrder(longFirst, ps[k - 1], p, p);
      BeforeOrder(longFirst, ps[i], ps[k - 1], p);
    }
    r := ps[..k] + [p] + ps[k..];
    InsertedLists(ps, s, p, k);
    InsertedSorted(ps, s, p, k, longFirst);
  }

  lemma InsertedLists(ps: seq<Path>, s: set<Path>, p: Path, k: nat)
    requires Lists(ps, s) && p !in s && k <= |ps|
    ensures Lists(ps[..k] + [p] + ps[k..], s + {p})
  {
    var r := ps[..k] + [p] + ps[k..];
    forall q | q in s + {p} ensures q in r {
      if q != p {
        InsertedKeeps(ps, p, k, q);
      } else {
        assert r[k] == p;
      }
    }
    forall i | 0 <= i < |r| ensures r[i] in s + {p} {
      assert r[i] == if i < k then ps[i] else if i == k then p else ps[i - 1];
    }
    InsertedDistinct(ps, p, k);
  }

  lemma InsertedKeeps(ps: seq<Path>, p: Path, k: nat, q: Path)
    requires k <= |ps| && q in ps
    ensures q in ps[..k] + [p] + ps[k..]
  {
    assert ps == ps[..k] + ps[k..];
  }

  lemma InsertedDistinct(ps: seq<Path>, p: Path, k: nat)
    requires k <= |ps| && p !in ps && forall i, j :: 0 <= i < j < |ps| ==> ps[i] != ps[j]
    ensures var r := ps[..k] + [p] + ps[k..]; forall i, j :: 0 <= i < j < |r| ==> r[i] != r[j]
  {
  }

  lemma InsertedSorted(ps: seq<Path>, s: set<Path>, p: Path, k: nat, longFirst: bool)
    requires Lists(ps, s) && p !in s && k <= |ps| && SortedBy(longFirst, ps)
    requires forall i :: 0 <= i < k ==> Before(longFirst, ps[i], p)
    requires forall i :: k <= i < |ps| ==> Before(longFirst, p, ps[i])
    ensures SortedBy(longFirst, ps[..k] + [p] + ps[k..])
  {
    hide Before;
    var r := ps[..k] + [p] + ps[k..];
    forall i | 0 <= i < |r| ensures r[i] == if i < k then ps[i] else if i == k then p else ps[i - 1] {}
  }

  // ---- What the commands of a plan are about ----

  /** A mode that has to be entered on the way to an addition or, being wanted itself, to a removal. */
  ghost predicate Entered(q: Path, desired: set<Path>, actual: set<Path>) {
    exists p :: EnteredFor(q, p, desired, actual)
  }

  predicate EnteredFor(q: Path, p: Path, desired: set<Path>, actual: set<Path>) {
    |q| < |p| && q <= p && (p in desired - actual || (p in actual - desired && q in desired))
  }

  /** A command about the path of its line. */
  ghost predicate Means(context: Path, c: Command, desired: set<Path>, actual: set<Path>) {
    match c
    case Enter(t) => Entered(context + [t], desired, actual)
    case Exit => true
    case Negate(t) => context + [t] in actual
    case Set(t) =>
      var q := context + [t]; q in desired - actual && NothingBelow(q, desired) && NothingBelow(q, actual)
  }

  predicate NothingBelow(q: Path, ps: set<Path>) {
    forall p :: p in ps && q <= p ==> |p| <= |q|
  }

  function Moved(context: Path, c: Command): Path {
    match c
    case Enter(t) => context + [t]
    case Exit => if context == [] then [] else context[..|context| - 1]
    case _ => context
  }

  function MovedAll(context: Path, cs: seq<Command>): Path
    decreases |cs|
  {
    if cs == [] then context else MovedAll(Moved(context, cs[0]), cs[1..])
  }

  ghost predicate MeansAll(context: Path, cs: seq<Command>, desired: set<Path>, actual: set<Path>)
    decreases |cs|
  {
    cs == [] || (Means(context, cs[0], desired, actual) && MeansAll(Moved(context, cs[0]), cs[1..], desired, actual))
  }

  lemma {:induction false} MeansJoin(context: Path, a: seq<Command>, b: seq<Command>, desired: set<Path>,
                                     actual: set<Path>)
    requires MeansAll(context, a, desired, actual) && MeansAll(MovedAll(context, a), b, desired, actual)
    ensures MeansAll(context, a + b, desired, actual) && MovedAll(context, a + b) == MovedAll(MovedAll(context, a), b)
    decreases |a|
  {
    hide Means;
    if a == [] {
      assert a + b == b;
    } else {
      assert (a + b)[1..] == a[1..] + b;
      MeansJoin(Moved(context, a[0]), a[1..], b, desired, actual);
    }
  }

  lemma MeansOne(context: Path, c: Command, desired: set<Path>, actual: set<Path>)
    requires Means(context, c, desired, actual)
    ensures MeansAll(context, [c], desired, actual) && MovedAll(context, [c]) == Moved(context, c)
  {
    hide Means;
    assert [c][1..] == [];
    assert MeansAll(Moved(context, c), [], desired, actual);
  }

  lemma {:induction false} ExitsMean(context: Path, n: nat, desired: set<Path>, actual: set<Path>)
    requires n <= |context|
    ensures MeansAll(context, Exits(n), desired, actual) && MovedAll(context, Exits(n)) == context[..|context| - n]
    decreases n
  {
    if n == 0 {
      assert context[..|context|] == context;
    } else {
      var up := context[..|context| - 1];
      assert Exits(n)[1..] == Exits(n - 1);
      ExitsMean(up, n - 1, desired, actual);
      assert up[..|up| - (n - 1)] == context[..|context| - n];
    }
  }

  lemma {:induction false} EntersMean(context: Path, target: Path, desired: set<Path>, actual: set<Path>)
    requires context <= target && forall k :: 0 < k <= |target| ==> Entered(target[..k], desired, actual)
    ensures MeansAll(context, Enters(target[|context|..]), desired, actual)
    ensures MovedAll(context, Enters(target[|context|..])) == target
    decreases |target| - |context|
  {
    hide Entered;
    var n := |context|;
    if n == |target| {
      assert context == target && Enters(target[n..]) == [];
    } else {
      var q := target[..n + 1];
      assert context == target[..n] && q == context + [target[n]];
      EntersMean(q, target, desired, actual);
      assert Enters(target[n..])[1..] == Enters(target[n + 1..]);
    }
  }

  /** Moving to the mode of a piece of work enters only modes on its way. */
  lemma TransitionMeans(context: Path, p: Path, desired: set<Path>, actual: set<Path>)
    requires PrefixClosed(desired) && p != []
    requires p in desired - actual || (p in actual - desired && (|p| > 1 ==> p[..|p| - 1] in desired))
    ensures var up := p[..|p| - 1];
            MeansAll(context, Transition(context, up), desired, actual)
            && MovedAll(context, Transition(context, up)) == up
  {
    var up := p[..|p| - 1];
    forall k | 0 < k <= |up| ensures Entered(up[..k], desired, actual) {
      assert p in actual - desired ==> up[..k] in desired;
      assert EnteredFor(up[..k], p, desired, actual);
    }
    hide Entered;
    var n := CommonLength(context, up);
    hide CommonLength;
    ExitsMean(context, |context| - n, desired, actual);
    assert context[..|context| - (|context| - n)] == up[..n];
    EntersMean(up[..n], up, desired, actual);
    MeansJoin(context, Exits(|context| - n), Enters(up[n..]), desired, actual);
    assert Transition(context, up) == Exits(|context| - n) + Enters(up[n..]) by {
      assert CommonLength(context, up) == n;
    }
  }

  // ---- Removals ----

  /** An ancestor of `p` is on the list as well. */
  predicate HasAncestor(ps: seq<Path>, p: Path) {
    exists i :: 0 <= i < |ps| && |ps[i]| < |p| && ps[i] <= p
  }

  /** Something below `p` is on the list as well. */
  predicate HasLonger(ps: seq<Path>, p: Path) {
    exists i :: 0 <= i < |ps| && |ps[i]| > |p| && p <= ps[i]
  }

  function ParentOf(p: Path): Path
    requires p != []
  {
    p[..|p| - 1]
  }

  function LeafOf(p: Path): string
    requires p != []
  {
    p[|p| - 1]
  }

  /** What is left of `paths` when the subtrees at `tops` are gone. */
  function Without(paths: set<Path>, tops: set<Path>): set<Path> {
    set p | p in paths && forall t :: t in tops ==> !(t <= p)
  }

  lemma AllPrefixes(ps: set<Path>)
    requires PrefixClosed(ps)
    ensures forall p, t {:trigger p in ps, t in ps} :: p in ps && t <= p && t != [] ==> t in ps
  {
    forall p, t | p in ps && t <= p && t != [] ensures t in ps {
      assert t == p[..|t|];
    }
  }

  lemma WithoutIsClosed(paths: set<Path>, tops: set<Path>)
    requires PrefixClosed(paths)
    ensures PrefixClosed(Without(paths, tops))
  {
    forall p, k | p in Without(paths, tops) && 0 < k <= |p| ensures p[..k] in Without(paths, tops) {
      assert forall t :: t in tops && t <= p[..k] ==> t <= p;
    }
  }

  lemma PrefixesInside(ps: set<Path>, p: Path)
    requires PrefixClosed(ps) && (p == [] || p in ps)
    ensures Prefixes(p) <= ps
  {
  }

  /** The parent of a topmost removal is the top level or a mode that both configurations have. */
  lemma TopParent(desired: set<Path>, actual: set<Path>, remove: seq<Path>, p: Path)
    requires PrefixClosed(desired) && PrefixClosed(actual) && Lists(remove, actual - desired)
    requires p in actual - desired && !HasAncestor(remove, p)
    ensures p != [] && (ParentOf(p) == [] || ParentOf(p) in actual * desired)
  {
    if |p| > 1 {
      var up := ParentOf(p);
      assert up in actual;
      assert up in remove ==> HasAncestor(remove, p);
    }
  }

  /** Negating a subtree that is still there leaves exactly the other paths. */
  lemma NegateReaches(actual: set<Path>, tops: set<Path>, p: Path, keep: set<Path>)
    requires p != [] && p in Without(actual, tops) && keep <= Without(actual, tops)
    requires forall q :: q in keep ==> !(p <= q)
    requires ParentOf(p) == [] || ParentOf(p) in keep
    ensures Reaches(Device(Without(actual, tops), ParentOf(p)), [Negate(LeafOf(p))], keep,
                    Device(Without(actual, tops + {p}), ParentOf(p)))
  {
    var d := Device(Without(actual, tops), ParentOf(p));
    assert ParentOf(p) + [LeafOf(p)] == p;
    assert Without(actual, tops + {p}) == set q | q in Without(actual, tops) && !(p <= q);
    ReachesOne(d, Negate(LeafOf(p)), keep, Device(Without(actual, tops + {p}), ParentOf(p)));
  }

  /** Before a topmost removal: everything shared is still there, so is the removal, and removing
      it touches nothing shared. */
  lemma RemovalIsDue(desired: set<Path>, actual: set<Path>, remove: seq<Path>, tops: set<Path>, p: Path)
    requires PrefixClosed(desired) && PrefixClosed(actual) && Lists(remove, actual - desired)
    requires p in remove && !HasAncestor(remove, p)
    requires p !in tops && forall t :: t in tops ==> t in remove
    ensures p in Without(actual, tops) && actual * desired <= Without(actual, tops)
    ensures forall q :: q in actual * desired ==> !(p <= q)
  {
    AllPrefixes(desired);
    assert forall t :: t in tops && t <= p && |t| >= |p| ==> t == p;
    assert forall t :: t in tops ==> t in actual - desired;
  }

  lemma RemovalReaches(desired: set<Path>, actual: set<Path>, remove: seq<Path>, tops: set<Path>, context: Path,
                       p: Path)
    requires PrefixClosed(desired) && PrefixClosed(actual) && Lists(remove, actual - desired)
    requires p in remove && !HasAncestor(remove, p)
    requires p !in tops && forall t :: t in tops ==> t in remove
    requires context == [] || context in actual * desired
    ensures p != [] && (ParentOf(p) == [] || ParentOf(p) in actual * desired)
    ensures Reaches(Device(Without(actual, tops), context), Transition(context, ParentOf(p)) + [Negate(LeafOf(p))],
                    actual * desired, Device(Without(actual, tops + {p}), ParentOf(p)))
  {
    var keep, cur := actual * desired, Without(actual, tops);
    TopParent(desired, actual, remove, p);
    RemovalIsDue(desired, actual, remove, tops, p);
    WithoutIsClosed(actual, tops);
    hide *;
    assert Sound(Device(cur, context), keep) by { SoundIf(cur, context, keep); }
    TransitionReaches(Device(cur, context), ParentOf(p), keep);
    PrefixesInside(cur, ParentOf(p));
    assert cur + Prefixes(ParentOf(p)) == cur;
    NegateReaches(actual, tops, p, keep);
    ReachesTrans(Device(cur, context), Transition(context, ParentOf(p)), Device(cur, ParentOf(p)),
                 [Negate(LeafOf(p))], keep, Device(Without(actual, tops + {p}), ParentOf(p)));
  }

  lemma SoundIf(paths: set<Path>, context: Path, keep: set<Path>)
    requires keep <= paths && (context == [] || context in paths)
    ensures Sound(Device(paths, context), keep)
  {
  }

  /** Some topmost removal lies at or above every path to remove. */
  lemma {:induction false} TopAbove(remove: seq<Path>, p: Path) returns (t: Path)
    requires p in remove
    ensures t in remove && t <= p && !HasAncestor(remove, t)
    decreases |p|
  {
    if HasAncestor(remove, p) {
      var i :| 0 <= i < |remove| && |remove[i]| < |p| && remove[i] <= p;
      t := TopAbove(remove, remove[i]);
    } else {
      t := p;
    }
  }

  lemma AllTopsGone(desired: set<Path>, actual: set<Path>, remove: seq<Path>, tops: set<Path>)
    requires PrefixClosed(desired) && PrefixClosed(actual) && Lists(remove, actual - desired)
    requires forall t :: t in tops <==> t in remove && !HasAncestor(remove, t)
    ensures Without(actual, tops) == actual * desired
  {
    AllPrefixes(desired);
    forall p | p in actual && p !in desired ensures p !in Without(actual, tops) {
      var t := TopAbove(remove, p);
    }
  }

  method PlanRemovals(desired: set<Path>, actual: set<Path>, remove: seq<Path>)
    returns (cmds: seq<Command>, context: Path)
    requires PrefixClosed(desired) && PrefixClosed(actual) && Lists(remove, actual - desired)
    ensures Reaches(Device(actual, []), cmds, actual * desired, Device(actual * desired, context))
    ensures MeansAll([], cmds, desired, actual) && MovedAll([], cmds) == context
  {
    hide *;
    cmds, context := [], [];
    ghost var tops := {};
    RemovalsStart(actual, desired);
    MeansNothing([], desired, actual);
    for k := 0 to |remove|
      invariant context == [] || context in actual * desired
      invariant forall t :: t in tops <==> t in remove[..k] && !HasAncestor(remove, t)
      invariant Reaches(Device(actual, []), cmds, actual * desired, Device(Without(actual, tops), context))
      invariant MeansAll([], cmds, desired, actual) && MovedAll([], cmds) == context
    {
      var path := remove[k];
      NotYet(remove, actual - desired, k);
      if HasAncestor(remove, path) {
        continue;
      }
      RemovalReaches(desired, actual, remove, tops, context, path);
      var parent, leaf := ParentOf(path), LeafOf(path);
      var move := EmitTransition(context, parent);
      ReachesTrans(Device(actual, []), cmds, Device(Without(actual, tops), context), move + [Negate(leaf)],
                   actual * desired, Device(Without(actual, tops + {path}), parent));
      RemovalMeans(context, path, desired, actual, remove);
      MeansJoin([], cmds, move + [Negate(leaf)], desired, actual);
      assert cmds + move + [Negate(leaf)] == cmds + (move + [Negate(leaf)]);
      cmds := cmds + move;
      context := parent;
      cmds := cmds + [Negate(leaf)];
      tops := tops + {path};
    }
    assert remove[..|remove|] == remove;
    AllTopsGone(desired, actual, remove, tops);
  }

  lemma MeansNothing(context: Path, desired: set<Path>, actual: set<Path>)
    ensures MeansAll(context, [], desired, actual) && MovedAll(context, []) == context
  {
  }

  lemma RemovalMeans(context: Path, p: Path, desired: set<Path>, actual: set<Path>, remove: seq<Path>)
    requires PrefixClosed(desired) && PrefixClosed(actual) && Lists(remove, actual - desired)
    requires p in remove && !HasAncestor(remove, p) && p != []
    ensures var cs := Transition(context, ParentOf(p)) + [Negate(LeafOf(p))];
            MeansAll(context, cs, desired, actual) && MovedAll(context, cs) == ParentOf(p)
  {
    TopParent(desired, actual, remove, p);
    assert p in actual - desired;
    assert ParentOf(p) + [LeafOf(p)] == p;
    TransitionMeans(context, p, desired, actual);
    hide Transition;
    MeansOne(ParentOf(p), Negate(LeafOf(p)), desired, actual);
    MeansJoin(context, Transition(context, ParentOf(p)), [Negate(LeafOf(p))], desired, actual);
  }

  lemma RemovalsStart(actual: set<Path>, desired: set<Path>)
    ensures Without(actual, {}) == actual
    ensures Reaches(Device(actual, []), [], actual * desired, Device(actual, []))
  {
  }

  lemma NotYet(ps: seq<Path>, s: set<Path>, k: nat)
    requires Lists(ps, s) && k < |ps|
    ensures ps[k] in ps && ps[k] !in ps[..k] && ps[..k + 1] == ps[..k] + [ps[k]]
  {
  }

  // ---- Additions ----

  /** `have` with the paths of `done` and all their modes. */
  function With(have: set<Path>, done: set<Path>): set<Path> {
    have + set e, n | e in done && 0 < n <= |e| :: e[..n]
  }

  lemma WithIsClosed(have: set<Path>, done: set<Path>)
    requires PrefixClosed(have)
    ensures PrefixClosed(With(have, done))
  {
    forall p, k | p in With(have, done) && 0 < k <= |p| ensures p[..k] in With(have, done) {
      if p !in have {
        var e, n :| e in done && 0 < n <= |e| && p == e[..n];
        assert p[..k] == e[..k];
      }
    }
  }

  lemma WithOneMore(have: set<Path>, done: set<Path>, p: Path)
    ensures With(have, done + {p}) == With(have, done) + Prefixes(p)
  {
  }

  lemma PrefixesStep(p: Path)
    requires p != []
    ensures Prefixes(p) == Prefixes(ParentOf(p)) + {p} && p !in Prefixes(ParentOf(p))
  {
    var up := ParentOf(p);
    assert p[..|p|] == p;
    assert forall k :: 0 < k <= |up| ==> up[..k] == p[..k];
  }

  /** An addition with nothing longer above it is new to the device. */
  lemma AdditionIsDue(desired: set<Path>, have: set<Path>, add: seq<Path>, done: set<Path>, p: Path)
    requires Lists(add, desired - have) && p in add && !HasLonger(add, p)
    requires p !in done && forall e :: e in done ==> e in add
    ensures p !in With(have, done)
  {
    forall e, n | e in done && 0 < n <= |e| ensures e[..n] != p {
      assert e[..|e|] == e && e[..n] <= e;
    }
  }

  lemma AdditionReaches(desired: set<Path>, have: set<Path>, add: seq<Path>, done: set<Path>, context: Path, p: Path)
    requires PrefixClosed(desired) && PrefixClosed(have) && Lists(add, desired - have)
    requires p in add && !HasLonger(add, p)
    requires p !in done && forall e :: e in done ==> e in add
    requires context == [] || context in With(have, done)
    ensures p != [] && (ParentOf(p) == [] || ParentOf(p) in With(have, done + {p}))
    ensures Reaches(Device(With(have, done), context), Transition(context, ParentOf(p)) + [Set(LeafOf(p))],
                    have, Device(With(have, done + {p}), ParentOf(p)))
  {
    AdditionIsDue(desired, have, add, done, p);
    assert p in desired;
    assert p != [];
    assert have <= With(have, done);
    WithIsClosed(have, done);
    hide *;
    var cur, up := With(have, done), ParentOf(p);
    SoundIf(cur, context, have);
    TransitionReaches(Device(cur, context), up, have);
    SetReaches(cur, p, have);
    WithOneMore(have, done, p);
    ReachesTrans(Device(cur, context), Transition(context, up), Device(cur + Prefixes(up), up),
                 [Set(LeafOf(p))], have, Device(cur + Prefixes(p), up));
  }

  lemma SetReaches(cur: set<Path>, p: Path, keep: set<Path>)
    requires p != [] && p !in cur && keep <= cur
    ensures Reaches(Device(cur + Prefixes(ParentOf(p)), ParentOf(p)), [Set(LeafOf(p))], keep,
                    Device(cur + Prefixes(p), ParentOf(p)))
    ensures ParentOf(p) == [] || ParentOf(p) in cur + Prefixes(p)
  {
    var up := ParentOf(p);
    PrefixesStep(p);
    assert up + [LeafOf(p)] == p;
    assert up != [] ==> up == up[..|up|];
    assert cur + Prefixes(p) == cur + Prefixes(up) + {p};
    ReachesOne(Device(cur + Prefixes(up), up), Set(LeafOf(p)), keep, Device(cur + Prefixes(p), up));
  }

  /** Above every path to add lies one with nothing longer above it. */
  lemma {:induction false} LeafAbove(add: seq<Path>, s: set<Path>, p: Path) returns (e: Path)
    requires Lists(add, s) && p in add
    ensures e in add && p <= e && !HasLonger(add, e)
    decreases set q | q in s && |q| > |p|
  {
    if HasLonger(add, p) {
      var i :| 0 <= i < |add| && |add[i]| > |p| && p <= add[i];
      var longer, longest := set q | q in s && |q| > |p|, set q | q in s && |q| > |add[i]|;
      assert add[i] in longer && add[i] !in longest && longest <= longer;
      e := LeafAbove(add, s, add[i]);
    } else {
      e := p;
    }
  }

  lemma AllLeavesDone(desired: set<Path>, have: set<Path>, add: seq<Path>, done: set<Path>)
    requires PrefixClosed(desired) && PrefixClosed(have) && have <= desired && Lists(add, desired - have)
    requires forall e :: e in done <==> e in add && !HasLonger(add, e)
    ensures With(have, done) == desired
  {
    forall p | p in desired && p !in have ensures p in With(have, done) {
      var e := LeafAbove(add, desired - have, p);
      assert p != [] && p == e[..|p|];
    }
  }

  method PlanAdditions(desired: set<Path>, ghost actual: set<Path>, ghost have: set<Path>, add: seq<Path>, from: Path)
    returns (cmds: seq<Command>, context: Path)
    requires PrefixClosed(desired) && PrefixClosed(actual) && PrefixClosed(have) && have == actual * desired
    requires Lists(add, desired - have) && (from == [] || from in have)
    ensures Reaches(Device(have, from), cmds, have, Device(desired, context))
    ensures context == [] || context in desired
    ensures MeansAll(from, cmds, desired, actual) && MovedAll(from, cmds) == context
  {
    hide *;
    cmds, context := [], from;
    ghost var done := {};
    AdditionsStart(have, from);
    MeansNothing(from, desired, actual);
    for k := 0 to |add|
      invariant context == [] || context in With(have, done)
      invariant forall e :: e in done <==> e in add[..k] && !HasLonger(add, e)
      invariant Reaches(Device(have, from), cmds, have, Device(With(have, done), context))
      invariant MeansAll(from, cmds, desired, actual) && MovedAll(from, cmds) == context
    {
      var path := add[k];
      NotYet(add, desired - have, k);
      if HasLonger(add, path) {
        continue;
      }
      AdditionReaches(desired, have, add, done, context, path);
      var parent, leaf := ParentOf(path), LeafOf(path);
      var move := EmitTransition(context, parent);
      ReachesTrans(Device(have, from), cmds, Device(With(have, done), context), move + [Set(leaf)],
                   have, Device(With(have, done + {path}), parent));
      AdditionMeans(context, path, desired, actual, add);
      MeansJoin(from, cmds, move + [Set(leaf)], desired, actual);
      assert cmds + move + [Set(leaf)] == cmds + (move + [Set(leaf)]);
      cmds := cmds + move;
      context := parent;
      cmds := cmds + [Set(leaf)];
      done := done + {path};
    }
    assert add[..|add|] == add;
    AllLeavesDone(desired, have, add, done);
  }

  lemma AdditionMeans(context: Path, p: Path, desired: set<Path>, actual: set<Path>, add: seq<Path>)
    requires PrefixClosed(desired) && PrefixClosed(actual) && Lists(add, desired - actual * desired)
    requires p in add && !HasLonger(add, p) && p != []
    ensures var cs := Transition(context, ParentOf(p)) + [Set(LeafOf(p))];
            MeansAll(context, cs, desired, actual) && MovedAll(context, cs) == ParentOf(p)
  {
    assert p in desired - actual;
    assert ParentOf(p) + [LeafOf(p)] == p;
    LongestIsBare(desired, actual, add, p);
    TransitionMeans(context, p, desired, actual);
    hide Transition;
    hide NothingBelow;
    MeansOne(ParentOf(p), Set(LeafOf(p)), desired, actual);
    MeansJoin(context, Transition(context, ParentOf(p)), [Set(LeafOf(p))], desired, actual);
  }

  /** Below an addition that is sent there is nothing in either configuration. */
  lemma LongestIsBare(desired: set<Path>, actual: set<Path>, add: seq<Path>, p: Path)
    requires PrefixClosed(desired) && PrefixClosed(actual) && Lists(add, desired - actual * desired)
    requires p in add && !HasLonger(add, p) && p != []
    ensures NothingBelow(p, desired) && NothingBelow(p, actual)
  {
    AllPrefixes(actual);
    assert p in desired && p !in actual;
    forall q | q in desired && p <= q ensures |q| <= |p| {
      assert q !in actual;
      assert q in add;
    }
  }

  lemma AdditionsStart(have: set<Path>, from: Path)
    requires from == [] || from in have
    ensures With(have, {}) == have
    ensures Reaches(Device(have, from), [], have, Device(have, from))
  {
  }

  // ---- The plan ----

  /** The text sent for a command. */
  function Render(c: Command, negation: string, exitCommand: string): string {
    match c
    case Enter(t) => t
    case Exit => exitCommand
    case Negate(t) => Strip(negation + " " + t)
    case Set(t) => t
  }

  /** The words that are not configuration lines. */
  datatype Dialect = Dialect(negation: string, exitCommand: string)

  /** Both are words of their own. */
  predicate Workable(l: Dialect) {
    l.negation != "" && Trimmed(l.negation) && !(l.negation + " " <= l.exitCommand)
  }

  /** What a device makes of a line: leaving the mode, removing, entering a mode it knows, or setting. */
  function ReadAt(context: Path, line: string, modes: set<Path>, l: Dialect): Command {
    if line == l.exitCommand then Exit
    else if l.negation + " " <= line then Negate(line[|l.negation| + 1..])
    else if context + [line] in modes then Enter(line)
    else Set(line)
  }

  /** A configuration line that looks like none of the planner's own commands. */
  predicate Plain(text: string, l: Dialect) {
    text != l.exitCommand && !(l.negation + " " <= text)
  }

  predicate AllPlain(p: Path, l: Dialect) {
    forall k :: 0 <= k < |p| ==> Plain(p[k], l)
  }

  /** A command finds its mode among the modes of the device exactly when it enters it. */
  predicate KnowsModes(context: Path, c: Command, modes: set<Path>) {
    match c
    case Enter(t) => context + [t] in modes
    case Set(t) => context + [t] !in modes
    case Negate(t) => t != "" && Trimmed(t)
    case Exit => true
  }

  /** As text a command is read as it was meant exactly when its line looks like no other command. */
  lemma ReadAsMeantIffPlain(context: Path, c: Command, modes: set<Path>, l: Dialect)
    requires Workable(l) && KnowsModes(context, c, modes)
    ensures ReadAt(context, Render(c, l.negation, l.exitCommand), modes, l) == c <==>
            match c { case Enter(t) => Plain(t, l) case Set(t) => Plain(t, l) case _ => true }
  {
    if c.Negate? {
      var line := l.negation + " " + c.leaf;
      assert line[0] == l.negation[0] && line[|line| - 1] == c.leaf[|c.leaf| - 1];
      assert Strip(line) == line;
      assert line[|l.negation| + 1..] == c.leaf;
      assert l.negation + " " <= line;
    }
  }

  // ---- The device that is sent text ----

  function TextStep(d: Device, line: string, modes: set<Path>, l: Dialect): Option<Device> {
    Step(d, ReadAt(d.context, line, modes, l))
  }

  /** The device after all lines; `None` when it rejects one. */
  function TextRun(d: Device, lines: seq<string>, modes: set<Path>, l: Dialect): Option<Device>
    decreases |lines|
  {
    if lines == [] then Some(d)
    else if TextStep(d, lines[0], modes, l).None? then None
    else TextRun(TextStep(d, lines[0], modes, l).value, lines[1..], modes, l)
  }

  /** The device accepts every line, is sound at every point and ends as `goal`. */
  predicate TextReaches(d: Device, lines: seq<string>, modes: set<Path>, l: Dialect, keep: set<Path>, goal: Device)
    decreases |lines|
  {
    && Sound(d, keep)
    && if lines == [] then d == goal
       else TextStep(d, lines[0], modes, l).Some?
            && TextReaches(TextStep(d, lines[0], modes, l).value, lines[1..], modes, l, keep, goal)
  }

  lemma {:induction false} ReachedIsRun(d: Device, lines: seq<string>, modes: set<Path>, l: Dialect, keep: set<Path>,
                                        goal: Device)
    requires TextReaches(d, lines, modes, l, keep, goal)
    ensures TextRun(d, lines, modes, l) == Some(goal)
    decreases |lines|
  {
    hide TextStep;
    if lines != [] {
      ReachedIsRun(TextStep(d, lines[0], modes, l).value, lines[1..], modes, l, keep, goal);
    }
  }

  /** The lines that have something below them, in either configuration. */
  function Modes(desired: set<Path>, actual: set<Path>): set<Path> {
    set p, k | p in desired + actual && 0 < k < |p| :: p[..k]
  }

  /** The way from one configuration to the other can be put into words: nothing to add has a component
      that reads as another command, nor has any wanted mode with something to remove in it. */
  predicate Speakable(desired: set<Path>, actual: set<Path>, l: Dialect) {
    && (forall p :: p in desired - actual ==> AllPlain(p, l))
    && (forall p, k :: p in actual - desired && 0 < k < |p| && p[..k] in desired ==> AllPlain(p[..k], l))
  }

  /** Every component is the stripped text of a line. */
  predicate Tidy(ps: set<Path>) {
    forall p, k :: p in ps && 0 <= k < |p| ==> p[k] != "" && Trimmed(p[k])
  }

  lemma EnteredIsMode(q: Path, desired: set<Path>, actual: set<Path>, l: Dialect)
    requires q != [] && Entered(q, desired, actual) && Speakable(desired, actual, l)
    ensures q in Modes(desired, actual) && AllPlain(q, l)
  {
    var p :| EnteredFor(q, p, desired, actual);
    assert q == p[..|q|];
    assert p in desired + actual;
    if p in desired - actual {
      assert AllPlain(p, l);
      forall k | 0 <= k < |q| ensures Plain(q[k], l) {
        assert q[k] == p[k];
      }
    }
  }

  lemma BareIsNoMode(q: Path, desired: set<Path>, actual: set<Path>)
    requires NothingBelow(q, desired) && NothingBelow(q, actual)
    ensures q !in Modes(desired, actual)
  {
    forall p, k | p in desired + actual && 0 < k < |p| ensures p[..k] != q {
      assert p in desired || p in actual;
    }
  }

  /** What a plan sends is read as it was meant. */
  lemma MeansIsRead(context: Path, c: Command, desired: set<Path>, actual: set<Path>, l: Dialect)
    requires Means(context, c, desired, actual) && Speakable(desired, actual, l) && Tidy(actual) && Workable(l)
    ensures ReadAt(context, Render(c, l.negation, l.exitCommand), Modes(desired, actual), l) == c
  {
    hide Speakable;
    hide Entered;
    hide Modes;
    hide NothingBelow;
    hide ReadAt;
    hide Render;
    match c
    case Enter(t) =>
      var q := context + [t];
      EnteredIsMode(q, desired, actual, l);
      assert q[|context|] == t;
      ReadAsMeantIffPlain(context, c, Modes(desired, actual), l);
    case Set(t) =>
      var q := context + [t];
      BareIsNoMode(q, desired, actual);
      AddedIsPlain(q, desired, actual, l);
      assert q[|context|] == t;
      ReadAsMeantIffPlain(context, c, Modes(desired, actual), l);
    case Negate(t) =>
      var q := context + [t];
      assert q in actual && q[|context|] == t;
      ReadAsMeantIffPlain(context, c, Modes(desired, actual), l);
    case Exit =>
      ReadAsMeantIffPlain(context, c, Modes(desired, actual), l);
  }

  lemma AddedIsPlain(q: Path, desired: set<Path>, actual: set<Path>, l: Dialect)
    requires q in desired - actual && Speakable(desired, actual, l)
    ensures AllPlain(q, l)
  {
    hide AllPlain;
  }

  function Rendered(cs: seq<Command>, l: Dialect): (r: seq<string>)
    ensures |r| == |cs|
  {
    seq(|cs|, i requires 0 <= i < |cs| => Render(cs[i], l.negation, l.exitCommand))
  }

  lemma {:induction false} SpokenReaches(d: Device, cs: seq<Command>, desired: set<Path>, actual: set<Path>, l: Dialect,
                                         keep: set<Path>, goal: Device)
    requires Reaches(d, cs, keep, goal) && MeansAll(d.context, cs, desired, actual)
    requires Speakable(desired, actual, l) && Tidy(actual) && Workable(l)
    ensures TextReaches(d, Rendered(cs, l), Modes(desired, actual), l, keep, goal)
    decreases |cs|
  {
    hide Means;
    hide Speakable;
    hide Tidy;
    hide Modes;
    hide ReadAt;
    hide Render;
    hide Sound;
    if cs != [] {
      MeansIsRead(d.context, cs[0], desired, actual, l);
      StepMoves(d, cs[0]);
      hide Step;
      SpokenReaches(Step(d, cs[0]).value, cs[1..], desired, actual, l, keep, goal);
      assert Rendered(cs, l)[1..] == Rendered(cs[1..], l);
    }
  }

  lemma StepMoves(d: Device, c: Command)
    requires Step(d, c).Some?
    ensures Step(d, c).value.context == Moved(d.context, c)
  {
  }

  // ---- What no text can do ----

  /** Only plain lines are entered or set, so a path that is not plain never appears. */
  ghost predicate OnlyPlainIsNew(d: Device, start: set<Path>, l: Dialect) {
    AllPlain(d.context, l) && forall p :: p in d.paths ==> p in start || AllPlain(p, l)
  }

  lemma TextKeepsPlain(d: Device, line: string, modes: set<Path>, l: Dialect, start: set<Path>)
    requires OnlyPlainIsNew(d, start, l) && TextStep(d, line, modes, l).Some?
    ensures OnlyPlainIsNew(TextStep(d, line, modes, l).value, start, l)
  {
    match ReadAt(d.context, line, modes, l)
    case Exit => PlainFront(d.context, l);
    case Negate(_) =>
    case _ => PlainSnoc(d.context, line, l);
  }

  lemma PlainSnoc(p: Path, t: string, l: Dialect)
    requires AllPlain(p, l) && Plain(t, l)
    ensures AllPlain(p + [t], l)
  {
    hide Plain;
  }

  lemma PlainFront(p: Path, l: Dialect)
    requires p != [] && AllPlain(p, l)
    ensures AllPlain(p[..|p| - 1], l)
  {
    hide Plain;
  }

  /** While the mode `q`, which is not plain, is there, everything in it stays: it can neither be entered
      nor brought back. */
  lemma TextKeepsBelow(d: Device, line: string, modes: set<Path>, l: Dialect, start: set<Path>, q: Path, p: Path)
    requires OnlyPlainIsNew(d, start, l) && TextStep(d, line, modes, l).Some?
    requires q != [] && q <= p && !AllPlain(q, l) && (q in d.paths ==> p in d.paths)
    ensures var next := TextStep(d, line, modes, l).value; q in next.paths ==> p in next.paths
  {
    var c, next := ReadAt(d.context, line, modes, l), TextStep(d, line, modes, l).value;
    if c.Negate? {
      var top := d.context + [c.leaf];
      if top <= p && |top| > |q| {
        ContextHolds(d.context, c.leaf, q, p, l);
      }
    } else if !c.Exit? {
      PlainSnoc(d.context, line, l);
    }
  }

  lemma ContextHolds(context: Path, leaf: string, q: Path, p: Path, l: Dialect)
    requires AllPlain(context, l) && context + [leaf] <= p && q <= p && |q| <= |context|
    ensures AllPlain(q, l)
  {
    forall k | 0 <= k < |q| ensures Plain(q[k], l) {
      assert q[k] == p[k] == (context + [leaf])[k] == context[k];
    }
  }

  lemma {:induction false} RunKeepsPlain(d: Device, lines: seq<string>, modes: set<Path>, l: Dialect, start: set<Path>)
    requires OnlyPlainIsNew(d, start, l) && TextRun(d, lines, modes, l).Some?
    ensures OnlyPlainIsNew(TextRun(d, lines, modes, l).value, start, l)
    decreases |lines|
  {
    hide TextStep;
    hide OnlyPlainIsNew;
    if lines != [] {
      TextKeepsPlain(d, lines[0], modes, l, start);
      RunKeepsPlain(TextStep(d, lines[0], modes, l).value, lines[1..], modes, l, start);
    }
  }

  lemma {:induction false} RunKeepsBelow(d: Device, lines: seq<string>, modes: set<Path>, l: Dialect, start: set<Path>,
                                         q: Path, p: Path)
    requires OnlyPlainIsNew(d, start, l) && TextRun(d, lines, modes, l).Some?
    requires q != [] && q <= p && !AllPlain(q, l) && (q in d.paths ==> p in d.paths)
    ensures var end := TextRun(d, lines, modes, l).value; q in end.paths ==> p in end.paths
    decreases |lines|
  {
    hide TextStep;
    hide OnlyPlainIsNew;
    hide AllPlain;
    if lines != [] {
      TextKeepsPlain(d, lines[0], modes, l, start);
      TextKeepsBelow(d, lines[0], modes, l, start, q, p);
      RunKeepsBelow(TextStep(d, lines[0], modes, l).value, lines[1..], modes, l, start, q, p);
    }
  }

  /** Where the way cannot be put into words, no lines whatever lead there, whatever modes the device
      knows. */
  lemma NoWordsForIt(desired: set<Path>, actual: set<Path>, lines: seq<string>, modes: set<Path>, l: Dialect)
    requires !Speakable(desired, actual, l)
    ensures TextRun(Device(actual, []), lines, modes, l) != Some(Device(desired, []))
  {
    var d := Device(actual, []);
    assert OnlyPlainIsNew(d, actual, l);
    hide AllPlain;
    hide TextRun;
    if TextRun(d, lines, modes, l).Some? {
      RunKeepsPlain(d, lines, modes, l, actual);
      if p, k :| p in actual - desired && 0 < k < |p| && p[..k] in desired && !AllPlain(p[..k], l) {
        RunKeepsBelow(d, lines, modes, l, actual, p[..k], p);
      }
    }
  }

  /** Removals, then additions, then the way back to top level: the device takes every command,
      never loses a path that both configurations have, never stands in a mode that does not exist,
      and ends with exactly the desired paths, at top level. */
  method Plan(desired: set<Path>, actual: set<Path>) returns (cmds: seq<Command>, add: seq<Path>, remove: seq<Path>)
    requires PrefixClosed(desired) && PrefixClosed(actual)
    ensures Lists(add, desired - actual) && SortedBy(false, add)
    ensures Lists(remove, actual - desired) && SortedBy(true, remove)
    ensures Reaches(Device(actual, []), cmds, actual * desired, Device(desired, []))
    ensures MeansAll([], cmds, desired, actual)
  {
    hide Reaches;
    hide Lists;
    hide SortedBy;
    hide MeansAll;
    hide MovedAll;
    add := Sorted(desired - actual, false);
    remove := Sorted(actual - desired, true);
    ghost var keep := actual * desired;
    assert PrefixClosed(keep);
    var removals, context := PlanRemovals(desired, actual, remove);
    ReachesIsSound(Device(actual, []), removals, keep, Device(keep, context));
    assert desired - keep == desired - actual;
    var additions, last := PlanAdditions(desired, actual, keep, add, context);
    ReachesTrans(Device(actual, []), removals, Device(keep, context), additions, keep, Device(desired, last));
    ExitsReach(Device(desired, last), |last|, keep);
    assert last[..0] == [];
    ReachesTrans(Device(actual, []), removals + additions, Device(desired, last), Exits(|last|), keep,
                 Device(desired, []));
    MeansJoin([], removals, additions, desired, actual);
    ExitsMean(last, |last|, desired, actual);
    MeansJoin([], removals + additions, Exits(|last|), desired, actual);
    cmds := removals + additions + Exits(|last|);
  }

  /** The planner. Executed as text by the device, its lines lead from the current configuration to the
      baseline, with nothing shared lost on the way, exactly when that way can be put into words. */
  method PlanIndented(baseline: seq<string>, current: seq<string>, negation: string, exitCommand: string)
    returns (commands: seq<string>, ghost meant: seq<Command>)
    ensures commands == Rendered(meant, Dialect(negation, exitCommand))
    ensures var desired, actual := PathSet(Lines(Cleaned(baseline))), PathSet(Lines(Cleaned(current)));
            Reaches(Device(actual, []), meant, actual * desired, Device(desired, []))
    ensures var desired, actual := PathSet(Lines(Cleaned(baseline))), PathSet(Lines(Cleaned(current)));
            var l := Dialect(negation, exitCommand);
            Workable(l) ==>
              (TextReaches(Device(actual, []), commands, Modes(desired, actual), l, actual * desired,
                           Device(desired, []))
               <==> Speakable(desired, actual, l))
  {
    hide *;
    var wantedRoot, wantedNodes := ParseIndented(baseline);
    var desired := Paths(wantedRoot, wantedNodes, Lines(Cleaned(baseline)));
    var foundRoot, foundNodes := ParseIndented(current);
    var actual := Paths(foundRoot, foundNodes, Lines(Cleaned(current)));
    PathSetClosed(Lines(Cleaned(baseline)));
    PathSetClosed(Lines(Cleaned(current)));
    var cmds, _, _ := Plan(desired, actual);
    meant := cmds;
    var l := Dialect(negation, exitCommand);
    commands := RenderAll(cmds, l);
    ParsedIsTidy(current);
    if Workable(l) {
      TextReachesIff(cmds, desired, actual, l);
    }
  }

  method RenderAll(cmds: seq<Command>, l: Dialect) returns (commands: seq<string>)
    ensures commands == Rendered(cmds, l)
  {
    hide Render;
    commands := Rendered(cmds, l);
  }

  lemma TextReachesIff(cmds: seq<Command>, desired: set<Path>, actual: set<Path>, l: Dialect)
    requires Reaches(Device(actual, []), cmds, actual * desired, Device(desired, []))
    requires MeansAll([], cmds, desired, actual) && Tidy(actual) && Workable(l)
    ensures TextReaches(Device(actual, []), Rendered(cmds, l), Modes(desired, actual), l, actual * desired,
                        Device(desired, []))
            <==> Speakable(desired, actual, l)
  {
    hide *;
    var d, goal := Device(actual, []), Device(desired, []);
    if Speakable(desired, actual, l) {
      SpokenReaches(d, cmds, desired, actual, l, actual * desired, goal);
    } else {
      NoWordsForIt(desired, actual, Rendered(cmds, l), Modes(desired, actual), l);
      if TextReaches(d, Rendered(cmds, l), Modes(desired, actual), l, actual * desired, goal) {
        ReachedIsRun(d, Rendered(cmds, l), Modes(desired, actual), l, actual * desired, goal);
      }
    }
  }

  /** The components of parsed paths are stripped and not empty. */
  lemma ParsedIsTidy(lines: seq<string>)
    ensures Tidy(PathSet(Lines(Cleaned(lines))))
  {
    var ls := Lines(Cleaned(lines));
    forall i | 0 <= i < |ls| ensures ls[i].text != "" && Trimmed(ls[i].text) {
      CleanedAreWritten(lines, i);
    }
    forall p, k | p in PathSet(ls) && 0 <= k < |p| ensures p[k] != "" && Trimmed(p[k]) {
      var i :| 0 <= i < |ls| && p == PathOf(ls, i);
      ComponentIsText(ls, i, k);
    }
  }

  lemma {:induction false} ComponentIsText(ls: seq<Line>, i: int, k: nat)
    requires -1 <= i < |ls| && k < |PathOf(ls, i)|
    requires forall j :: 0 <= j < |ls| ==> ls[j].text != "" && Trimmed(ls[j].text)
    ensures PathOf(ls, i)[k] != "" && Trimmed(PathOf(ls, i)[k])
    decreases i
  {
    hide Trimmed;
    if k < |PathOf(ls, i)| - 1 {
      ComponentIsText(ls, Parent(ls, i), k);
    }
  }

  // ---- An input at which it goes wrong ----

  /** A baseline line that is itself negated cannot be told from the removal of its positive form. */
  lemma NegatedLineIsAmbiguous()
    ensures Render(Set("no shutdown"), "no", "exit") == Render(Negate("shutdown"), "no", "exit")
  {
    var line := "no" + " " + "shutdown";
    assert line == "no shutdown" && Strip(line) == line;
  }

  /** An interface that is to be up, and one that is down. */
  function Interface(state: string): seq<string> {
    ["interface e1", " " + state]
  }

  lemma InterfacePaths(state: string)
    requires state == "shutdown" || state == "no shutdown"
    ensures PathSet(Lines(Cleaned(Interface(state)))) == {["interface e1"], ["interface e1", state]}
  {
    var ls := [Line("interface e1", 0), Line(state, 1)];
    InterfaceIsRead(state);
    hide Cleaned;
    assert Lines(Cleaned(Interface(state))) == ls;
    hide Lines;
    hide Interface;
    ParentIs(ls, 0, -1);
    ParentIs(ls, 1, 0);
    assert PathOf(ls, -1) == [];
    assert PathOf(ls, 0) == ["interface e1"];
    assert PathOf(ls, 1) == ["interface e1", state];
    assert PathSet(ls) == {PathOf(ls, 0), PathOf(ls, 1)};
  }

  lemma InterfaceIsRead(state: string)
    requires state == "shutdown" || state == "no shutdown"
    ensures var ls := [Line("interface e1", 0), Line(state, 1)];
            |Cleaned(Interface(state))| == 2 && forall k :: 0 <= k < 2 ==> LineOf(Cleaned(Interface(state))[k]) == ls[k]
  {
    var ls := [Line("interface e1", 0), Line(state, 1)];
    LettersAreWritten(ls[0]);
    LettersAreWritten(ls[1]);
    InterfaceIsRaw(state);
    hide Cleaned;
    hide Interface;
    hide Written;
    hide LineOf;
    hide Raws;
    RawsAreRead(ls);
  }

  lemma InterfaceIsRaw(state: string)
    ensures Raws([Line("interface e1", 0), Line(state, 1)]) == Interface(state)
  {
    var ls := [Line("interface e1", 0), Line(state, 1)];
    assert Raw(ls[0]) == "interface e1" && Raw(ls[1]) == " " + state;
    assert ls[1..] == [ls[1]] && [ls[1]][1..] == [];
    assert Raws([ls[1]]) == [Raw(ls[1])];
    hide Raw;
  }

  lemma LettersAreWritten(l: Line)
    requires l.text in ["interface e1", "shutdown", "no shutdown"]
    ensures Written(l)
  {
    assert Lower(l.text)[0] == l.text[0];
    assert forall k :: 0 <= k < |NOISE| ==> NOISE[k][0] != l.text[0];
  }

  /** No text at all takes the interface from "shutdown" to "no shutdown". */
  lemma InterfaceIsUnspeakable(desired: set<Path>, actual: set<Path>)
    requires desired == {["interface e1"], ["interface e1", "no shutdown"]}
    requires actual == {["interface e1"], ["interface e1", "shutdown"]}
    ensures !Speakable(desired, actual, Dialect("no", "exit"))
  {
    var p := ["interface e1", "no shutdown"];
    assert p[1] == "no shutdown";
    assert "no shutdown"[..3] == "no" + " ";
    assert !AllPlain(p, Dialect("no", "exit"));
    assert ["interface e1", "no shutdown"] != ["interface e1", "shutdown"] by {
      assert |"no shutdown"| != |"shutdown"|;
    }
    assert p in desired - actual;
  }

  /** The planner at that input: its lines do not lead to the baseline. */
  method NegatedLineIsLost() returns (commands: seq<string>)
    ensures var desired := {["interface e1"], ["interface e1", "no shutdown"]};
            var actual := {["interface e1"], ["interface e1", "shutdown"]};
            var l := Dialect("no", "exit");
            && desired == PathSet(Lines(Cleaned(Interface("no shutdown"))))
            && actual == PathSet(Lines(Cleaned(Interface("shutdown"))))
            && Workable(l)
            && !TextReaches(Device(actual, []), commands, Modes(desired, actual), l, actual * desired,
                            Device(desired, []))
  {
    hide *;
    InterfacePaths("no shutdown");
    InterfacePaths("shutdown");
    InterfaceIsUnspeakable(PathSet(Lines(Cleaned(Interface("no shutdown")))),
                           PathSet(Lines(Cleaned(Interface("shutdown")))));
    NoIsWorkable();
    ghost var meant;
    commands, meant := PlanIndented(Interface("no shutdown"), Interface("shutdown"), "no", "exit");
  }

  lemma NoIsWorkable()
    ensures Workable(Dialect("no", "exit")) && Workable(Dialect("undo", "exit"))
  {
    assert ("no" + " ")[0] == 'n' && ("undo" + " ")[0] == 'u' && "exit"[0] == 'e';
  }
}
