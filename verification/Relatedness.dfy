/** When two facts of an incident belong together (correlation.py): a shared alias, a shared service, or
    a short way through trusted dependency edges. Aliases and keys are integers in the order of the text. */
module Relatedness {
  import opened Common
  import opened Ordering
  import DependencyGraph

  const MAX_REL_DEPTH := 4
  const MAX_REL_NODES := 250

  type Graph = map<int, set<int>>

  function Neighbours(adj: Graph, k: int): set<int> {
    if k in adj then adj[k] else {}
  }

  // ---- Ways through the graph ----

  predicate Way(adj: Graph, p: seq<int>) {
    |p| > 0 && forall i :: 0 <= i < |p| - 1 ==> p[i + 1] in Neighbours(adj, p[i])
  }

  predicate Joins(adj: Graph, left: set<int>, right: set<int>, n: nat, p: seq<int>) {
    Way(adj, p) && p[0] in left && p[|p| - 1] in right && |p| - 1 <= n
  }

  /** A way of at most `n` edges leads from one set to the other. */
  ghost predicate Joined(adj: Graph, left: set<int>, right: set<int>, n: nat) {
    exists p :: Joins(adj, left, right, n, p)
  }

  /** Every edge can be walked both ways. */
  predicate Symmetric(adj: Graph) {
    forall a, b :: a in adj && b in adj[a] ==> b in adj && a in adj[b]
  }

  function Reversed(p: seq<int>): (r: seq<int>)
    ensures |r| == |p| && forall i :: 0 <= i < |p| ==> r[i] == p[|p| - 1 - i]
  {
    seq(|p|, i requires 0 <= i < |p| => p[|p| - 1 - i])
  }

  lemma WayBack(adj: Graph, left: set<int>, right: set<int>, n: nat, p: seq<int>)
    requires Symmetric(adj) && Joins(adj, left, right, n, p)
    ensures Joins(adj, right, left, n, Reversed(p))
  {
    var r := Reversed(p);
    forall i | 0 <= i < |r| - 1 ensures r[i + 1] in Neighbours(adj, r[i]) {
      var j := |p| - 2 - i;
      assert p[j + 1] in Neighbours(adj, p[j]);
    }
  }

  lemma JoinedBothWays(adj: Graph, left: set<int>, right: set<int>, n: nat)
    requires Symmetric(adj)
    ensures Joined(adj, left, right, n) <==> Joined(adj, right, left, n)
  {
    hide Joins;
    if Joined(adj, left, right, n) {
      var p :| Joins(adj, left, right, n, p);
      WayBack(adj, left, right, n, p);
    }
    if Joined(adj, right, left, n) {
      var p :| Joins(adj, right, left, n, p);
      WayBack(adj, right, left, n, p);
    }
  }

  // ---- Layers ----

  /** The keys at most `n` edges away. */
  ghost function Layer(adj: Graph, start: set<int>, n: nat): set<int> {
    if n == 0 then start
    else Layer(adj, start, n - 1) + (set a, b | a in Layer(adj, start, n - 1) && b in Neighbours(adj, a) :: b)
  }

  lemma LayerNext(adj: Graph, start: set<int>, n: nat, k: int)
    ensures k in Layer(adj, start, n + 1) <==>
            k in Layer(adj, start, n) || exists a :: a in Layer(adj, start, n) && k in Neighbours(adj, a)
    ensures Layer(adj, start, 0) == start
  {
    hide Neighbours;
  }

  lemma {:induction false} LayerGrows(adj: Graph, start: set<int>, m: nat, n: nat)
    requires m <= n
    ensures Layer(adj, start, m) <= Layer(adj, start, n)
    decreases n
  {
    hide *;
    if m < n {
      LayerGrows(adj, start, m, n - 1);
      forall k | k in Layer(adj, start, n - 1) ensures k in Layer(adj, start, n) {
        LayerNext(adj, start, n - 1, k);
      }
    }
  }

  lemma {:induction false} WayInLayer(adj: Graph, start: set<int>, p: seq<int>, n: nat)
    requires Way(adj, p) && p[0] in start && |p| - 1 <= n
    ensures p[|p| - 1] in Layer(adj, start, n)
    decreases |p|
  {
    hide Neighbours;
    hide Layer;
    if |p| == 1 {
      LayerNext(adj, start, 0, p[0]);
      LayerGrows(adj, start, 0, n);
    } else {
      var q := p[..|p| - 1];
      WayInLayer(adj, start, q, n - 1);
      assert p[|p| - 2 + 1] in Neighbours(adj, p[|p| - 2]);
      LayerNext(adj, start, n - 1, p[|p| - 1]);
    }
  }

  lemma {:induction false} LayerHasWay(adj: Graph, start: set<int>, n: nat, k: int) returns (p: seq<int>)
    requires k in Layer(adj, start, n)
    ensures Way(adj, p) && p[0] in start && p[|p| - 1] == k && |p| - 1 <= n
    decreases n
  {
    hide Neighbours;
    hide Layer;
    LayerNext(adj, start, 0, k);
    if n == 0 {
      p := [k];
    } else {
      LayerNext(adj, start, n - 1, k);
      if k in Layer(adj, start, n - 1) {
        p := LayerHasWay(adj, start, n - 1, k);
      } else {
        var a :| a in Layer(adj, start, n - 1) && k in Neighbours(adj, a);
        var q := LayerHasWay(adj, start, n - 1, a);
        p := q + [k];
        forall i | 0 <= i < |p| - 1 ensures p[i + 1] in Neighbours(adj, p[i]) {
          if i < |q| - 1 {
            assert q[i + 1] in Neighbours(adj, q[i]);
          }
        }
      }
    }
  }

  lemma JoinedIffLayer(adj: Graph, left: set<int>, right: set<int>, n: nat)
    ensures Joined(adj, left, right, n) <==> Layer(adj, left, n) * right != {}
  {
    hide Neighbours;
    hide Layer;
    if Joined(adj, left, right, n) {
      var p :| Joins(adj, left, right, n, p);
      WayInLayer(adj, left, p, n);
      assert p[|p| - 1] in Layer(adj, left, n) * right;
    }
    if Layer(adj, left, n) * right != {} {
      var k := SomeElement(Layer(adj, left, n) * right);
      var p := LayerHasWay(adj, left, n, k);
      assert Joins(adj, left, right, n, p);
    }
  }

  // ---- The search ----

  datatype Item = Item(key: int, depth: nat)

  /** The visited keys, each with the depth it was met at, and the queue. */
  datatype Search = Search(depth: map<int, nat>, queue: seq<Item>)

  predicate Waiting(queue: seq<Item>, k: int) {
    exists i :: 0 <= i < |queue| && queue[i].key == k
  }

  /** Everything next to `k` is visited and none of it wanted. */
  predicate Cleared(adj: Graph, right: set<int>, depth: map<int, nat>, k: int) {
    forall b :: b in Neighbours(adj, k) ==> b in depth && b !in right
  }

  ghost predicate DepthsOk(adj: Graph, left: set<int>, depth: map<int, nat>) {
    && (forall k :: k in left ==> k in depth)
    && forall k :: k in depth ==>
         && depth[k] <= MAX_REL_DEPTH && k in Layer(adj, left, depth[k])
         && (depth[k] > 0 ==> k !in Layer(adj, left, depth[k] - 1))
  }

  ghost predicate Full(adj: Graph, left: set<int>, depth: map<int, nat>, n: nat) {
    forall k :: k in Layer(adj, left, n) ==> k in depth
  }

  predicate ItemOk(depth: map<int, nat>, level: nat, item: Item) {
    item.key in depth && depth[item.key] == item.depth && level <= item.depth <= level + 1
  }

  predicate QueueOk(depth: map<int, nat>, level: nat, queue: seq<Item>) {
    && (forall i :: 0 <= i < |queue| ==> ItemOk(depth, level, queue[i]))
    && forall i, j :: 0 <= i < j < |queue| ==> queue[i].depth <= queue[j].depth
  }

  predicate Progress(adj: Graph, right: set<int>, s: Search, but: set<int>) {
    forall k :: k in s.depth && s.depth[k] < MAX_REL_DEPTH && k !in but ==>
      Waiting(s.queue, k) || Cleared(adj, right, s.depth, k)
  }

  predicate Extends(a: Search, b: Search) {
    && (forall k :: k in a.depth ==> k in b.depth && b.depth[k] == a.depth[k])
    && a.queue <= b.queue
    && (forall k :: k in b.depth && k !in a.depth ==> Waiting(b.queue, k))
  }

  /** What holds while the search has found nothing. */
  ghost predicate Kept(adj: Graph, left: set<int>, right: set<int>, s: Search, level: nat) {
    && DepthsOk(adj, left, s.depth) && Full(adj, left, s.depth, level) && QueueOk(s.depth, level, s.queue)
    && forall k :: k in s.depth ==> k !in right
  }

  lemma Raised(adj: Graph, left: set<int>, right: set<int>, s: Search, level: nat)
    requires DepthsOk(adj, left, s.depth) && Full(adj, left, s.depth, level)
    requires forall k :: k in s.depth && s.depth[k] <= level ==> Cleared(adj, right, s.depth, k)
    ensures Full(adj, left, s.depth, level + 1)
  {
    hide Layer;
    hide Neighbours;
    forall k | k in Layer(adj, left, level + 1) ensures k in s.depth {
      LayerNext(adj, left, level, k);
      if k !in Layer(adj, left, level) {
        var a :| a in Layer(adj, left, level) && k in Neighbours(adj, a);
        DepthInLayer(adj, left, s.depth, level, a);
        assert Cleared(adj, right, s.depth, a);
      }
    }
  }

  lemma DepthInLayer(adj: Graph, left: set<int>, depth: map<int, nat>, n: nat, k: int)
    requires DepthsOk(adj, left, depth) && k in depth && k in Layer(adj, left, n)
    ensures depth[k] <= n
  {
    hide Layer;
    if depth[k] > n {
      LayerGrows(adj, left, n, depth[k] - 1);
      assert false;
    }
  }

  /** Nothing waits: every layer has been searched. */
  lemma {:induction false} AllFull(adj: Graph, left: set<int>, right: set<int>, s: Search, n: nat)
    requires DepthsOk(adj, left, s.depth) && n <= MAX_REL_DEPTH
    requires forall k :: k in s.depth && s.depth[k] < MAX_REL_DEPTH ==> Cleared(adj, right, s.depth, k)
    ensures Full(adj, left, s.depth, n)
    decreases n
  {
    hide *;
    if n == 0 {
      NoneFull(adj, left, s.depth);
    } else {
      AllFull(adj, left, right, s, n - 1);
      Raised(adj, left, right, s, n - 1);
    }
  }

  lemma NoneFull(adj: Graph, left: set<int>, depth: map<int, nat>)
    requires DepthsOk(adj, left, depth)
    ensures Full(adj, left, depth, 0)
  {
  }

  lemma SearchedAll(adj: Graph, left: set<int>, right: set<int>, s: Search, level: nat)
    requires Kept(adj, left, right, s, level) && Progress(adj, right, s, {}) && s.queue == []
    ensures !Joined(adj, left, right, MAX_REL_DEPTH)
  {
    hide Layer;
    hide Neighbours;
    hide Joined;
    AllFull(adj, left, right, s, MAX_REL_DEPTH);
    JoinedIffLayer(adj, left, right, MAX_REL_DEPTH);
    forall k | k in Layer(adj, left, MAX_REL_DEPTH) ensures k !in right {
      assert k in s.depth;
    }
  }

  /** A wanted key next to a node above the limit ends a way that is short enough. */
  lemma Found(adj: Graph, left: set<int>, right: set<int>, depth: map<int, nat>, a: int, b: int)
    requires DepthsOk(adj, left, depth) && a in depth && depth[a] < MAX_REL_DEPTH
    requires b in Neighbours(adj, a) && b in right
    ensures Joined(adj, left, right, MAX_REL_DEPTH)
  {
    hide Layer;
    hide Neighbours;
    hide Joined;
    LayerNext(adj, left, depth[a], b);
    LayerGrows(adj, left, depth[a] + 1, MAX_REL_DEPTH);
    JoinedIffLayer(adj, left, right, MAX_REL_DEPTH);
    assert b in Layer(adj, left, MAX_REL_DEPTH) * right;
  }

  // ---- The neighbours of one node ----

  /** The inner loop over sorted neighbours: it stops at a wanted one, and enqueues the new ones. */
  function Sweep(s: Search, right: set<int>, around: seq<int>, depth: nat): (Search, Option<int>) {
    if around == [] then (s, None)
    else
      var (next, hit) := Sweep(s, right, around[..|around| - 1], depth);
      var b := around[|around| - 1];
      if hit.Some? then (next, hit)
      else if b in right then (next, Some(b))
      else if b in next.depth then (next, None)
      else (Search(next.depth[b := depth + 1], next.queue + [Item(b, depth + 1)]), None)
  }

  lemma {:induction false} SweepIs(s: Search, right: set<int>, around: seq<int>, depth: nat)
    ensures var (next, hit) := Sweep(s, right, around, depth);
            && Extends(s, next)
            && (hit.Some? ==> hit.value in around && hit.value in right)
            && (hit.None? ==> forall b :: b in around ==> b in next.depth && b !in right)
            && (forall k :: k in next.depth && k !in s.depth ==>
                k in around && next.depth[k] == depth + 1 && k !in right)
            && |next.queue| - |s.queue| == |next.depth| - |s.depth|
    decreases |around|
  {
    if around != [] {
      var front, b := around[..|around| - 1], around[|around| - 1];
      SweepIs(s, right, front, depth);
      var (mid, hit) := Sweep(s, right, front, depth);
      InSnoc(front, b);
      assert around == front + [b];
      if hit.None? && b !in right && b !in mid.depth {
        SweepOne(s, mid, b, depth);
      }
    }
  }

  lemma InSnoc(s: seq<int>, b: int)
    ensures forall x :: x in s + [b] <==> x in s || x == b
  {
  }

  lemma SweepOne(s: Search, mid: Search, b: int, depth: nat)
    requires Extends(s, mid) && b !in mid.depth
    ensures var next := Search(mid.depth[b := depth + 1], mid.queue + [Item(b, depth + 1)]);
            Extends(s, next) && |next.depth| == |mid.depth| + 1
  {
    var next := Search(mid.depth[b := depth + 1], mid.queue + [Item(b, depth + 1)]);
    assert next.depth.Keys == mid.depth.Keys + {b};
    forall k | k in next.depth && k !in s.depth ensures Waiting(next.queue, k) {
      if k == b {
        assert next.queue[|mid.queue|].key == b;
      } else {
        var i :| 0 <= i < |mid.queue| && mid.queue[i].key == k;
        assert next.queue[i].key == k;
      }
    }
  }

  /** Sweeping around a node of the current level keeps what the search relies on. */
  lemma SweepKeeps(adj: Graph, left: set<int>, right: set<int>, s: Search, level: nat, a: int)
    requires Kept(adj, left, right, s, level) && a in s.depth && s.depth[a] == level < MAX_REL_DEPTH
    requires Sweep(s, right, Sorted(Neighbours(adj, a)), level).1.None?
    ensures var next := Sweep(s, right, Sorted(Neighbours(adj, a)), level).0;
            Kept(adj, left, right, next, level) && Cleared(adj, right, next.depth, a) && Extends(s, next)
  {
    hide *;
    var around := Sorted(Neighbours(adj, a));
    SortedIs(Neighbours(adj, a));
    SweepIs(s, right, around, level);
    KeptGives(adj, left, right, s, level);
    SweepQueue(s, right, around, level, level);
    var next := Sweep(s, right, around, level).0;
    ExtendsGives(s, next);
    SweptDepths(adj, left, s.depth, next.depth, level, a);
    SweptFull(adj, left, s.depth, next.depth, level);
    ClearedIs(adj, right, next.depth, a);
    KeptIs(adj, left, right, next, level);
  }

  lemma ExtendsGives(a: Search, b: Search)
    requires Extends(a, b)
    ensures forall k :: k in a.depth ==> k in b.depth && b.depth[k] == a.depth[k]
    ensures a.queue <= b.queue && forall k :: k in b.depth && k !in a.depth ==> Waiting(b.queue, k)
  {
    hide Waiting;
  }

  lemma ClearedIs(adj: Graph, right: set<int>, depth: map<int, nat>, a: int)
    requires forall b :: b in Neighbours(adj, a) ==> b in depth && b !in right
    ensures Cleared(adj, right, depth, a)
  {
    hide Neighbours;
  }

  lemma SweptDepths(adj: Graph, left: set<int>, was: map<int, nat>, depth: map<int, nat>, level: nat, a: int)
    requires DepthsOk(adj, left, was) && Full(adj, left, was, level) && a in was && was[a] == level < MAX_REL_DEPTH
    requires forall k :: k in was ==> k in depth && depth[k] == was[k]
    requires forall k :: k in depth && k !in was ==> k in Neighbours(adj, a) && depth[k] == level + 1
    ensures DepthsOk(adj, left, depth)
  {
    hide Layer;
    hide Neighbours;
    forall k | k in depth && k !in was ensures k in Layer(adj, left, level + 1) {
      LayerNext(adj, left, level, k);
    }
  }

  lemma SweptFull(adj: Graph, left: set<int>, was: map<int, nat>, depth: map<int, nat>, level: nat)
    requires Full(adj, left, was, level) && forall k :: k in was ==> k in depth && depth[k] == was[k]
    ensures Full(adj, left, depth, level)
  {
    hide Layer;
  }

  lemma KeptGives(adj: Graph, left: set<int>, right: set<int>, s: Search, level: nat)
    requires Kept(adj, left, right, s, level)
    ensures DepthsOk(adj, left, s.depth) && Full(adj, left, s.depth, level) && QueueOk(s.depth, level, s.queue)
    ensures forall k :: k in s.depth ==> k !in right
  {
    hide DepthsOk;
    hide Full;
    hide QueueOk;
  }

  lemma KeptIs(adj: Graph, left: set<int>, right: set<int>, s: Search, level: nat)
    requires DepthsOk(adj, left, s.depth) && Full(adj, left, s.depth, level) && QueueOk(s.depth, level, s.queue)
    requires forall k :: k in s.depth ==> k !in right
    ensures Kept(adj, left, right, s, level)
  {
    hide DepthsOk;
    hide Full;
    hide QueueOk;
  }

  lemma {:induction false} SweepQueue(s: Search, right: set<int>, around: seq<int>, depth: nat, level: nat)
    requires QueueOk(s.depth, level, s.queue) && depth == level
    ensures QueueOk(Sweep(s, right, around, depth).0.depth, level, Sweep(s, right, around, depth).0.queue)
    decreases |around|
  {
    if around != [] {
      SweepQueue(s, right, around[..|around| - 1], depth, level);
    }
  }

  lemma FirstItem(s: Search, level: nat)
    requires QueueOk(s.depth, level, s.queue) && s.queue != []
    ensures var d := s.queue[0].depth;
            (d == level || d == level + 1) && QueueOk(s.depth, d, s.queue[1..])
    ensures s.queue[0].key in s.depth && s.depth[s.queue[0].key] == s.queue[0].depth
    ensures forall k :: k in s.depth && s.depth[k] < s.queue[0].depth ==> !Waiting(s.queue, k)
  {
    var d, rest := s.queue[0].depth, s.queue[1..];
    forall i | 0 <= i < |s.queue| ensures ItemOk(s.depth, level, s.queue[i]) && d <= s.queue[i].depth {
    }
    forall i | 0 <= i < |rest| ensures ItemOk(s.depth, d, rest[i]) {
      assert rest[i] == s.queue[i + 1];
      assert ItemOk(s.depth, level, s.queue[i + 1]);
    }
  }

  /** Taking the first item; when it starts a new level, the level before it has been searched. */
  lemma Popped(adj: Graph, left: set<int>, right: set<int>, s: Search, level: nat)
    requires Kept(adj, left, right, s, level) && Progress(adj, right, s, {}) && s.queue != []
    ensures var item, rest := s.queue[0], Search(s.depth, s.queue[1..]);
            && Kept(adj, left, right, rest, item.depth) && Progress(adj, right, rest, {item.key})
            && item.key in s.depth && level <= s.depth[item.key] == item.depth <= MAX_REL_DEPTH
  {
    hide *;
    var item, rest := s.queue[0], Search(s.depth, s.queue[1..]);
    KeptGives(adj, left, right, s, level);
    FirstItem(s, level);
    DepthsBound(adj, left, s.depth, item.key);
    if item.depth > level {
      LevelCleared(adj, right, s, level, item.depth);
      Raised(adj, left, right, s, level);
    }
    KeptIs(adj, left, right, rest, item.depth);
    WaitingRest(adj, right, s);
  }

  lemma DepthsBound(adj: Graph, left: set<int>, depth: map<int, nat>, k: int)
    requires DepthsOk(adj, left, depth) && k in depth
    ensures depth[k] <= MAX_REL_DEPTH
  {
    hide Layer;
  }

  lemma LevelCleared(adj: Graph, right: set<int>, s: Search, level: nat, d: nat)
    requires Progress(adj, right, s, {}) && level < d <= MAX_REL_DEPTH
    requires forall k :: k in s.depth && s.depth[k] < d ==> !Waiting(s.queue, k)
    ensures forall k :: k in s.depth && s.depth[k] <= level ==> Cleared(adj, right, s.depth, k)
  {
    hide Waiting;
    hide Cleared;
  }

  lemma WaitingRest(adj: Graph, right: set<int>, s: Search)
    requires s.queue != [] && Progress(adj, right, s, {})
    ensures Progress(adj, right, Search(s.depth, s.queue[1..]), {s.queue[0].key})
  {
    hide Cleared;
    var rest := s.queue[1..];
    forall k | k in s.depth && s.depth[k] < MAX_REL_DEPTH && k != s.queue[0].key && !Cleared(adj, right, s.depth, k)
      ensures Waiting(rest, k)
    {
      assert Waiting(s.queue, k);
      var i :| 0 <= i < |s.queue| && s.queue[i].key == k;
      assert rest[i - 1].key == k;
    }
  }

  lemma ClearedKept(adj: Graph, right: set<int>, a: map<int, nat>, b: map<int, nat>, k: int)
    requires Cleared(adj, right, a, k) && forall j :: j in a ==> j in b
    ensures Cleared(adj, right, b, k)
  {
  }

  lemma WaitingKept(a: seq<Item>, b: seq<Item>, k: int)
    requires Waiting(a, k) && a <= b
    ensures Waiting(b, k)
  {
    var i :| 0 <= i < |a| && a[i].key == k;
    assert b[i].key == k;
  }

  /** Progress once the node in hand is dealt with. */
  lemma Swept(adj: Graph, right: set<int>, a: Search, b: Search, k: int)
    requires Progress(adj, right, a, {k}) && Extends(a, b) && k in a.depth
    requires a.depth[k] < MAX_REL_DEPTH ==> Cleared(adj, right, b.depth, k)
    ensures Progress(adj, right, b, {})
  {
    hide Cleared;
    hide Waiting;
    forall j | j in b.depth && b.depth[j] < MAX_REL_DEPTH
      ensures Waiting(b.queue, j) || Cleared(adj, right, b.depth, j)
    {
      if j in a.depth && j != k {
        if Waiting(a.queue, j) {
          WaitingKept(a.queue, b.queue, j);
        } else {
          ClearedKept(adj, right, a.depth, b.depth, j);
        }
      }
    }
  }

  // ---- The relation ----

  /** `_service_keys` */
  function KeysOf(aliases: set<int>, index: map<int, set<int>>): set<int> {
    set a, k | a in aliases && a in index && k in index[a] :: k
  }

  datatype Answer = Unrelated | SameEntity(alias: int) | SameService(key: int) | ViaPath(from: int, to: int)

  /** Two facts belong together: a shared alias, or a way of at most four edges (none at all when they
      share a service) between the services their aliases name. */
  ghost predicate Related(left: set<int>, right: set<int>, index: map<int, set<int>>, adj: Graph) {
    left * right != {} || Joined(adj, KeysOf(left, index), KeysOf(right, index), MAX_REL_DEPTH)
  }

  lemma KeysOfHas(aliases: set<int>, index: map<int, set<int>>, a: int, k: int)
    requires a in aliases && a in index && k in index[a]
    ensures k in KeysOf(aliases, index)
  {
  }

  /** The relation in one line: a shared alias, or a way of at most four edges between services that their
      aliases name. */
  lemma RelatedIff(left: set<int>, right: set<int>, index: map<int, set<int>>, adj: Graph)
    ensures Related(left, right, index, adj) <==>
            || (exists a :: a in left && a in right)
            || (exists p: seq<int>, a, b :: 0 < |p| <= 5 && Way(adj, p)
                                            && a in left && a in index && p[0] in index[a]
                                            && b in right && b in index && p[|p| - 1] in index[b])
  {
    if exists a :: a in left && a in right {
      var a :| a in left && a in right;
      assert a in left * right;
    }
    if left * right != {} {
      var a :| a in left * right;
    }
    var from, to := KeysOf(left, index), KeysOf(right, index);
    if Joined(adj, from, to, MAX_REL_DEPTH) {
      var p :| Joins(adj, from, to, MAX_REL_DEPTH, p);
      var a :| a in left && a in index && p[0] in index[a];
      var b :| b in right && b in index && p[|p| - 1] in index[b];
      assert 0 < |p| <= 5 && Way(adj, p);
    }
    if p: seq<int>, a, b :| 0 < |p| <= 5 && Way(adj, p) && a in left && a in index && p[0] in index[a]
                            && b in right && b in index && p[|p| - 1] in index[b] {
      KeysOfHas(left, index, a, p[0]);
      KeysOfHas(right, index, b, p[|p| - 1]);
      assert Joins(adj, from, to, MAX_REL_DEPTH, p);
    }
  }

  /** Every key a search from `start` can meet. */
  function Universe(adj: Graph, start: set<int>): set<int> {
    start + (set a, b | a in adj && b in adj[a] :: b)
  }

  /** The relation does not depend on the order of the facts when the graph is symmetric. */
  lemma RelatedIsSymmetric(left: set<int>, right: set<int>, index: map<int, set<int>>, adj: Graph)
    requires Symmetric(adj)
    ensures Related(left, right, index, adj) <==> Related(right, left, index, adj)
  {
    hide Joined;
    JoinedBothWays(adj, KeysOf(left, index), KeysOf(right, index), MAX_REL_DEPTH);
    assert left * right == right * left;
  }

  /** An overlap is a way without edges. */
  lemma OverlapJoins(adj: Graph, left: set<int>, right: set<int>, k: int)
    requires k in left && k in right
    ensures forall n: nat :: Joined(adj, left, right, n)
  {
    forall n: nat ensures Joined(adj, left, right, n) {
      assert Joins(adj, left, right, n, [k]);
    }
  }

  lemma NobodyJoins(adj: Graph, left: set<int>, right: set<int>)
    requires left == {} || right == {}
    ensures forall n: nat :: !Joined(adj, left, right, n)
  {
  }

  // ---- The program ----

  /** The search starts with every key of the left fact, in order. */
  function Start(left: seq<int>): Search
    decreases |left|
  {
    if left == [] then Search(map[], [])
    else
      var front := Start(left[..|left| - 1]);
      Search(front.depth[left[|left| - 1] := 0], front.queue + [Item(left[|left| - 1], 0)])
  }

  lemma {:induction false} StartIs(left: seq<int>)
    ensures var s := Start(left);
            && (forall k :: k in s.depth <==> k in left) && (forall k :: k in s.depth ==> s.depth[k] == 0)
            && |s.queue| == |left| && forall i :: 0 <= i < |left| ==> s.queue[i] == Item(left[i], 0)
    decreases |left|
  {
    if left != [] {
      var front := left[..|left| - 1];
      StartIs(front);
      InSnoc(front, left[|left| - 1]);
      assert left == front + [left[|left| - 1]];
    }
  }

  lemma StartKept(adj: Graph, left: set<int>, right: set<int>)
    requires left * right == {}
    ensures Kept(adj, left, right, Start(Sorted(left)), 0) && Progress(adj, right, Start(Sorted(left)), {})
    ensures Start(Sorted(left)).depth.Keys == left
  {
    hide *;
    var s := Start(Sorted(left));
    SortedIs(left);
    StartIs(Sorted(left));
    forall k | k in s.depth ensures k !in right && Waiting(s.queue, k) {
      NotInBoth(left, right, k);
      IndexOf(Sorted(left), k);
      var i :| 0 <= i < |Sorted(left)| && Sorted(left)[i] == k;
      IsWaiting(s.queue, i);
    }
    StartLayers(adj, left, s.depth);
    StartQueue(s);
    KeptIs(adj, left, right, s, 0);
    AllWait(adj, right, s);
  }

  lemma NotInBoth(left: set<int>, right: set<int>, k: int)
    requires left * right == {} && k in left
    ensures k !in right
  {
    assert k in right ==> k in left * right;
  }

  lemma IndexOf(s: seq<int>, k: int)
    requires k in s
    ensures exists i :: 0 <= i < |s| && s[i] == k
  {
  }

  lemma IsWaiting(queue: seq<Item>, i: nat)
    requires i < |queue|
    ensures Waiting(queue, queue[i].key)
  {
  }

  lemma StartLayers(adj: Graph, left: set<int>, depth: map<int, nat>)
    requires forall k :: k in depth <==> k in left
    requires forall k :: k in depth ==> depth[k] == 0
    ensures DepthsOk(adj, left, depth) && Full(adj, left, depth, 0)
  {
    assert Layer(adj, left, 0) == left;
  }

  lemma StartQueue(s: Search)
    requires forall i :: 0 <= i < |s.queue| ==> s.queue[i].depth == 0 && s.queue[i].key in s.depth
    requires forall k :: k in s.depth ==> s.depth[k] == 0
    ensures QueueOk(s.depth, 0, s.queue)
  {
  }

  lemma AllWait(adj: Graph, right: set<int>, s: Search)
    requires forall k :: k in s.depth ==> Waiting(s.queue, k)
    ensures Progress(adj, right, s, {})
  {
    hide Waiting;
    hide Cleared;
  }

  /** The outer loop, turn by turn: where it finds a wanted neighbour, if it does. */
  function Walk(adj: Graph, right: set<int>, s: Search, turns: nat): Option<(int, int)>
    decreases turns
  {
    if turns == 0 || s.queue == [] || |s.depth| > MAX_REL_NODES then None
    else
      var item, rest := s.queue[0], Search(s.depth, s.queue[1..]);
      if item.depth >= MAX_REL_DEPTH then Walk(adj, right, rest, turns - 1)
      else
        var (next, hit) := Sweep(rest, right, Sorted(Neighbours(adj, item.key)), item.depth);
        if hit.Some? then Some((item.key, hit.value)) else Walk(adj, right, next, turns - 1)
  }

  /** How many turns a search can still take. */
  function Turns(adj: Graph, left: set<int>, s: Search): int {
    |Universe(adj, left)| - |s.depth| + |s.queue|
  }

  /** `_related`, as a value. */
  function Verdict(left: set<int>, right: set<int>, index: map<int, set<int>>, adj: Graph): Answer {
    var leftKeys, rightKeys := KeysOf(left, index), KeysOf(right, index);
    if left * right != {} then SameEntity(Least(left * right))
    else if leftKeys == {} || rightKeys == {} then Unrelated
    else if leftKeys * rightKeys != {} then SameService(Least(leftKeys * rightKeys))
    else
      var start := Start(Sorted(leftKeys));
      var turns := Turns(adj, leftKeys, start);
      var found := if turns < 0 then None else Walk(adj, rightKeys, start, turns);
      if found.Some? then ViaPath(found.value.0, found.value.1) else Unrelated
  }

  /** The keys met so far stay within the universe of the search. */
  lemma SweepInside(adj: Graph, left: set<int>, right: set<int>, s: Search, item: Item)
    requires s.depth.Keys <= Universe(adj, left)
    ensures Sweep(s, right, Sorted(Neighbours(adj, item.key)), item.depth).0.depth.Keys <= Universe(adj, left)
  {
    hide *;
    var around := Sorted(Neighbours(adj, item.key));
    SortedIs(Neighbours(adj, item.key));
    SweepIs(s, right, around, item.depth);
    var next := Sweep(s, right, around, item.depth).0;
    forall k | k in next.depth ensures k in Universe(adj, left) {
      if k !in s.depth {
        NeighbourInside(adj, left, item.key, k);
      }
    }
  }

  lemma NeighbourInside(adj: Graph, left: set<int>, a: int, b: int)
    requires b in Neighbours(adj, a)
    ensures b in Universe(adj, left)
  {
  }

  lemma SubsetSize(a: set<int>, b: set<int>)
    requires a <= b
    ensures |a| <= |b|
  {
    assert b == a + (b - a);
  }

  lemma TurnsLeft(adj: Graph, left: set<int>, s: Search)
    requires s.depth.Keys <= Universe(adj, left)
    ensures Turns(adj, left, s) >= |s.queue|
    ensures |s.depth| > MAX_REL_NODES ==> |Universe(adj, left)| > MAX_REL_NODES
  {
    SubsetSize(s.depth.Keys, Universe(adj, left));
    assert |s.depth| == |s.depth.Keys|;
    hide Universe;
  }

  lemma WalkIs(adj: Graph, right: set<int>, s: Search, turns: nat)
    requires turns > 0 && s.queue != [] && |s.depth| <= MAX_REL_NODES
    ensures var item, rest := s.queue[0], Search(s.depth, s.queue[1..]);
            Walk(adj, right, s, turns) ==
            if item.depth >= MAX_REL_DEPTH then Walk(adj, right, rest, turns - 1)
            else
              var (next, hit) := Sweep(rest, right, Sorted(Neighbours(adj, item.key)), item.depth);
              if hit.Some? then Some((item.key, hit.value)) else Walk(adj, right, next, turns - 1)
  {
    hide Sweep;
    hide Sorted;
    hide Neighbours;
  }

  lemma WalkEnds(adj: Graph, right: set<int>, s: Search, turns: nat)
    requires s.queue == [] || |s.depth| > MAX_REL_NODES
    ensures Walk(adj, right, s, turns) == None
  {
    hide Sweep;
    hide Sorted;
    hide Neighbours;
  }

  /** The inner loop. */
  method SweepAround(s: Search, right: set<int>, around: seq<int>, depth: nat) returns (next: Search, hit: Option<int>)
    ensures (next, hit) == Sweep(s, right, around, depth)
  {
    hide Sweep;
    next, hit := s, None;
    SweepNone(s, right, around, depth);
    for i := 0 to |around|
      invariant (next, None) == Sweep(s, right, around[..i], depth)
    {
      var b := around[i];
      SweepNext(s, right, around, i, depth);
      if b in right {
        SweepStays(s, right, around, i + 1, depth);
        return next, Some(b);
      }
      if b !in next.depth {
        next := Search(next.depth[b := depth + 1], next.queue + [Item(b, depth + 1)]);
      }
    }
    assert around[..|around|] == around;
  }

  lemma SweepNone(s: Search, right: set<int>, around: seq<int>, depth: nat)
    ensures Sweep(s, right, around[..0], depth) == (s, None)
  {
  }

  lemma SweepNext(s: Search, right: set<int>, around: seq<int>, i: nat, depth: nat)
    requires i < |around|
    ensures var (next, hit) := Sweep(s, right, around[..i], depth);
            var b := around[i];
            Sweep(s, right, around[..i + 1], depth) ==
            if hit.Some? then (next, hit)
            else if b in right then (next, Some(b))
            else if b in next.depth then (next, None)
            else (Search(next.depth[b := depth + 1], next.queue + [Item(b, depth + 1)]), None)
  {
    assert around[..i + 1][..i] == around[..i];
  }

  lemma {:induction false} SweepStays(s: Search, right: set<int>, around: seq<int>, i: nat, depth: nat)
    requires i <= |around| && Sweep(s, right, around[..i], depth).1.Some?
    ensures Sweep(s, right, around, depth) == Sweep(s, right, around[..i], depth)
    decreases |around| - i
  {
    hide Sweep;
    if i == |around| {
      assert around[..i] == around;
    } else {
      SweepNext(s, right, around, i, depth);
      SweepStays(s, right, around, i + 1, depth);
    }
  }

  // ---- How many keys may be in reach ----

  /** No key has been met further out than the next level. */
  predicate Shallow(depth: map<int, nat>, level: nat) {
    forall k :: k in depth ==> depth[k] <= level + 1
  }

  lemma ShallowStart(left: seq<int>)
    ensures Shallow(Start(left).depth, 0)
  {
    StartIs(left);
  }

  lemma ShallowLater(depth: map<int, nat>, level: nat, later: nat)
    requires Shallow(depth, level) && level <= later
    ensures Shallow(depth, later)
  {
  }

  lemma ShallowSwept(was: map<int, nat>, depth: map<int, nat>, level: nat)
    requires Shallow(was, level)
    requires forall k :: k in was ==> k in depth && depth[k] == was[k]
    requires forall k :: k in depth && k !in was ==> depth[k] == level + 1
    ensures Shallow(depth, level)
  {
  }

  lemma InLayer(adj: Graph, left: set<int>, depth: map<int, nat>, level: nat, d: nat)
    requires DepthsOk(adj, left, depth) && Shallow(depth, level) && level < d
    ensures |depth| <= |Layer(adj, left, d)|
  {
    hide Layer;
    forall k | k in depth.Keys ensures k in Layer(adj, left, d) {
      LayerGrows(adj, left, depth[k], d);
    }
    SubsetSize(depth.Keys, Layer(adj, left, d));
    assert |depth| == |depth.Keys|;
  }

  lemma AroundLayer(adj: Graph, left: set<int>, depth: map<int, nat>, level: nat, d: nat)
    requires Full(adj, left, depth, level) && d <= level
    ensures |Layer(adj, left, d)| <= |depth|
    ensures forall k :: k in Layer(adj, left, d) ==> k in depth
  {
    hide Layer;
    LayerGrows(adj, left, d, level);
    forall k | k in Layer(adj, left, d) ensures k in depth {
      assert k in Layer(adj, left, level);
    }
    SubsetSize(Layer(adj, left, d), depth.Keys);
    assert |depth| == |depth.Keys|;
  }

  lemma NoneWanted(adj: Graph, left: set<int>, right: set<int>, d: nat)
    requires forall k :: k in Layer(adj, left, d) ==> k !in right
    ensures !Joined(adj, left, right, d)
  {
    hide Layer;
    hide Joined;
    JoinedIffLayer(adj, left, right, d);
    if Joined(adj, left, right, d) {
      var k := SomeElement(Layer(adj, left, d) * right);
    }
  }

  /** A search that gives up has met everything within any distance that holds no more than 250 keys. */
  lemma GivenUp(adj: Graph, left: set<int>, right: set<int>, s: Search, level: nat, d: nat)
    requires Kept(adj, left, right, s, level) && Shallow(s.depth, level) && |s.depth| > MAX_REL_NODES
    requires |Layer(adj, left, d)| <= MAX_REL_NODES
    ensures !Joined(adj, left, right, d)
  {
    hide *;
    KeptGives(adj, left, right, s, level);
    if level < d {
      InLayer(adj, left, s.depth, level, d);
    } else {
      AroundLayer(adj, left, s.depth, level, d);
      NoneWanted(adj, left, right, d);
    }
  }

  /** What is found lies behind no more than 250 keys: a distance that holds more has it inside. */
  lemma FoundInside(adj: Graph, left: set<int>, right: set<int>, s: Search, a: int, b: int, d: nat)
    requires a in s.depth && Kept(adj, left, right, s, s.depth[a]) && |s.depth| <= MAX_REL_NODES
    requires b in Neighbours(adj, a) && b in right && |Layer(adj, left, d)| > MAX_REL_NODES
    ensures Joined(adj, left, right, d)
  {
    hide *;
    var level := s.depth[a];
    KeptGives(adj, left, right, s, level);
    if d <= level {
      AroundLayer(adj, left, s.depth, level, d);
    } else {
      LayerOf(adj, left, s.depth, a);
      LayerNext(adj, left, level, b);
      LayerGrows(adj, left, level + 1, d);
      JoinedIffLayer(adj, left, right, d);
      assert b in Layer(adj, left, d) * right;
    }
  }

  lemma LayerOf(adj: Graph, left: set<int>, depth: map<int, nat>, k: int)
    requires DepthsOk(adj, left, depth) && k in depth
    ensures k in Layer(adj, left, depth[k])
  {
    hide Layer;
  }

  lemma {:induction false} JoinedLonger(adj: Graph, left: set<int>, right: set<int>, m: nat, n: nat)
    requires m <= n && Joined(adj, left, right, m)
    ensures Joined(adj, left, right, n)
  {
    var p :| Joins(adj, left, right, m, p);
    assert Joins(adj, left, right, n, p);
  }

  lemma NothingFound(adj: Graph, left: set<int>, right: set<int>, s: Search, level: nat, d: nat)
    requires Kept(adj, left, right, s, level) && Shallow(s.depth, level) && Progress(adj, right, s, {})
    requires (s.queue == [] || |s.depth| > MAX_REL_NODES) && d <= MAX_REL_DEPTH
             && |Layer(adj, left, d)| <= MAX_REL_NODES
    ensures !Joined(adj, left, right, d)
  {
    hide *;
    if Joined(adj, left, right, d) {
      JoinedLonger(adj, left, right, d, MAX_REL_DEPTH);
    }
    if s.queue == [] {
      SearchedAll(adj, left, right, s, level);
    } else {
      GivenUp(adj, left, right, s, level, d);
    }
  }

  /** The search proper. What it finds is a short way. A way of `d` edges is found, if not another, when
      no more than 250 keys lie within `d` edges; and nothing is found when more than 250 keys lie within
      a distance that reaches none of the wanted ones. */
  method FindPath(adj: Graph, left: set<int>, right: set<int>) returns (found: Option<(int, int)>)
    requires left * right == {}
    ensures var start := Start(Sorted(left));
            Turns(adj, left, start) >= 0 && found == Walk(adj, right, start, Turns(adj, left, start))
    ensures found.Some? ==> Joined(adj, left, right, MAX_REL_DEPTH) && found.value.1 in right
                            && found.value.1 in Neighbours(adj, found.value.0)
    ensures forall d: nat ::
              (d <= MAX_REL_DEPTH && |Layer(adj, left, d)| <= MAX_REL_NODES && Joined(adj, left, right, d)) ==>
                found.Some?
    ensures forall d: nat :: |Layer(adj, left, d)| > MAX_REL_NODES && !Joined(adj, left, right, d) ==> found.None?
  {
    hide *;
    var s := Start(Sorted(left));
    ghost var level := 0;
    StartKept(adj, left, right);
    StartInside(adj, left, s);
    ShallowStart(Sorted(left));
    TurnsLeft(adj, left, s);
    while s.queue != [] && |s.depth| <= MAX_REL_NODES
      invariant Kept(adj, left, right, s, level) && Progress(adj, right, s, {}) && Shallow(s.depth, level)
      invariant s.depth.Keys <= Universe(adj, left) && Turns(adj, left, s) >= |s.queue|
      invariant Walk(adj, right, s, Turns(adj, left, s)) ==
                Walk(adj, right, Start(Sorted(left)), Turns(adj, left, Start(Sorted(left))))
      decreases Turns(adj, left, s)
    {
      var item, rest := s.queue[0], Search(s.depth, s.queue[1..]);
      TurnsLeft(adj, left, s);
      Popped(adj, left, right, s, level);
      ShallowLater(s.depth, level, item.depth);
      WalkIs(adj, right, s, Turns(adj, left, s));
      TurnTaken(adj, left, s);
      level := item.depth;
      if item.depth >= MAX_REL_DEPTH {
        ExtendsItself(rest);
        Swept(adj, right, rest, rest, item.key);
        TurnsLeft(adj, left, rest);
        s := rest;
      } else {
        var around := Sorted(Neighbours(adj, item.key));
        SweepIs(rest, right, around, item.depth);
        SortedIs(Neighbours(adj, item.key));
        KeptGives(adj, left, right, rest, level);
        var next, hit := SweepAround(rest, right, around, item.depth);
        if hit.Some? {
          Found(adj, left, right, rest.depth, item.key, hit.value);
          FoundInsideAll(adj, left, right, rest, item.key, hit.value);
          return Some((item.key, hit.value));
        }
        SweepKeeps(adj, left, right, rest, level, item.key);
        SweepInside(adj, left, right, rest, item);
        ExtendsGives(rest, next);
        ShallowSwept(rest.depth, next.depth, level);
        Swept(adj, right, rest, next, item.key);
        TurnsSame(adj, left, rest, next);
        TurnsLeft(adj, left, next);
        s := next;
      }
    }
    WalkEnds(adj, right, s, Turns(adj, left, s));
    NothingFoundAll(adj, left, right, s, level);
    return None;
  }

  lemma FoundInsideAll(adj: Graph, left: set<int>, right: set<int>, s: Search, a: int, b: int)
    requires a in s.depth && Kept(adj, left, right, s, s.depth[a]) && |s.depth| <= MAX_REL_NODES
    requires b in Neighbours(adj, a) && b in right
    ensures forall d: nat :: |Layer(adj, left, d)| > MAX_REL_NODES ==> Joined(adj, left, right, d)
  {
    hide *;
    forall d: nat | |Layer(adj, left, d)| > MAX_REL_NODES ensures Joined(adj, left, right, d) {
      FoundInside(adj, left, right, s, a, b, d);
    }
  }

  lemma NothingFoundAll(adj: Graph, left: set<int>, right: set<int>, s: Search, level: nat)
    requires Kept(adj, left, right, s, level) && Shallow(s.depth, level) && Progress(adj, right, s, {})
    requires s.queue == [] || |s.depth| > MAX_REL_NODES
    ensures forall d: nat :: d <= MAX_REL_DEPTH && |Layer(adj, left, d)| <= MAX_REL_NODES ==>
            !Joined(adj, left, right, d)
  {
    hide *;
    forall d: nat | d <= MAX_REL_DEPTH && |Layer(adj, left, d)| <= MAX_REL_NODES ensures !Joined(adj, left, right, d) {
      NothingFound(adj, left, right, s, level, d);
    }
  }

  lemma StartInside(adj: Graph, left: set<int>, s: Search)
    requires s.depth.Keys == left
    ensures s.depth.Keys <= Universe(adj, left)
  {
  }

  lemma TurnTaken(adj: Graph, left: set<int>, s: Search)
    requires s.queue != []
    ensures Turns(adj, left, Search(s.depth, s.queue[1..])) == Turns(adj, left, s) - 1
  {
    hide Universe;
  }

  lemma TurnsSame(adj: Graph, left: set<int>, a: Search, b: Search)
    requires |b.queue| - |a.queue| == |b.depth| - |a.depth|
    ensures Turns(adj, left, a) == Turns(adj, left, b)
  {
    hide Universe;
  }

  lemma ExtendsItself(s: Search)
    ensures Extends(s, s)
  {
  }

  /** `_related` never relates two facts without a reason. It sees a way of `d` edges when no more than
      250 keys lie within `d` edges of the left fact, so with 250 keys within four edges it decides the
      relation; and it misses every way longer than a distance that holds more than 250 keys. */
  method AreRelated(left: set<int>, right: set<int>, index: map<int, set<int>>, adj: Graph) returns (r: Answer)
    ensures r == Verdict(left, right, index, adj)
    ensures r != Unrelated ==> Related(left, right, index, adj)
    ensures |Layer(adj, KeysOf(left, index), MAX_REL_DEPTH)| <= MAX_REL_NODES ==>
              (r != Unrelated <==> Related(left, right, index, adj))
    ensures forall d: nat ::
              (d <= MAX_REL_DEPTH && |Layer(adj, KeysOf(left, index), d)| <= MAX_REL_NODES
               && Joined(adj, KeysOf(left, index), KeysOf(right, index), d)) ==> r != Unrelated
    ensures left * right == {} ==>
              forall d: nat ::
                (|Layer(adj, KeysOf(left, index), d)| > MAX_REL_NODES
                 && !Joined(adj, KeysOf(left, index), KeysOf(right, index), d)) ==> r == Unrelated
  {
    hide Layer;
    hide Joined;
    hide Walk;
    hide Universe;
    hide KeysOf;
    hide Start;
    hide Sorted;
    hide Neighbours;
    hide Turns;
    var shared := left * right;
    if shared != {} {
      return SameEntity(Least(shared));
    }
    var leftKeys, rightKeys := KeysOf(left, index), KeysOf(right, index);
    if leftKeys == {} || rightKeys == {} {
      NobodyJoins(adj, leftKeys, rightKeys);
      return Unrelated;
    }
    var overlap := leftKeys * rightKeys;
    if overlap != {} {
      OverlapJoins(adj, leftKeys, rightKeys, Least(overlap));
      return SameService(Least(overlap));
    }
    var found := FindPath(adj, leftKeys, rightKeys);
    if found.Some? {
      return ViaPath(found.value.0, found.value.1);
    }
    return Unrelated;
  }

  // ---- The adjacency ----

  /** Configured edges, and discovered ones while they are fresh; never inferred or unknown ones. */
  predicate Trusted(e: DependencyGraph.Edge, now: int) {
    e.active && (e.evidence == DependencyGraph.Configured
                 || (e.evidence == DependencyGraph.Discovered && DependencyGraph.IsFresh(e, now)))
  }

  lemma TrustedIff(e: DependencyGraph.Edge, now: int)
    ensures Trusted(e, now) <==>
            e.active && (e.evidence == DependencyGraph.Configured
                         || (e.evidence == DependencyGraph.Discovered && 0 < e.observed && 0 < e.maxAge
                             && now - e.observed <= e.maxAge))
  {
  }

  /** `b` is a neighbour of `a` exactly when a trusted edge joins them, in either direction. */
  ghost predicate Mirrors(adj: Graph, edges: seq<DependencyGraph.Edge>, now: int) {
    forall a, b :: b in Neighbours(adj, a) <==> TrustedBetween(edges, now, a, b)
  }

  predicate TrustedBetween(edges: seq<DependencyGraph.Edge>, now: int, a: int, b: int) {
    exists i :: 0 <= i < |edges| && Trusted(edges[i], now)
                && ((edges[i].source == a && edges[i].target == b) || (edges[i].source == b && edges[i].target == a))
  }

  function WithNeighbour(adj: Graph, a: int, b: int): Graph {
    adj[a := Neighbours(adj, a) + {b}]
  }

  lemma NeighbourAdded(adj: Graph, a: int, b: int, x: int, y: int)
    ensures y in Neighbours(WithNeighbour(adj, a, b), x) <==> y in Neighbours(adj, x) || (x == a && y == b)
  {
  }

  lemma OneMoreEdge(edges: seq<DependencyGraph.Edge>, now: int, i: nat, a: int, b: int)
    requires i < |edges|
    ensures TrustedBetween(edges[..i + 1], now, a, b) <==>
            TrustedBetween(edges[..i], now, a, b)
            || (Trusted(edges[i], now)
                && ((edges[i].source == a && edges[i].target == b) || (edges[i].source == b && edges[i].target == a)))
  {
    hide Trusted;
    var longer, shorter := edges[..i + 1], edges[..i];
    assert longer[i] == edges[i];
    forall j | 0 <= j < i ensures longer[j] == shorter[j] {
    }
  }

  /** The adjacency of `_dependency_context`. */
  method BuildAdjacency(edges: seq<DependencyGraph.Edge>, now: int) returns (adj: Graph)
    ensures Mirrors(adj, edges, now) && Symmetric(adj)
  {
    hide *;
    adj := map[];
    NoEdges(edges, now);
    for i := 0 to |edges|
      invariant Mirrors(adj, edges[..i], now)
    {
      var e := edges[i];
      ghost var was := adj;
      if TrustedNow(e, now) {
        adj := WithNeighbour(adj, e.source, e.target);
        adj := WithNeighbour(adj, e.target, e.source);
      }
      MirrorsMore(was, adj, edges, now, i);
    }
    assert edges[..|edges|] == edges;
    MirrorsBothWays(adj, edges, now);
  }

  predicate TrustedNow(e: DependencyGraph.Edge, now: int)
    ensures TrustedNow(e, now) <==> Trusted(e, now)
  {
    Trusted(e, now)
  }

  lemma NoEdges(edges: seq<DependencyGraph.Edge>, now: int)
    ensures Mirrors(map[], edges[..0], now)
  {
  }

  lemma MirrorsMore(was: Graph, adj: Graph, edges: seq<DependencyGraph.Edge>, now: int, i: nat)
    requires i < |edges| && Mirrors(was, edges[..i], now)
    requires adj == if Trusted(edges[i], now)
                    then WithNeighbour(WithNeighbour(was, edges[i].source, edges[i].target), edges[i].target,
                                       edges[i].source)
                    else was
    ensures Mirrors(adj, edges[..i + 1], now)
  {
    hide Trusted;
    hide TrustedBetween;
    hide WithNeighbour;
    var e := edges[i];
    forall a, b ensures b in Neighbours(adj, a) <==> TrustedBetween(edges[..i + 1], now, a, b) {
      OneMoreEdge(edges, now, i, a, b);
      NeighbourAdded(was, e.source, e.target, a, b);
      NeighbourAdded(WithNeighbour(was, e.source, e.target), e.target, e.source, a, b);
      assert b in Neighbours(was, a) <==> TrustedBetween(edges[..i], now, a, b);
    }
  }

  lemma TrustedBack(edges: seq<DependencyGraph.Edge>, now: int, a: int, b: int)
    requires TrustedBetween(edges, now, a, b)
    ensures TrustedBetween(edges, now, b, a)
  {
  }

  lemma MirrorsBothWays(adj: Graph, edges: seq<DependencyGraph.Edge>, now: int)
    requires Mirrors(adj, edges, now)
    ensures Symmetric(adj)
  {
    hide TrustedBetween;
    forall a, b | a in adj && b in adj[a] ensures b in adj && a in adj[b] {
      assert b in Neighbours(adj, a);
      TrustedBack(edges, now, a, b);
      assert a in Neighbours(adj, b);
    }
  }

  // ---- Beyond the bound ----

  /** A hub with 260 neighbours, one of which leads on to 1000. */
  function Hub(): Graph {
    map k | k in Span(0, 261) + {1000} ::
      if k == 0 then Span(1, 260) else if k == 1 then {0, 1000} else if k == 1000 then {1} else {0}
  }

  function Span(lo: int, n: nat): set<int> {
    if n == 0 then {} else Span(lo, n - 1) + {lo + n - 1}
  }

  lemma {:induction false} SpanIs(lo: int, n: nat, x: int)
    ensures x in Span(lo, n) <==> lo <= x < lo + n
  {
    if n > 0 {
      SpanIs(lo, n - 1, x);
    }
  }

  lemma {:induction false} SpanSize(lo: int, n: nat)
    ensures |Span(lo, n)| == n
  {
    if n > 0 {
      SpanSize(lo, n - 1);
      SpanIs(lo, n - 1, lo + n - 1);
    }
  }

  lemma HubAt(k: int)
    ensures k in Hub() <==> 0 <= k <= 260 || k == 1000
    ensures k in Hub() ==>
              Hub()[k] == if k == 0 then Span(1, 260) else if k == 1 then {0, 1000} else if k == 1000 then {1} else {0}
  {
    SpanIs(0, 261, k);
    hide Span;
  }

  lemma HubIs()
    ensures Neighbours(Hub(), 0) == Span(1, 260) && Neighbours(Hub(), 1) == {0, 1000} && Neighbours(Hub(), 1000) == {1}
  {
    HubAt(0);
    HubAt(1);
    HubAt(1000);
    hide Hub;
    hide Span;
  }

  lemma HubIsSymmetric()
    ensures Symmetric(Hub())
  {
    hide Hub;
    hide Span;
    var adj := Hub();
    forall a, b | a in adj && b in adj[a] ensures b in adj && a in adj[b] {
      HubAt(a);
      HubAt(b);
      SpanIs(1, 260, a);
      SpanIs(1, 260, b);
    }
  }

  lemma SortedOne(k: int)
    ensures Sorted({k}) == [k]
  {
    SortedIs({k});
    assert {k} - {Least({k})} == {};
  }

  /** From the hub, the first turn meets more keys than the search may hold, and it gives up. */
  lemma HubGivesUp(turns: nat)
    ensures Walk(Hub(), {1000}, Search(map[0 := 0], [Item(0, 0)]), turns) == None
  {
    hide *;
    var s := Search(map[0 := 0], [Item(0, 0)]);
    var rest := Search(map[0 := 0], []);
    HubIs();
    BoundsAre();
    var around := Sorted(Span(1, 260));
    SortedIs(Span(1, 260));
    SweepIs(rest, {1000}, around, 0);
    var next := Sweep(rest, {1000}, around, 0).0;
    forall b | b in around ensures b != 1000 {
      SpanIs(1, 260, b);
    }
    forall b | b in Span(1, 260) ensures b in next.depth.Keys {
      assert b in around;
    }
    SpanSize(1, 260);
    SubsetSize(Span(1, 260), next.depth.Keys);
    assert s.queue[1..] == [];
    if turns == 0 {
      NoTurns(Hub(), {1000}, s);
    } else {
      assert |s.depth.Keys| == 1 by { assert s.depth.Keys == {0}; }
      WalkIs(Hub(), {1000}, s, turns);
      WalkEnds(Hub(), {1000}, next, turns - 1);
    }
  }

  lemma NoTurns(adj: Graph, right: set<int>, s: Search)
    ensures Walk(adj, right, s, 0) == None
  {
  }

  lemma BoundsAre()
    ensures MAX_REL_NODES == 250 && MAX_REL_DEPTH == 4
  {
  }

  /** From the other end, the second turn comes upon the hub. */
  lemma HubIsFound(turns: nat)
    requires turns >= 2
    ensures Walk(Hub(), {0}, Search(map[1000 := 0], [Item(1000, 0)]), turns).Some?
  {
    hide *;
    var s := Search(map[1000 := 0], [Item(1000, 0)]);
    var rest := Search(map[1000 := 0], []);
    HubIs();
    BoundsAre();
    SortedOne(1);
    assert s.queue[1..] == [];
    assert |s.depth.Keys| == 1 by { assert s.depth.Keys == {1000}; }
    WalkIs(Hub(), {0}, s, turns);
    SweepOfOne(rest, {0}, 1, 0);
    var second := Search(rest.depth[1 := 1], [Item(1, 1)]);
    assert rest.queue + [Item(1, 1)] == [Item(1, 1)];
    assert |second.depth.Keys| == 2 by { assert second.depth.Keys == {1000, 1}; }
    assert second.queue[1..] == [];
    WalkIs(Hub(), {0}, second, turns - 1);
    SortedIs({0, 1000});
    SweepIs(Search(second.depth, []), {0}, Sorted({0, 1000}), 1);
    var hit := Sweep(Search(second.depth, []), {0}, Sorted({0, 1000}), 1).1;
    assert 0 in Sorted({0, 1000}) && 0 in {0};
    assert hit.Some?;
    assert Walk(Hub(), {0}, second, turns - 1) == Some((1, hit.value));
    assert Walk(Hub(), {0}, s, turns) == Walk(Hub(), {0}, second, turns - 1);
  }

  lemma SweepOfOne(s: Search, right: set<int>, b: int, depth: nat)
    requires b !in right && b !in s.depth
    ensures Sweep(s, right, [b], depth) == (Search(s.depth[b := depth + 1], s.queue + [Item(b, depth + 1)]), None)
  {
    SweepNone(s, right, [b], depth);
    SweepNext(s, right, [b], 0, depth);
    assert [b][..0] == [] && [b][..1] == [b];
    hide Sweep;
  }

  lemma StartOfOne(k: int)
    ensures Start(Sorted({k})) == Search(map[k := 0], [Item(k, 0)])
  {
    SortedOne(k);
    assert [k][..0] == [];
    hide Sorted;
  }

  lemma KeysOfOne(index: map<int, set<int>>, alias: int, key: int)
    requires alias in index && index[alias] == {key}
    ensures KeysOf({alias}, index) == {key}
  {
  }

  lemma UniverseHas(adj: Graph, start: set<int>, a: int, b: int)
    requires a in start && b in Neighbours(adj, a) && a != b
    ensures |Universe(adj, start)| >= 2
  {
    SubsetSize({a, b}, Universe(adj, start));
  }

  lemma VerdictIs(left: set<int>, right: set<int>, index: map<int, set<int>>, adj: Graph, a: int, b: int)
    requires left * right == {} && KeysOf(left, index) == {a} && KeysOf(right, index) == {b} && a != b
    ensures var start := Search(map[a := 0], [Item(a, 0)]);
            var turns := Turns(adj, {a}, start);
            var found := if turns < 0 then None else Walk(adj, {b}, start, turns);
            Verdict(left, right, index, adj) ==
            if found.Some? then ViaPath(found.value.0, found.value.1) else Unrelated
  {
    StartOfOne(a);
    hide Start;
    hide Sorted;
    hide KeysOf;
    hide Walk;
    hide Turns;
  }

  /** Two aliases, one for either end. */
  function Ends(): map<int, set<int>> {
    map[1 := {0}, 2 := {1000}]
  }

  /** Above the bound the answer depends on the order of the two facts, in a symmetric graph too: a way
      of two edges is seen from one end only. */
  lemma OrderMattersBeyondBound()
    ensures Symmetric(Hub()) && Related({1}, {2}, Ends(), Hub())
    ensures Verdict({1}, {2}, Ends(), Hub()) == Unrelated && Verdict({2}, {1}, Ends(), Hub()).ViaPath?
  {
    EndsAre();
    hide *;
    HubIsSymmetric();
    HubIs();
    KeysOfOne(Ends(), 1, 0);
    KeysOfOne(Ends(), 2, 1000);
    VerdictIs({1}, {2}, Ends(), Hub(), 0, 1000);
    VerdictIs({2}, {1}, Ends(), Hub(), 1000, 0);
    var from, back := Search(map[0 := 0], [Item(0, 0)]), Search(map[1000 := 0], [Item(1000, 0)]);
    var turns := Turns(Hub(), {0}, from);
    if turns >= 0 {
      HubGivesUp(turns);
    }
    UniverseHas(Hub(), {1000}, 1000, 1);
    OneTurnEach(Hub(), {1000}, back, 1000);
    HubIsFound(Turns(Hub(), {1000}, back));
    SpanIs(1, 260, 1);
    RelatedByWay({1}, {2}, Ends(), Hub(), [0, 1, 1000]);
  }

  lemma EndsAre()
    ensures 1 in Ends() && Ends()[1] == {0} && 2 in Ends() && Ends()[2] == {1000}
  {
  }

  lemma OneTurnEach(adj: Graph, left: set<int>, s: Search, k: int)
    requires s.depth == map[k := 0] && |s.queue| == 1
    ensures Turns(adj, left, s) == |Universe(adj, left)|
  {
    assert s.depth.Keys == {k};
    hide Universe;
  }

  lemma RelatedByWay(left: set<int>, right: set<int>, index: map<int, set<int>>, adj: Graph, p: seq<int>)
    requires |p| == 3 && p[0] in KeysOf(left, index) && p[2] in KeysOf(right, index)
    requires p[1] in Neighbours(adj, p[0]) && p[2] in Neighbours(adj, p[1])
    ensures Related(left, right, index, adj)
  {
    hide KeysOf;
    assert Joins(adj, KeysOf(left, index), KeysOf(right, index), MAX_REL_DEPTH, p);
  }
}
