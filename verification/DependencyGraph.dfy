/** The bounded service dependency search of dependencies.py.

    The two tables are a set of existing entities and a list of edges in the order of the query. Keys
    are compared for equality only. Times are integers. */
module DependencyGraph {
  import opened Common

  type Key = nat

  const HARD_MAX_DEPTH := 8
  const HARD_MAX_NODES := 250
  const HARD_MAX_EDGES := 1000
  const QUERY_LIMIT := 2000

  datatype Evidence = Configured | Discovered | Inferred | Unknown
  datatype Age = AgeConfigured | AgeFresh | AgeStale | AgeUnknown | AgeInactive
  datatype Edge = Edge(id: nat, source: Key, target: Key, evidence: Evidence, active: bool, observed: int, maxAge: int)
  datatype Options = Options(inferred: bool, stale: bool, now: int)
  datatype Tables = Tables(entities: set<Key>, edges: seq<Edge>)

  // ---- Which edges may be followed ----

  /** `_freshness` */
  function AgeOf(e: Edge, now: int): Age {
    if !e.active then AgeInactive
    else if e.evidence == Configured then AgeConfigured
    else if e.evidence == Unknown || e.observed <= 0 || e.maxAge <= 0 then AgeUnknown
    else if (if now - e.observed > 0 then now - e.observed else 0) <= e.maxAge then AgeFresh
    else AgeStale
  }

  predicate IsFresh(e: Edge, now: int) {
    AgeOf(e, now) == AgeConfigured || AgeOf(e, now) == AgeFresh
  }

  datatype Reason =
    | Followed
    | Inactive
    | UnknownEvidence
    | InferredNeedsOptIn
    | Stale
    | NotFresh(age: Age)
    | AlreadyVisited
    | MissingTarget

  /** `_traversable`: `Followed`, or why not. */
  function Excluded(e: Edge, o: Options): Reason {
    if !e.active then Inactive
    else if e.evidence == Unknown then UnknownEvidence
    else if e.evidence == Inferred && !o.inferred then InferredNeedsOptIn
    else if AgeOf(e, o.now) == AgeStale && !o.stale then Stale
    else if (e.evidence == Discovered || e.evidence == Inferred) && !IsFresh(e, o.now) && !o.stale then
      NotFresh(AgeOf(e, o.now))
    else Followed
  }

  predicate Traversable(e: Edge, o: Options) {
    Excluded(e, o) == Followed
  }

  /** The policy in one line: configured evidence always counts, inferred evidence only on request, and
      observed evidence only while it is fresh or when stale evidence is asked for. */
  lemma TraversableIff(e: Edge, o: Options)
    ensures Traversable(e, o) <==>
            e.active && (e.evidence == Configured
                         || ((e.evidence == Discovered || (e.evidence == Inferred && o.inferred))
                             && (o.stale || (0 < e.observed && 0 < e.maxAge && o.now - e.observed <= e.maxAge))))
  {
  }

  /** Every reason is given in one case only: the edge is off; its evidence is unknown; it is inferred and
      not asked for; it was observed and its time has run out; it was observed and has no time. */
  lemma ReasonIff(e: Edge, o: Options)
    ensures Excluded(e, o) == Inactive <==> !e.active
    ensures Excluded(e, o) == UnknownEvidence <==> e.active && e.evidence == Unknown
    ensures Excluded(e, o) == InferredNeedsOptIn <==> e.active && e.evidence == Inferred && !o.inferred
    ensures Excluded(e, o) == Stale <==>
            && e.active && (e.evidence == Discovered || (e.evidence == Inferred && o.inferred)) && !o.stale
            && 0 < e.observed && 0 < e.maxAge && o.now - e.observed > e.maxAge
    ensures Excluded(e, o).NotFresh? <==>
            && e.active && (e.evidence == Discovered || (e.evidence == Inferred && o.inferred)) && !o.stale
            && !(0 < e.observed && 0 < e.maxAge)
    ensures Excluded(e, o).NotFresh? ==> Excluded(e, o).age == AgeUnknown
    ensures Excluded(e, o) != AlreadyVisited && Excluded(e, o) != MissingTarget
  {
  }

  // ---- Bounded reachability ----

  /** An edge that leads to an existing entity and may be followed. */
  predicate Usable(t: Tables, o: Options, e: Edge) {
    e in t.edges && Traversable(e, o) && e.target in t.entities
  }

  /** The keys that at most `n` usable edges lead to. */
  ghost function Ball(t: Tables, o: Options, root: Key, n: nat): set<Key> {
    if n == 0 then {root}
    else Ball(t, o, root, n - 1)
         + (set e | e in t.edges && Usable(t, o, e) && e.source in Ball(t, o, root, n - 1) :: e.target)
  }

  lemma BallNext(t: Tables, o: Options, root: Key, n: nat, k: Key)
    ensures k in Ball(t, o, root, n + 1) <==>
            k in Ball(t, o, root, n)
            || exists e :: Usable(t, o, e) && e.source in Ball(t, o, root, n) && e.target == k
  {
    hide Traversable;
    hide Ball;
    BallUnfold(t, o, root, n);
    var reached := set e | e in t.edges && Usable(t, o, e) && e.source in Ball(t, o, root, n) :: e.target;
    if e: Edge :| Usable(t, o, e) && e.source in Ball(t, o, root, n) && e.target == k {
      assert e.target in reached;
    }
  }

  lemma BallUnfold(t: Tables, o: Options, root: Key, n: nat)
    ensures Ball(t, o, root, n + 1) ==
            Ball(t, o, root, n)
            + (set e | e in t.edges && Usable(t, o, e) && e.source in Ball(t, o, root, n) :: e.target)
    ensures Ball(t, o, root, 0) == {root}
  {
    hide Usable;
  }

  lemma BallStep(t: Tables, o: Options, root: Key, n: nat, e: Edge)
    requires Usable(t, o, e) && e.source in Ball(t, o, root, n)
    ensures e.target in Ball(t, o, root, n + 1)
  {
    hide *;
    BallNext(t, o, root, n, e.target);
  }

  lemma {:induction false} BallGrows(t: Tables, o: Options, root: Key, m: nat, n: nat)
    requires m <= n
    ensures Ball(t, o, root, m) <= Ball(t, o, root, n)
    decreases n
  {
    hide *;
    if m < n {
      BallGrows(t, o, root, m, n - 1);
      BallUnfold(t, o, root, n - 1);
    }
  }

  // ---- Reachability by paths, for reference ----

  /** Every key is joined to the next by a usable edge. */
  ghost predicate Path(t: Tables, o: Options, p: seq<Key>) {
    |p| > 0 && forall i :: 0 <= i < |p| - 1 ==> Linked(t, o, p[i], p[i + 1])
  }

  ghost predicate Linked(t: Tables, o: Options, a: Key, b: Key) {
    exists e :: Usable(t, o, e) && e.source == a && e.target == b
  }

  lemma {:induction false} PathInBall(t: Tables, o: Options, p: seq<Key>, n: nat)
    requires Path(t, o, p) && |p| - 1 <= n
    ensures p[|p| - 1] in Ball(t, o, p[0], n)
    decreases |p|
  {
    hide Usable;
    hide Ball;
    BallUnfold(t, o, p[0], 0);
    if |p| == 1 {
      BallGrows(t, o, p[0], 0, n);
    } else {
      var q := p[..|p| - 1];
      PathInBall(t, o, q, n - 1);
      assert Linked(t, o, p[|p| - 2], p[|p| - 2 + 1]);
      var e :| Usable(t, o, e) && e.source == p[|p| - 2] && e.target == p[|p| - 1];
      BallStep(t, o, p[0], n - 1, e);
    }
  }

  lemma {:induction false} BallHasPath(t: Tables, o: Options, root: Key, n: nat, k: Key) returns (p: seq<Key>)
    requires k in Ball(t, o, root, n)
    ensures Path(t, o, p) && |p| - 1 <= n && p[0] == root && p[|p| - 1] == k
    decreases n
  {
    hide Usable;
    hide Ball;
    if n == 0 {
      BallUnfold(t, o, root, 0);
      p := [root];
    } else {
      BallNext(t, o, root, n - 1, k);
      if k in Ball(t, o, root, n - 1) {
        p := BallHasPath(t, o, root, n - 1, k);
      } else {
        var e :| Usable(t, o, e) && e.source in Ball(t, o, root, n - 1) && e.target == k;
        var q := BallHasPath(t, o, root, n - 1, e.source);
        p := q + [k];
        forall i | 0 <= i < |p| - 1 ensures Linked(t, o, p[i], p[i + 1]) {
          if i < |q| - 1 {
            assert Linked(t, o, q[i], q[i + 1]);
          }
        }
      }
    }
  }

  // ---- The search ----

  datatype Item = Item(key: Key, depth: nat, ancestors: set<Key>)
  datatype Mark = Mark(edge: Edge, traversed: bool, cycle: bool, reason: Reason)
  datatype Cut = NoCut | MaxEdges | MaxNodes

  /** Active edges of one source, as the query delivers them. */
  function Matching(edges: seq<Edge>, source: Key): seq<Edge> {
    if edges == [] then []
    else (if edges[0].active && edges[0].source == source then [edges[0]] else []) + Matching(edges[1..], source)
  }

  function Outgoing(t: Tables, source: Key): seq<Edge> {
    var all := Matching(t.edges, source);
    if |all| > QUERY_LIMIT then all[..QUERY_LIMIT] else all
  }

  lemma {:induction false} MatchingIs(edges: seq<Edge>, source: Key, e: Edge)
    ensures e in Matching(edges, source) <==> e in edges && e.active && e.source == source
  {
    if edges != [] {
      MatchingIs(edges[1..], source, e);
      assert e in edges <==> e == edges[0] || e in edges[1..];
    }
  }

  lemma MatchingHead(edges: seq<Edge>, k: Key)
    requires edges != []
    ensures Matching(edges, k) ==
            (if edges[0].active && edges[0].source == k then [edges[0]] else []) + Matching(edges[1..], k)
  {
  }

  lemma {:induction false} MatchingJoins(a: seq<Edge>, b: seq<Edge>, k: Key)
    ensures Matching(a + b, k) == Matching(a, k) + Matching(b, k)
  {
    hide *;
    if a == [] {
      NothingMatches(k);
      assert a + b == b;
    } else {
      MatchingJoins(a[1..], b, k);
      assert (a + b)[1..] == a[1..] + b && (a + b)[0] == a[0];
      MatchingHead(a + b, k);
      MatchingHead(a, k);
    }
  }

  lemma NothingMatches(k: Key)
    ensures Matching([], k) == []
  {
  }

  lemma {:induction false} MatchingOfMatching(edges: seq<Edge>, k: Key, j: Key)
    ensures Matching(Matching(edges, k), j) == if j == k then Matching(edges, k) else []
  {
    if edges != [] {
      MatchingOfMatching(edges[1..], k, j);
      if edges[0].active && edges[0].source == k {
        assert Matching(edges, k)[1..] == Matching(edges[1..], k);
      } else {
        assert Matching(edges, k) == Matching(edges[1..], k);
      }
    }
  }

  /** Every node exists, and its depth is its distance from the root. */
  ghost predicate Sound(t: Tables, o: Options, root: Key, limit: nat, nodes: map<Key, nat>) {
    && root in nodes && nodes[root] == 0
    && forall k :: k in nodes ==>
         && k in t.entities && nodes[k] <= limit && k in Ball(t, o, root, nodes[k])
         && (nodes[k] > 0 ==> k !in Ball(t, o, root, nodes[k] - 1))
  }

  /** What is within `n` has been found. */
  ghost predicate Full(t: Tables, o: Options, root: Key, nodes: map<Key, nat>, n: nat) {
    forall k :: k in Ball(t, o, root, n) ==> k in nodes
  }

  /** Everything one step from `k` has been found. */
  ghost predicate Done(t: Tables, o: Options, nodes: map<Key, nat>, k: Key) {
    forall e :: Usable(t, o, e) && e.source == k ==> e.target in nodes
  }

  /** A new key one step from a node of the last full level is at its distance. */
  lemma AddIsSound(t: Tables, o: Options, root: Key, limit: nat, nodes: map<Key, nat>, e: Edge)
    requires Sound(t, o, root, limit, nodes) && Usable(t, o, e) && e.source in nodes && e.target !in nodes
    requires nodes[e.source] < limit && Full(t, o, root, nodes, nodes[e.source])
    ensures Sound(t, o, root, limit, nodes[e.target := nodes[e.source] + 1])
  {
    hide Ball;
    hide Traversable;
    BallStep(t, o, root, nodes[e.source], e);
  }

  /** Once the nodes of a full level are done, the next level is full. */
  lemma NextLevelFull(t: Tables, o: Options, root: Key, limit: nat, nodes: map<Key, nat>, n: nat)
    requires Sound(t, o, root, limit, nodes) && Full(t, o, root, nodes, n)
    requires forall k :: k in nodes && nodes[k] <= n ==> Done(t, o, nodes, k)
    ensures Full(t, o, root, nodes, n + 1)
  {
    hide Ball;
    hide Usable;
    forall k | k in Ball(t, o, root, n + 1) ensures k in nodes {
      BallNext(t, o, root, n, k);
      if k !in Ball(t, o, root, n) {
        var e :| Usable(t, o, e) && e.source in Ball(t, o, root, n) && e.target == k;
        DepthInBall(t, o, root, limit, nodes, n, e.source);
        assert Done(t, o, nodes, e.source);
      }
    }
  }

  lemma DepthInBall(t: Tables, o: Options, root: Key, limit: nat, nodes: map<Key, nat>, n: nat, k: Key)
    requires Sound(t, o, root, limit, nodes) && k in nodes && k in Ball(t, o, root, n)
    ensures nodes[k] <= n
  {
    hide Ball;
    if nodes[k] > n {
      BallGrows(t, o, root, n, nodes[k] - 1);
      assert false;
    }
  }

  /** With every node below the limit done, the nodes are what the limit allows. */
  lemma {:induction false} AllFull(t: Tables, o: Options, root: Key, limit: nat, nodes: map<Key, nat>, n: nat)
    requires Sound(t, o, root, limit, nodes) && n <= limit
    requires forall k :: k in nodes && nodes[k] < limit ==> Done(t, o, nodes, k)
    ensures Full(t, o, root, nodes, n)
    decreases n
  {
    hide *;
    if n == 0 {
      NoneFull(t, o, root, limit, nodes);
    } else {
      AllFull(t, o, root, limit, nodes, n - 1);
      NextLevelFull(t, o, root, limit, nodes, n - 1);
    }
  }

  lemma NoneFull(t: Tables, o: Options, root: Key, limit: nat, nodes: map<Key, nat>)
    requires Sound(t, o, root, limit, nodes)
    ensures Full(t, o, root, nodes, 0)
  {
    BallUnfold(t, o, root, 0);
  }

  // ---- What the search keeps ----

  /** The search so far: the depth of every node, the edges reported, the items waiting. */
  datatype Search = Search(nodes: map<Key, nat>, marks: seq<Mark>, queue: seq<Item>, cycles: nat)

  /** The edges by which nodes were found. */
  function Tree(marks: seq<Mark>): seq<Edge> {
    if marks == [] then []
    else Tree(marks[..|marks| - 1]) + (if marks[|marks| - 1].traversed then [marks[|marks| - 1].edge] else [])
  }

  /** A spanning tree: every node but the root has exactly one parent, one level up. */
  ghost predicate SpanningTree(root: Key, nodes: map<Key, nat>, tree: seq<Edge>) {
    && |tree| + 1 == |nodes|
    && (forall i :: 0 <= i < |tree| ==> ParentAbove(nodes, tree[i]))
    && (forall i, j :: 0 <= i < j < |tree| ==> tree[i].target != tree[j].target)
    && (forall k :: k in nodes && k != root ==> HasParent(tree, k))
  }

  predicate ParentAbove(nodes: map<Key, nat>, e: Edge) {
    e.source in nodes && e.target in nodes && nodes[e.target] == nodes[e.source] + 1
  }

  predicate HasParent(tree: seq<Edge>, k: Key) {
    exists i :: 0 <= i < |tree| && tree[i].target == k
  }

  function CountCycles(marks: seq<Mark>, o: Options): nat {
    if marks == [] then 0
    else
      var m := marks[|marks| - 1];
      CountCycles(marks[..|marks| - 1], o) + (if m.cycle && Traversable(m.edge, o) then 1 else 0)
  }

  /** A reported edge leaves a node above the limit and says truly whether and why it was followed; an
      edge called a cycle closes one. When exactly an edge is called a cycle, `CyclesOk` says. */
  ghost predicate MarkOk(t: Tables, o: Options, limit: nat, nodes: map<Key, nat>, m: Mark) {
    var e := m.edge;
    && e in t.edges && e.active && e.source in nodes && nodes[e.source] < limit
    && (!Traversable(e, o) ==> !m.traversed && m.reason == Excluded(e, o))
    && (m.traversed ==> Usable(t, o, e) && !m.cycle && m.reason == Followed)
    && (Traversable(e, o) && !m.traversed && !m.cycle ==>
          if e.target in t.entities then m.reason == AlreadyVisited && e.target in nodes else m.reason == MissingTarget)
    && (Traversable(e, o) && m.cycle ==> m.reason == Followed)
    && (m.cycle ==> Closes(t, o, nodes, e.source, e.target))
  }

  // ---- Ways of followed edges ----

  predicate Joined(tree: seq<Edge>, a: Key, b: Key) {
    exists i :: 0 <= i < |tree| && tree[i].source == a && tree[i].target == b
  }

  ghost predicate Way(tree: seq<Edge>, p: seq<Key>) {
    |p| > 0 && forall i :: 0 <= i < |p| - 1 ==> Joined(tree, p[i], p[i + 1])
  }

  /** `a` is `k`, or lies on the way of followed edges to `k`. */
  ghost predicate Leads(tree: seq<Edge>, a: Key, k: Key) {
    exists p :: Way(tree, p) && p[0] == a && p[|p| - 1] == k
  }

  /** An edge is called a cycle exactly when its target lies on the way to its source. */
  ghost predicate CyclesOk(tree: seq<Edge>, marks: seq<Mark>) {
    forall i :: 0 <= i < |marks| ==> (marks[i].cycle <==> Leads(tree, marks[i].edge.target, marks[i].edge.source))
  }

  /** The ancestors of an item are the keys on the way to it. */
  ghost predicate KnowsWay(tree: seq<Edge>, item: Item) {
    forall a :: a in item.ancestors <==> Leads(tree, a, item.key)
  }

  ghost predicate QueueKnows(tree: seq<Edge>, queue: seq<Item>) {
    forall i :: 0 <= i < |queue| ==> KnowsWay(tree, queue[i])
  }

  /** The edge leads from the tree to a key the tree does not know. */
  ghost predicate Sprouts(tree: seq<Edge>, e: Edge) {
    e.source != e.target && forall i :: 0 <= i < |tree| ==> tree[i].source != e.target && tree[i].target != e.target
  }

  lemma JoinedNext(tree: seq<Edge>, e: Edge, a: Key, b: Key)
    ensures Joined(tree + [e], a, b) <==> Joined(tree, a, b) || (a == e.source && b == e.target)
  {
    var longer := tree + [e];
    if Joined(tree, a, b) {
      var i :| 0 <= i < |tree| && tree[i].source == a && tree[i].target == b;
      assert longer[i].source == a;
    }
    if a == e.source && b == e.target {
      assert longer[|tree|].source == a;
    }
  }

  lemma WayNext(tree: seq<Edge>, e: Edge, p: seq<Key>)
    requires Sprouts(tree, e) && Way(tree + [e], p) && p[|p| - 1] != e.target
    ensures Way(tree, p)
  {
    forall i | 0 <= i < |p| - 1 ensures Joined(tree, p[i], p[i + 1]) {
      JoinedNext(tree, e, p[i], p[i + 1]);
      if p[i + 1] == e.target {
        JoinedNext(tree, e, p[i + 1], p[i + 2]);
        assert false;
      }
    }
  }

  lemma WayStays(tree: seq<Edge>, e: Edge, p: seq<Key>)
    requires Way(tree, p)
    ensures Way(tree + [e], p)
  {
    forall i | 0 <= i < |p| - 1 ensures Joined(tree + [e], p[i], p[i + 1]) {
      JoinedNext(tree, e, p[i], p[i + 1]);
    }
  }

  /** A new edge of the tree leaves every known way as it is, and its target is reached through its
      source alone. */
  lemma LeadsNext(tree: seq<Edge>, e: Edge, a: Key, k: Key)
    requires Sprouts(tree, e)
    ensures Leads(tree + [e], a, k) <==>
            if k == e.target then a == k || Leads(tree, a, e.source) else Leads(tree, a, k)
  {
    hide Joined;
    hide Sprouts;
    if Leads(tree + [e], a, k) {
      var p :| Way(tree + [e], p) && p[0] == a && p[|p| - 1] == k;
      if k != e.target {
        WayNext(tree, e, p);
      } else if |p| > 1 {
        LastStep(tree, e, p);
      }
    }
    if k != e.target && Leads(tree, a, k) {
      var p :| Way(tree, p) && p[0] == a && p[|p| - 1] == k;
      WayStays(tree, e, p);
    }
    if k == e.target && a == k {
      assert Way(tree + [e], [a]);
      assert [a][0] == a && [a][|[a]| - 1] == k;
    } else if k == e.target && Leads(tree, a, e.source) {
      var p :| Way(tree, p) && p[0] == a && p[|p| - 1] == e.source;
      WayStays(tree, e, p);
      WayOn(tree, e, p);
    }
  }

  lemma LastStep(tree: seq<Edge>, e: Edge, p: seq<Key>)
    requires Sprouts(tree, e) && Way(tree + [e], p) && |p| > 1 && p[|p| - 1] == e.target
    ensures Leads(tree, p[0], e.source)
  {
    var q := p[..|p| - 1];
    JoinedNext(tree, e, p[|p| - 2], p[|p| - 2 + 1]);
    assert p[|p| - 2] == e.source;
    assert Way(tree + [e], q) by {
      hide Joined;
      forall i | 0 <= i < |q| - 1 ensures Joined(tree + [e], q[i], q[i + 1]) {
        assert Joined(tree + [e], p[i], p[i + 1]);
      }
    }
    WayNext(tree, e, q);
    assert q[0] == p[0] && q[|q| - 1] == e.source;
  }

  lemma WayOn(tree: seq<Edge>, e: Edge, p: seq<Key>)
    requires Way(tree + [e], p) && p[|p| - 1] == e.source
    ensures Leads(tree + [e], p[0], e.target)
  {
    hide Joined;
    var q := p + [e.target];
    JoinedNext(tree, e, e.source, e.target);
    forall i | 0 <= i < |q| - 1 ensures Joined(tree + [e], q[i], q[i + 1]) {
      if i < |p| - 1 {
        assert Joined(tree + [e], p[i], p[i + 1]);
      }
    }
    assert q[0] == p[0] && q[|q| - 1] == e.target;
  }

  /** Without edges only the key itself leads to a key. */
  lemma NoWay(a: Key, k: Key)
    ensures Leads([], a, k) <==> a == k
  {
    if a == k {
      assert Way([], [a]);
      assert [a][0] == a && [a][|[a]| - 1] == k;
    }
    if Leads([], a, k) {
      var p :| Way([], p) && p[0] == a && p[|p| - 1] == k;
      if |p| > 1 {
        assert Joined([], p[0], p[0 + 1]);
      }
    }
  }

  lemma NewKeySprouts(root: Key, nodes: map<Key, nat>, tree: seq<Edge>, e: Edge)
    requires SpanningTree(root, nodes, tree) && e.source in nodes && e.target !in nodes
    ensures Sprouts(tree, e)
  {
    forall i | 0 <= i < |tree| ensures tree[i].source != e.target && tree[i].target != e.target {
      assert ParentAbove(nodes, tree[i]);
    }
  }

  lemma KnowsStill(tree: seq<Edge>, e: Edge, item: Item)
    requires Sprouts(tree, e) && KnowsWay(tree, item) && item.key != e.target
    ensures KnowsWay(tree + [e], item)
  {
    hide Leads;
    hide Sprouts;
    forall a ensures a in item.ancestors <==> Leads(tree + [e], a, item.key) {
      LeadsNext(tree, e, a, item.key);
    }
  }

  /** The item of a new node knows the way to it. */
  lemma KnowsMore(tree: seq<Edge>, e: Edge, item: Item, added: Item)
    requires Sprouts(tree, e) && KnowsWay(tree, item) && item.key == e.source
    requires added.key == e.target && added.ancestors == item.ancestors + {e.target}
    ensures KnowsWay(tree + [e], added)
  {
    hide Leads;
    hide Sprouts;
    forall a ensures a in added.ancestors <==> Leads(tree + [e], a, added.key) {
      LeadsNext(tree, e, a, added.key);
    }
  }

  lemma QueueKnowsMore(tree: seq<Edge>, e: Edge, queue: seq<Item>, item: Item, added: Item)
    requires Sprouts(tree, e) && KnowsWay(tree, item) && item.key == e.source && QueueKnows(tree, queue)
    requires forall i :: 0 <= i < |queue| ==> queue[i].key != e.target
    requires added.key == e.target && added.ancestors == item.ancestors + {e.target}
    ensures QueueKnows(tree + [e], queue + [added])
  {
    hide KnowsWay;
    hide Sprouts;
    KnowsMore(tree, e, item, added);
    forall i | 0 <= i < |queue| ensures KnowsWay(tree + [e], queue[i]) {
      KnowsStill(tree, e, queue[i]);
    }
  }

  /** A followed edge closes no cycle, and none of the edges before it changes its name. */
  lemma CyclesKept(tree: seq<Edge>, marks: seq<Mark>, m: Mark, item: Item)
    requires CyclesOk(tree, marks) && Sprouts(tree, m.edge) && KnowsWay(tree, item) && item.key == m.edge.source
    requires m.edge.target !in item.ancestors && !m.cycle
    requires forall i :: 0 <= i < |marks| ==> marks[i].edge.source != m.edge.target
    ensures CyclesOk(tree + [m.edge], marks + [m])
  {
    hide Leads;
    forall i | 0 <= i < |marks + [m]|
      ensures (marks + [m])[i].cycle
              <==> Leads(tree + [m.edge], (marks + [m])[i].edge.target, (marks + [m])[i].edge.source)
    {
      LeadsNext(tree, m.edge, (marks + [m])[i].edge.target, (marks + [m])[i].edge.source);
    }
  }

  lemma CyclesMore(tree: seq<Edge>, marks: seq<Mark>, m: Mark, item: Item)
    requires CyclesOk(tree, marks) && KnowsWay(tree, item) && item.key == m.edge.source
    requires m.cycle <==> m.edge.target in item.ancestors
    ensures CyclesOk(tree, marks + [m])
  {
    hide Leads;
  }

  lemma MarkSourcesKnown(t: Tables, o: Options, limit: nat, nodes: map<Key, nat>, marks: seq<Mark>)
    requires MarksOk(t, o, limit, nodes, marks)
    ensures forall i :: 0 <= i < |marks| ==> marks[i].edge.source in nodes
  {
    hide Traversable;
    hide Closes;
    forall i | 0 <= i < |marks| ensures marks[i].edge.source in nodes {
      assert MarkOk(t, o, limit, nodes, marks[i]);
    }
  }

  lemma QueueKeysKnown(t: Tables, o: Options, nodes: map<Key, nat>, level: nat, queue: seq<Item>)
    requires QueueOk(t, o, nodes, level, queue)
    ensures forall i :: 0 <= i < |queue| ==> queue[i].key in nodes
  {
    hide Closes;
    forall i | 0 <= i < |queue| ensures queue[i].key in nodes {
      assert ItemOk(t, o, nodes, level, queue[i]);
    }
  }

  // ---- What the search keeps, together ----

  /** `a` lies on a way from the root to `k`. */
  ghost predicate Closes(t: Tables, o: Options, nodes: map<Key, nat>, k: Key, a: Key) {
    k in nodes && a in nodes && nodes[a] <= nodes[k] && k in Ball(t, o, a, nodes[k] - nodes[a])
  }

  ghost predicate ItemOk(t: Tables, o: Options, nodes: map<Key, nat>, level: nat, item: Item) {
    && item.key in nodes && nodes[item.key] == item.depth && level <= item.depth <= level + 1
    && forall a :: a in item.ancestors ==> Closes(t, o, nodes, item.key, a)
  }

  ghost predicate QueueOk(t: Tables, o: Options, nodes: map<Key, nat>, level: nat, queue: seq<Item>) {
    && (forall i :: 0 <= i < |queue| ==> ItemOk(t, o, nodes, level, queue[i]))
    && (forall i, j :: 0 <= i < j < |queue| ==> queue[i].depth <= queue[j].depth)
  }

  ghost predicate MarksOk(t: Tables, o: Options, limit: nat, nodes: map<Key, nat>, marks: seq<Mark>) {
    forall i :: 0 <= i < |marks| ==> MarkOk(t, o, limit, nodes, marks[i])
  }

  ghost predicate Extends(a: map<Key, nat>, b: map<Key, nat>) {
    forall k :: k in a ==> k in b && b[k] == a[k]
  }

  lemma QueueKept(t: Tables, o: Options, a: map<Key, nat>, b: map<Key, nat>, level: nat, queue: seq<Item>)
    requires QueueOk(t, o, a, level, queue) && Extends(a, b)
    ensures QueueOk(t, o, b, level, queue)
  {
    hide Ball;
    forall i | 0 <= i < |queue| ensures ItemOk(t, o, b, level, queue[i]) {
      assert ItemOk(t, o, a, level, queue[i]);
    }
  }

  lemma MarksKept(t: Tables, o: Options, limit: nat, a: map<Key, nat>, b: map<Key, nat>, marks: seq<Mark>)
    requires MarksOk(t, o, limit, a, marks) && Extends(a, b)
    ensures MarksOk(t, o, limit, b, marks)
  {
    hide Ball;
    hide Excluded;
    forall i | 0 <= i < |marks| ensures MarkOk(t, o, limit, b, marks[i]) {
      assert MarkOk(t, o, limit, a, marks[i]);
    }
  }

  lemma TreeGrows(root: Key, nodes: map<Key, nat>, tree: seq<Edge>, e: Edge)
    requires SpanningTree(root, nodes, tree) && e.source in nodes && e.target !in nodes
    ensures SpanningTree(root, nodes[e.target := nodes[e.source] + 1], tree + [e])
  {
    var more, longer := nodes[e.target := nodes[e.source] + 1], tree + [e];
    OneMore(nodes, e.target, nodes[e.source] + 1);
    hide HasParent;
    forall i | 0 <= i < |tree| ensures ParentAbove(more, tree[i]) && tree[i].target != e.target {
      assert ParentAbove(nodes, tree[i]);
    }
    forall k | k in more && k != root ensures HasParent(longer, k) {
      ParentStays(tree, e, k);
    }
  }

  lemma ParentStays(tree: seq<Edge>, e: Edge, k: Key)
    requires HasParent(tree, k) || k == e.target
    ensures HasParent(tree + [e], k)
  {
    var longer := tree + [e];
    if k == e.target {
      assert longer[|tree|].target == k;
    } else {
      var i :| 0 <= i < |tree| && tree[i].target == k;
      assert longer[i].target == k;
    }
  }

  /** Everything the search keeps while it works on the nodes of one level. */
  ghost predicate Kept(t: Tables, o: Options, root: Key, limit: nat, most: nat, s: Search, level: nat) {
    && Sound(t, o, root, limit, s.nodes) && Full(t, o, root, s.nodes, level)
    && |s.nodes| <= most && |s.marks| <= HARD_MAX_EDGES
    && SpanningTree(root, s.nodes, Tree(s.marks)) && MarksOk(t, o, limit, s.nodes, s.marks)
    && QueueOk(t, o, s.nodes, level, s.queue) && s.cycles == CountCycles(s.marks, o)
    && QueueKnows(Tree(s.marks), s.queue) && CyclesOk(Tree(s.marks), s.marks)
  }

  // ---- One edge ----

  /** The loop body for one outgoing edge. */
  function Visit(t: Tables, o: Options, most: nat, item: Item, s: Search, e: Edge): (Search, Cut) {
    var excluded := Excluded(e, o);
    var traversable := excluded == Followed;
    var cycle := e.target in item.ancestors;
    var seen := e.target in s.nodes;
    var cycles := if cycle && traversable then s.cycles + 1 else s.cycles;
    var reason := if traversable && seen && !cycle then AlreadyVisited else excluded;
    var mark := Mark(e, traversable && !cycle && !seen, cycle, reason);
    var marked := s.(marks := s.marks + [mark], cycles := cycles);
    if !traversable || cycle || seen then (marked, NoCut)
    else if |s.nodes| >= most then (marked, MaxNodes)
    else if e.target !in t.entities then
      (marked.(marks := s.marks + [mark.(traversed := false, reason := MissingTarget)]), NoCut)
    else
      (marked.(nodes := s.nodes[e.target := item.depth + 1],
               queue := s.queue + [Item(e.target, item.depth + 1, item.ancestors + {e.target})]), NoCut)
  }

  /** The item in hand: a node of the current level, above the limit. */
  ghost predicate InHand(t: Tables, o: Options, limit: nat, s: Search, level: nat, item: Item) {
    ItemOk(t, o, s.nodes, level, item) && item.depth == level < limit && KnowsWay(Tree(s.marks), item)
  }

  lemma MarkAdded(marks: seq<Mark>, m: Mark, o: Options)
    ensures Tree(marks + [m]) == Tree(marks) + (if m.traversed then [m.edge] else [])
    ensures CountCycles(marks + [m], o) ==
            CountCycles(marks, o) + (if m.cycle && Traversable(m.edge, o) then 1 else 0)
  {
    hide Traversable;
    assert (marks + [m])[..|marks|] == marks;
  }

  lemma MarksAdded(t: Tables, o: Options, limit: nat, nodes: map<Key, nat>, marks: seq<Mark>, m: Mark)
    requires MarksOk(t, o, limit, nodes, marks) && MarkOk(t, o, limit, nodes, m)
    ensures MarksOk(t, o, limit, nodes, marks + [m])
  {
    hide MarkOk;
  }

  /** One edge keeps everything, unless the node limit cuts the search short. */
  lemma VisitKeeps(t: Tables, o: Options, root: Key, limit: nat, most: nat, item: Item, s: Search, e: Edge, level: nat)
    requires Kept(t, o, root, limit, most, s, level) && InHand(t, o, limit, s, level, item)
    requires e in t.edges && e.active && e.source == item.key && |s.marks| < HARD_MAX_EDGES
    requires Visit(t, o, most, item, s, e).1 == NoCut
    ensures var next := Visit(t, o, most, item, s, e).0;
            && Kept(t, o, root, limit, most, next, level) && InHand(t, o, limit, next, level, item)
            && Extends(s.nodes, next.nodes) && (Usable(t, o, e) ==> e.target in next.nodes)
  {
    hide *;
    VisitCases(t, o, most, item, s, e);
    KeptGives(t, o, root, limit, most, s, level);
    if Usable(t, o, e) && e.target !in s.nodes && e.target !in item.ancestors {
      VisitNew(t, o, root, limit, most, item, s, e, level);
    } else {
      var next := Visit(t, o, most, item, s, e).0;
      var m := next.marks[|s.marks|];
      OldMarkOk(t, o, limit, most, item, s, e, level);
      MarksAdded(t, o, limit, s.nodes, s.marks, m);
      MarkAdded(s.marks, m, o);
      assert Tree(next.marks) == Tree(s.marks);
      InHandGives(t, o, limit, s, level, item);
      CyclesMore(Tree(s.marks), s.marks, m, item);
      KeptIs(t, o, root, limit, most, next, level);
      SameNodes(t, o, limit, s, next, level, item);
      UsableIs(t, o, e);
      AncestorsKnown(t, o, limit, s, level, item, e.target);
    }
  }

  lemma UsableIs(t: Tables, o: Options, e: Edge)
    ensures Usable(t, o, e) <==> e in t.edges && Traversable(e, o) && e.target in t.entities
  {
    hide Traversable;
  }

  lemma AncestorsKnown(t: Tables, o: Options, limit: nat, s: Search, level: nat, item: Item, a: Key)
    requires InHand(t, o, limit, s, level, item)
    ensures a in item.ancestors ==> a in s.nodes
  {
    hide Ball;
    hide KnowsWay;
  }

  lemma SameNodes(t: Tables, o: Options, limit: nat, s: Search, next: Search, level: nat, item: Item)
    requires InHand(t, o, limit, s, level, item) && next.nodes == s.nodes && Tree(next.marks) == Tree(s.marks)
    ensures InHand(t, o, limit, next, level, item) && Extends(s.nodes, next.nodes)
  {
    hide ItemOk;
    hide KnowsWay;
    hide Tree;
  }

  /** Either a new node, or one more mark that is not in the tree. */
  lemma VisitCases(t: Tables, o: Options, most: nat, item: Item, s: Search, e: Edge)
    requires e in t.edges && Visit(t, o, most, item, s, e).1 == NoCut
    ensures var next := Visit(t, o, most, item, s, e).0;
            if Usable(t, o, e) && e.target !in s.nodes && e.target !in item.ancestors then |s.nodes| < most
            else
              && |next.marks| == |s.marks| + 1
              && var m := next.marks[|s.marks|];
                 && next.marks == s.marks + [m] && m.edge == e && (m.cycle <==> e.target in item.ancestors)
                 && !m.traversed && next.nodes == s.nodes && next.queue == s.queue
                 && next.cycles == s.cycles + (if m.cycle && Traversable(m.edge, o) then 1 else 0)
  {
    hide Excluded;
  }

  lemma OldMarkOk(t: Tables, o: Options, limit: nat, most: nat, item: Item, s: Search, e: Edge, level: nat)
    requires InHand(t, o, limit, s, level, item) && e in t.edges && e.active && e.source == item.key
    requires Visit(t, o, most, item, s, e).1 == NoCut
    requires !(Usable(t, o, e) && e.target !in s.nodes && e.target !in item.ancestors)
    requires forall k :: k in s.nodes ==> k in t.entities
    ensures var next := Visit(t, o, most, item, s, e).0;
            |next.marks| == |s.marks| + 1 && MarkOk(t, o, limit, s.nodes, next.marks[|s.marks|])
  {
    hide Ball;
    hide AgeOf;
    hide KnowsWay;
    assert e.target in item.ancestors ==> Closes(t, o, s.nodes, item.key, e.target);
    hide Closes;
  }

  lemma NewVisit(t: Tables, o: Options, most: nat, item: Item, s: Search, e: Edge)
    requires Usable(t, o, e) && e.target !in s.nodes && e.target !in item.ancestors && |s.nodes| < most
    ensures Visit(t, o, most, item, s, e).0 ==
            Search(s.nodes[e.target := item.depth + 1], s.marks + [Mark(e, true, false, Followed)],
                   s.queue + [Item(e.target, item.depth + 1, item.ancestors + {e.target})], s.cycles)
  {
    hide Excluded;
  }

  lemma VisitNew(t: Tables, o: Options, root: Key, limit: nat, most: nat, item: Item, s: Search, e: Edge, level: nat)
    requires Kept(t, o, root, limit, most, s, level) && InHand(t, o, limit, s, level, item)
    requires e in t.edges && e.active && e.source == item.key && |s.marks| < HARD_MAX_EDGES
    requires Usable(t, o, e) && e.target !in s.nodes && e.target !in item.ancestors && |s.nodes| < most
    ensures var next := Visit(t, o, most, item, s, e).0;
            && Kept(t, o, root, limit, most, next, level) && InHand(t, o, limit, next, level, item)
            && Extends(s.nodes, next.nodes) && e.target in next.nodes
  {
    hide *;
    var nodes := s.nodes[e.target := item.depth + 1];
    var added := Item(e.target, item.depth + 1, item.ancestors + {e.target});
    var m := Mark(e, true, false, Followed);
    NewVisit(t, o, most, item, s, e);
    KeptGives(t, o, root, limit, most, s, level);
    InHandGives(t, o, limit, s, level, item);
    AddIsSound(t, o, root, limit, s.nodes, e);
    TreeGrows(root, s.nodes, Tree(s.marks), e);
    MarkAdded(s.marks, m, o);
    OneMore(s.nodes, e.target, item.depth + 1);
    MarksKept(t, o, limit, s.nodes, nodes, s.marks);
    NewMarkOk(t, o, limit, nodes, m);
    MarksAdded(t, o, limit, nodes, s.marks, m);
    QueueKept(t, o, s.nodes, nodes, level, s.queue);
    FreshItem(t, o, s.nodes, level, item, e);
    FullKept(t, o, root, s.nodes, nodes, level);
    QueueGrows(t, o, nodes, level, s.queue, added);
    NewKeySprouts(root, s.nodes, Tree(s.marks), e);
    MarkSourcesKnown(t, o, limit, s.nodes, s.marks);
    QueueKeysKnown(t, o, s.nodes, level, s.queue);
    CyclesKept(Tree(s.marks), s.marks, m, item);
    QueueKnowsMore(Tree(s.marks), e, s.queue, item, added);
    KnowsStill(Tree(s.marks), e, item);
    var next := Search(nodes, s.marks + [m], s.queue + [added], s.cycles);
    KeptIs(t, o, root, limit, most, next, level);
    InHandIs(t, o, limit, next, level, item);
  }

  lemma NewMarkOk(t: Tables, o: Options, limit: nat, nodes: map<Key, nat>, m: Mark)
    requires Usable(t, o, m.edge) && m.edge.active && m.traversed && !m.cycle && m.reason == Followed
    requires m.edge.source in nodes && nodes[m.edge.source] < limit
    ensures MarkOk(t, o, limit, nodes, m)
  {
    hide Excluded;
    hide Closes;
  }

  lemma OneMore(nodes: map<Key, nat>, k: Key, d: nat)
    requires k !in nodes
    ensures Extends(nodes, nodes[k := d]) && |nodes[k := d]| == |nodes| + 1
  {
    assert nodes[k := d].Keys == nodes.Keys + {k};
  }

  lemma InHandGives(t: Tables, o: Options, limit: nat, s: Search, level: nat, item: Item)
    requires InHand(t, o, limit, s, level, item)
    ensures ItemOk(t, o, s.nodes, level, item) && item.depth == level < limit && KnowsWay(Tree(s.marks), item)
    ensures item.key in s.nodes && s.nodes[item.key] == level
  {
    hide Closes;
    hide KnowsWay;
  }

  lemma InHandIs(t: Tables, o: Options, limit: nat, s: Search, level: nat, item: Item)
    requires ItemOk(t, o, s.nodes, level, item) && item.depth == level < limit && KnowsWay(Tree(s.marks), item)
    ensures InHand(t, o, limit, s, level, item)
  {
    hide ItemOk;
    hide KnowsWay;
  }

  lemma KeptGives(t: Tables, o: Options, root: Key, limit: nat, most: nat, s: Search, level: nat)
    requires Kept(t, o, root, limit, most, s, level)
    ensures Sound(t, o, root, limit, s.nodes) && Full(t, o, root, s.nodes, level)
    ensures |s.nodes| <= most && |s.marks| <= HARD_MAX_EDGES
    ensures SpanningTree(root, s.nodes, Tree(s.marks)) && MarksOk(t, o, limit, s.nodes, s.marks)
    ensures QueueOk(t, o, s.nodes, level, s.queue) && s.cycles == CountCycles(s.marks, o)
    ensures QueueKnows(Tree(s.marks), s.queue) && CyclesOk(Tree(s.marks), s.marks)
    ensures forall k :: k in s.nodes ==> k in t.entities
  {
    hide QueueKnows;
    hide CyclesOk;
    hide Full;
    hide SpanningTree;
    hide MarksOk;
    hide QueueOk;
    hide CountCycles;
    hide Tree;
    hide Ball;
  }

  lemma KeptIs(t: Tables, o: Options, root: Key, limit: nat, most: nat, s: Search, level: nat)
    requires Sound(t, o, root, limit, s.nodes) && Full(t, o, root, s.nodes, level)
    requires |s.nodes| <= most && |s.marks| <= HARD_MAX_EDGES
    requires SpanningTree(root, s.nodes, Tree(s.marks)) && MarksOk(t, o, limit, s.nodes, s.marks)
    requires QueueOk(t, o, s.nodes, level, s.queue) && s.cycles == CountCycles(s.marks, o)
    requires QueueKnows(Tree(s.marks), s.queue) && CyclesOk(Tree(s.marks), s.marks)
    ensures Kept(t, o, root, limit, most, s, level)
  {
    hide QueueKnows;
    hide CyclesOk;
    hide Sound;
    hide Full;
    hide SpanningTree;
    hide MarksOk;
    hide QueueOk;
    hide CountCycles;
    hide Tree;
  }

  lemma FullKept(t: Tables, o: Options, root: Key, a: map<Key, nat>, b: map<Key, nat>, n: nat)
    requires Full(t, o, root, a, n) && Extends(a, b)
    ensures Full(t, o, root, b, n)
  {
    hide Ball;
  }

  /** The item of a new node knows the way that led to it. */
  lemma FreshItem(t: Tables, o: Options, nodes: map<Key, nat>, level: nat, item: Item, e: Edge)
    requires ItemOk(t, o, nodes, level, item) && item.depth == level && Usable(t, o, e) && e.source == item.key
    requires e.target !in nodes
    ensures var more := nodes[e.target := level + 1];
            ItemOk(t, o, more, level, Item(e.target, level + 1, item.ancestors + {e.target}))
            && ItemOk(t, o, more, level, item)
  {
    hide Ball;
    hide Traversable;
    BallUnfold(t, o, e.target, 0);
    forall a | a in item.ancestors ensures Closes(t, o, nodes[e.target := level + 1], e.target, a) {
      assert Closes(t, o, nodes, item.key, a);
      BallStep(t, o, a, level - nodes[a], e);
    }
  }

  lemma QueueGrows(t: Tables, o: Options, nodes: map<Key, nat>, level: nat, queue: seq<Item>, item: Item)
    requires QueueOk(t, o, nodes, level, queue) && ItemOk(t, o, nodes, level, item) && item.depth == level + 1
    ensures QueueOk(t, o, nodes, level, queue + [item])
  {
    hide Closes;
  }

  /** The loop body as the program runs it. */
  method VisitEdge(t: Tables, o: Options, most: nat, item: Item, s: Search, e: Edge) returns (next: Search, cut: Cut)
    ensures (next, cut) == Visit(t, o, most, item, s, e)
  {
    hide Excluded;
    var excluded := Excluded(e, o);
    var traversable := excluded == Followed;
    var cycle := e.target in item.ancestors;
    var seen := e.target in s.nodes;
    next, cut := s, NoCut;
    if cycle && traversable {
      next := next.(cycles := next.cycles + 1);
    }
    var rendered := Mark(e, traversable && !cycle && !seen, cycle, excluded);
    if traversable && seen && !cycle {
      rendered := rendered.(reason := AlreadyVisited);
    }
    next := next.(marks := next.marks + [rendered]);
    if !traversable || cycle || seen {
      return;
    }
    if |next.nodes| >= most {
      cut := MaxNodes;
      return;
    }
    if e.target !in t.entities {
      next := next.(marks := s.marks + [rendered.(traversed := false, reason := MissingTarget)]);
      return;
    }
    next := next.(nodes := next.nodes[e.target := item.depth + 1]);
    next := next.(queue := next.queue + [Item(e.target, item.depth + 1, item.ancestors + {e.target})]);
  }

  // ---- One node ----

  predicate Waiting(queue: seq<Item>, k: Key) {
    exists i :: 0 <= i < |queue| && queue[i].key == k
  }

  /** Every edge of the list has been reported, and its target found when it is usable. */
  ghost predicate Handled(t: Tables, o: Options, s: Search, edges: seq<Edge>) {
    forall j :: 0 <= j < |edges| ==>
      Shown(s.marks, edges[j]) && (Usable(t, o, edges[j]) ==> edges[j].target in s.nodes)
  }

  ghost predicate Shown(marks: seq<Mark>, e: Edge) {
    exists i :: 0 <= i < |marks| && marks[i].edge == e
  }

  /** One search continues another: nothing is lost, and what is new waits. */
  ghost predicate Continues(a: Search, b: Search) {
    && Extends(a.nodes, b.nodes) && a.marks <= b.marks && a.queue <= b.queue
    && |b.queue| - |a.queue| == |b.nodes| - |a.nodes|
    && forall k :: k in b.nodes ==> k in a.nodes || Waiting(b.queue, k)
  }

  lemma ContinuesItself(s: Search)
    ensures Continues(s, s)
  {
  }

  lemma VisitShape(t: Tables, o: Options, most: nat, item: Item, s: Search, e: Edge)
    ensures var next := Visit(t, o, most, item, s, e).0;
            && |next.marks| == |s.marks| + 1 && s.marks <= next.marks && next.marks[|s.marks|].edge == e
            && ((next.nodes == s.nodes && next.queue == s.queue)
                || (e.target !in s.nodes && next.nodes == s.nodes[e.target := item.depth + 1]
                    && |next.queue| == |s.queue| + 1 && s.queue <= next.queue
                    && next.queue[|s.queue|].key == e.target))
  {
    hide Excluded;
  }

  lemma VisitContinues(t: Tables, o: Options, most: nat, item: Item, a: Search, s: Search, e: Edge)
    requires Continues(a, s)
    ensures var next := Visit(t, o, most, item, s, e).0;
            Continues(a, next) && |next.marks| == |s.marks| + 1 && s.marks <= next.marks && Extends(s.nodes, next.nodes)
            && next.marks[|s.marks|].edge == e
  {
    VisitShape(t, o, most, item, s, e);
    hide Visit;
    var next := Visit(t, o, most, item, s, e).0;
    if e.target !in s.nodes {
      OneMore(s.nodes, e.target, item.depth + 1);
    }
    forall k | k in next.nodes ensures k in a.nodes || Waiting(next.queue, k) {
      if k in s.nodes {
        if k !in a.nodes {
          var i :| 0 <= i < |s.queue| && s.queue[i].key == k;
          assert next.queue[i].key == k;
        }
      } else {
        assert next.queue[|s.queue|].key == k;
      }
    }
  }

  lemma HandledMore(t: Tables, o: Options, s: Search, next: Search, edges: seq<Edge>, e: Edge)
    requires Handled(t, o, s, edges) && s.marks <= next.marks && Extends(s.nodes, next.nodes)
    requires |next.marks| == |s.marks| + 1 && next.marks[|s.marks|].edge == e
             && (Usable(t, o, e) ==> e.target in next.nodes)
    ensures Handled(t, o, next, edges + [e])
  {
    hide Usable;
    forall j | 0 <= j < |edges + [e]|
      ensures Shown(next.marks, (edges + [e])[j])
              && (Usable(t, o, (edges + [e])[j]) ==> (edges + [e])[j].target in next.nodes)
    {
      if j < |edges| {
        var i :| 0 <= i < |s.marks| && s.marks[i].edge == edges[j];
        assert next.marks[i].edge == edges[j];
      } else {
        assert next.marks[|s.marks|].edge == e;
      }
    }
  }

  /** The search was cut by the node limit: all was well up to its last mark, which calls an edge
      followed whose target was refused. The edge could have been followed. */
  ghost predicate Refused(t: Tables, o: Options, root: Key, limit: nat, most: nat, s: Search, level: nat) {
    && s.marks != [] && |s.nodes| == most
    && var last := s.marks[|s.marks| - 1];
       last == Mark(last.edge, true, false, Followed)
       && last.edge.target !in s.nodes && Leaves(t, o, limit, s.nodes, last.edge)
       && Kept(t, o, root, limit, most, s.(marks := s.marks[..|s.marks| - 1]), level)
  }

  /** An edge that may be followed from a node above the limit. */
  predicate Leaves(t: Tables, o: Options, limit: nat, nodes: map<Key, nat>, e: Edge) {
    e in t.edges && Traversable(e, o) && e.source in nodes && nodes[e.source] < limit
  }

  lemma VisitRefused(t: Tables, o: Options, root: Key, limit: nat, most: nat, item: Item, s: Search, e: Edge,
                     level: nat)
    requires Kept(t, o, root, limit, most, s, level) && Visit(t, o, most, item, s, e).1 != NoCut
    requires InHand(t, o, limit, s, level, item) && e in t.edges && e.source == item.key
    ensures Visit(t, o, most, item, s, e).1 == MaxNodes
    ensures Refused(t, o, root, limit, most, Visit(t, o, most, item, s, e).0, level)
  {
    hide *;
    KeptGives(t, o, root, limit, most, s, level);
    InHandGives(t, o, limit, s, level, item);
    RefusalIs(t, o, most, item, s, e);
    LeavesIs(t, o, limit, s.nodes, e);
    var last := Mark(e, true, false, Followed);
    assert (s.marks + [last])[..|s.marks|] == s.marks;
    RefusedIs(t, o, root, limit, most, s, last, level);
  }

  lemma LeavesIs(t: Tables, o: Options, limit: nat, nodes: map<Key, nat>, e: Edge)
    ensures Leaves(t, o, limit, nodes, e) <==>
            e in t.edges && Traversable(e, o) && e.source in nodes && nodes[e.source] < limit
  {
    hide Traversable;
  }

  lemma RefusalIs(t: Tables, o: Options, most: nat, item: Item, s: Search, e: Edge)
    requires Visit(t, o, most, item, s, e).1 != NoCut
    ensures Visit(t, o, most, item, s, e) == (s.(marks := s.marks + [Mark(e, true, false, Followed)]), MaxNodes)
    ensures |s.nodes| >= most && e.target !in s.nodes && Traversable(e, o)
  {
    hide Excluded;
  }

  lemma RefusedIs(t: Tables, o: Options, root: Key, limit: nat, most: nat, s: Search, last: Mark, level: nat)
    requires Kept(t, o, root, limit, most, s, level) && |s.nodes| == most && Leaves(t, o, limit, s.nodes, last.edge)
    requires last == Mark(last.edge, true, false, Followed)
    requires last.edge.target !in s.nodes && (s.marks + [last])[..|s.marks|] == s.marks
    ensures Refused(t, o, root, limit, most, s.(marks := s.marks + [last]), level)
  {
    hide Kept;
    hide Leaves;
    assert s.(marks := s.marks + [last]).(marks := s.marks) == s;
  }

  function EdgesOf(marks: seq<Mark>): (edges: seq<Edge>)
    ensures |edges| == |marks|
  {
    seq(|marks|, i requires 0 <= i < |marks| => marks[i].edge)
  }

  lemma EdgesOfNext(a: seq<Mark>, b: seq<Mark>, e: Edge)
    requires a <= b && |b| == |a| + 1 && b[|a|].edge == e
    ensures EdgesOf(b) == EdgesOf(a) + [e]
  {
  }

  /** The edges of one node. */
  method Expand(t: Tables, o: Options, ghost root: Key, ghost limit: nat, most: nat, item: Item, start: Search,
                outgoing: seq<Edge>, ghost level: nat)
    returns (s: Search, cut: Cut)
    requires Kept(t, o, root, limit, most, start, level) && InHand(t, o, limit, start, level, item)
    requires forall j :: 0 <= j < |outgoing| ==>
               outgoing[j] in t.edges && outgoing[j].active && outgoing[j].source == item.key
    ensures cut == NoCut ==> Kept(t, o, root, limit, most, s, level) && Continues(start, s)
    ensures cut == NoCut ==> Handled(t, o, s, outgoing) && |s.marks| == |start.marks| + |outgoing|
    ensures cut == NoCut ==> |s.marks| <= HARD_MAX_EDGES && EdgesOf(s.marks) == EdgesOf(start.marks) + outgoing
    ensures cut == MaxEdges ==> Kept(t, o, root, limit, most, s, level) && |s.marks| == HARD_MAX_EDGES
    ensures cut == MaxEdges ==> HARD_MAX_EDGES < |start.marks| + |outgoing|
    ensures cut == MaxNodes ==> Refused(t, o, root, limit, most, s, level)
  {
    hide *;
    s, cut := start, NoCut;
    ContinuesItself(s);
    NothingHandled(t, o, s, outgoing);
    for i := 0 to |outgoing|
      invariant Kept(t, o, root, limit, most, s, level) && InHand(t, o, limit, s, level, item)
      invariant Continues(start, s) && Handled(t, o, s, outgoing[..i]) && |s.marks| == |start.marks| + i
      invariant EdgesOf(s.marks) == EdgesOf(start.marks) + outgoing[..i]
    {
      KeptGives(t, o, root, limit, most, s, level);
      var e := outgoing[i];
      if |s.marks| >= HARD_MAX_EDGES {
        return s, MaxEdges;
      }
      var next, stop := VisitEdge(t, o, most, item, s, e);
      if stop != NoCut {
        VisitRefused(t, o, root, limit, most, item, s, e, level);
        return next, stop;
      }
      VisitKeeps(t, o, root, limit, most, item, s, e, level);
      VisitContinues(t, o, most, item, start, s, e);
      HandledMore(t, o, s, next, outgoing[..i], e);
      EdgesOfNext(s.marks, next.marks, e);
      assert outgoing[..i] + [e] == outgoing[..i + 1];
      s := next;
    }
    KeptGives(t, o, root, limit, most, s, level);
    assert outgoing[..|outgoing|] == outgoing;
  }

  lemma NothingHandled(t: Tables, o: Options, s: Search, edges: seq<Edge>)
    ensures Handled(t, o, s, edges[..0])
  {
  }

  // ---- The whole search ----

  datatype Outcome =
    | RootMissing
    | BadDepth
    | BadNodeLimit
    | Found(nodes: map<Key, nat>, marks: seq<Mark>, cycles: nat, cut: Cut)

  /** Every node seen is waiting or expanded, and an expanded node above the limit has been dealt with. */
  ghost predicate Progress(t: Tables, o: Options, limit: nat, s: Search, expanded: set<Key>) {
    && (forall k :: k in s.nodes ==> k in expanded || Waiting(s.queue, k))
    && (forall k :: k in expanded ==> k in s.nodes && (s.nodes[k] < limit ==> Settled(t, o, s, k)))
  }

  /** Every active edge of the node is reported, and everything one step away is found. */
  ghost predicate Settled(t: Tables, o: Options, s: Search, k: Key) {
    Done(t, o, s.nodes, k) && forall e :: e in t.edges && e.active && e.source == k ==> Shown(s.marks, e)
  }

  lemma StartKept(t: Tables, o: Options, root: Key, limit: nat, most: nat)
    requires root in t.entities && most > 0
    ensures var s := Search(map[root := 0], [], [Item(root, 0, {root})], 0);
            Kept(t, o, root, limit, most, s, 0) && Progress(t, o, limit, s, {}) && |s.nodes| <= most
  {
    hide *;
    var s := Search(map[root := 0], [], [Item(root, 0, {root})], 0);
    assert s.nodes.Keys == {root};
    EdgesAre();
    StartSound(t, o, root, limit);
    StartTree(t, o, root, limit);
    StartQueued(t, o, root);
    StartsWaiting(t, o, limit, root);
    StartKnows(root);
    KeptIs(t, o, root, limit, most, s, 0);
  }

  lemma StartSound(t: Tables, o: Options, root: Key, limit: nat)
    requires root in t.entities
    ensures Sound(t, o, root, limit, map[root := 0]) && Full(t, o, root, map[root := 0], 0)
  {
    BallUnfold(t, o, root, 0);
    hide Usable;
  }

  lemma StartTree(t: Tables, o: Options, root: Key, limit: nat)
    ensures SpanningTree(root, map[root := 0], Tree([])) && MarksOk(t, o, limit, map[root := 0], [])
    ensures CountCycles([], o) == 0
  {
    var nodes: map<Key, nat> := map[root := 0];
    assert nodes.Keys == {root};
  }

  lemma StartQueued(t: Tables, o: Options, root: Key)
    ensures QueueOk(t, o, map[root := 0], 0, [Item(root, 0, {root})])
  {
    BallUnfold(t, o, root, 0);
    hide Usable;
  }

  lemma StartKnows(root: Key)
    ensures QueueKnows(Tree([]), [Item(root, 0, {root})]) && CyclesOk(Tree([]), [])
  {
    hide Leads;
    assert Tree([]) == [];
    forall a ensures a in {root} <==> Leads([], a, root) {
      NoWay(a, root);
    }
  }

  lemma StartsWaiting(t: Tables, o: Options, limit: nat, root: Key)
    ensures Progress(t, o, limit, Search(map[root := 0], [], [Item(root, 0, {root})], 0), {})
  {
    hide Settled;
    assert [Item(root, 0, {root})][0].key == root;
  }

  /** Taking the first item keeps everything; when it starts a new level, the level before it is done. */
  lemma Popped(t: Tables, o: Options, root: Key, limit: nat, most: nat, s: Search, level: nat, expanded: set<Key>)
    requires Kept(t, o, root, limit, most, s, level) && Progress(t, o, limit, s, expanded) && s.queue != []
    ensures var item, rest := s.queue[0], s.(queue := s.queue[1..]);
            && Kept(t, o, root, limit, most, rest, item.depth) && ItemOk(t, o, s.nodes, item.depth, item)
            && item.key in s.nodes && s.nodes[item.key] == item.depth <= limit && KnowsWay(Tree(s.marks), item)
            && level <= item.depth
    ensures forall k :: k in s.nodes ==> k in expanded || k == s.queue[0].key || Waiting(s.queue[1..], k)
  {
    hide *;
    KeptGives(t, o, root, limit, most, s, level);
    var item, rest := s.queue[0], s.(queue := s.queue[1..]);
    FirstItem(t, o, s.nodes, level, s.queue);
    if item.depth > level {
      LevelDone(t, o, root, limit, s, level, expanded);
      NextLevelFull(t, o, root, limit, s.nodes, level);
    }
    WaitingRest(t, o, limit, s, expanded);
    FirstKnows(Tree(s.marks), s.queue);
    KeptIs(t, o, root, limit, most, rest, item.depth);
    SoundAt(t, o, root, limit, s.nodes, item.key);
  }

  lemma FirstKnows(tree: seq<Edge>, queue: seq<Item>)
    requires QueueKnows(tree, queue) && queue != []
    ensures KnowsWay(tree, queue[0]) && QueueKnows(tree, queue[1..])
  {
    hide KnowsWay;
  }

  lemma SoundAt(t: Tables, o: Options, root: Key, limit: nat, nodes: map<Key, nat>, k: Key)
    requires Sound(t, o, root, limit, nodes) && k in nodes
    ensures nodes[k] <= limit
  {
    hide Ball;
  }

  lemma FirstItem(t: Tables, o: Options, nodes: map<Key, nat>, level: nat, queue: seq<Item>)
    requires QueueOk(t, o, nodes, level, queue) && queue != []
    ensures var d := queue[0].depth;
            (d == level || d == level + 1) && QueueOk(t, o, nodes, d, queue[1..]) && ItemOk(t, o, nodes, d, queue[0])
    ensures queue[0].key in nodes && nodes[queue[0].key] == queue[0].depth
    ensures forall i :: 0 <= i < |queue| ==> queue[0].depth <= queue[i].depth && queue[i].key in nodes
                                             && nodes[queue[i].key] == queue[i].depth
  {
    hide Closes;
    var d, rest := queue[0].depth, queue[1..];
    forall i | 0 <= i < |queue| ensures d <= queue[i].depth && ItemOk(t, o, nodes, level, queue[i]) {
    }
    forall i | 0 <= i < |rest| ensures ItemOk(t, o, nodes, d, rest[i]) {
      assert rest[i] == queue[i + 1];
      assert ItemOk(t, o, nodes, level, queue[i + 1]);
    }
  }

  lemma LevelDone(t: Tables, o: Options, root: Key, limit: nat, s: Search, level: nat, expanded: set<Key>)
    requires Sound(t, o, root, limit, s.nodes) && QueueOk(t, o, s.nodes, level, s.queue) && s.queue != []
    requires s.queue[0].depth > level && Progress(t, o, limit, s, expanded)
    ensures forall k :: k in s.nodes && s.nodes[k] <= level ==> Done(t, o, s.nodes, k)
  {
    hide *;
    FirstItem(t, o, s.nodes, level, s.queue);
    SoundAt(t, o, root, limit, s.nodes, s.queue[0].key);
    WaitingIsDeep(s, level);
    ProgressSettles(t, o, limit, s, expanded);
  }

  lemma WaitingIsDeep(s: Search, level: nat)
    requires forall i :: 0 <= i < |s.queue| ==> level < s.queue[i].depth && s.queue[i].key in s.nodes
                                                && s.nodes[s.queue[i].key] == s.queue[i].depth
    ensures forall k :: k in s.nodes && s.nodes[k] <= level ==> !Waiting(s.queue, k)
  {
  }

  /** Nodes that do not wait, and lie above the limit, are done and reported. */
  lemma ProgressSettles(t: Tables, o: Options, limit: nat, s: Search, expanded: set<Key>)
    requires Progress(t, o, limit, s, expanded)
    ensures forall k :: k in s.nodes && s.nodes[k] < limit && !Waiting(s.queue, k) ==>
              Done(t, o, s.nodes, k) && Settled(t, o, s, k)
  {
    hide Usable;
    hide Waiting;
  }

  lemma WaitingRest(t: Tables, o: Options, limit: nat, s: Search, expanded: set<Key>)
    requires s.queue != [] && Progress(t, o, limit, s, expanded)
    ensures forall k :: k in s.nodes ==> k in expanded || k == s.queue[0].key || Waiting(s.queue[1..], k)
  {
    hide Settled;
    forall k | k in s.nodes ensures k in expanded || k == s.queue[0].key || Waiting(s.queue[1..], k) {
      if k !in expanded && k != s.queue[0].key {
        var i :| 0 <= i < |s.queue| && s.queue[i].key == k;
        assert s.queue[1..][i - 1].key == k;
      }
    }
  }

  /** A node whose query was handled completely is settled: with no more than 1000 edges reported the
      query's own limit of 2000 has cut nothing off. */
  lemma QueryWhole(t: Tables, o: Options, s: Search, k: Key)
    requires Handled(t, o, s, Outgoing(t, k)) && |Outgoing(t, k)| <= HARD_MAX_EDGES
    ensures Settled(t, o, s, k)
  {
    hide Traversable;
    var all := Matching(t.edges, k);
    assert Outgoing(t, k) == all;
    hide Matching;
    forall e | e in t.edges && e.active && e.source == k
      ensures Shown(s.marks, e) && (Usable(t, o, e) ==> e.target in s.nodes)
    {
      MatchingIs(t.edges, k, e);
      var j :| 0 <= j < |all| && all[j] == e;
    }
    forall e | Usable(t, o, e) && e.source == k ensures e.target in s.nodes {
      UsableIsActive(t, o, e);
    }
  }

  lemma UsableIsActive(t: Tables, o: Options, e: Edge)
    requires Usable(t, o, e)
    ensures e in t.edges && e.active
  {
  }

  lemma SettledKept(t: Tables, o: Options, a: Search, b: Search, k: Key)
    requires Settled(t, o, a, k) && Continues(a, b)
    ensures Settled(t, o, b, k)
  {
    hide Usable;
    forall e | e in t.edges && e.active && e.source == k ensures Shown(b.marks, e) {
      var i :| 0 <= i < |a.marks| && a.marks[i].edge == e;
      assert b.marks[i].edge == e;
    }
  }

  /** Progress after a node has been expanded. */
  lemma Expanded(t: Tables, o: Options, limit: nat, a: Search, b: Search, expanded: set<Key>, k: Key)
    requires Continues(a, b) && k in a.nodes && (b.nodes[k] < limit ==> Settled(t, o, b, k))
    requires forall j :: j in a.nodes ==> j in expanded || j == k || Waiting(a.queue, j)
    requires forall j :: j in expanded ==> j in a.nodes && (a.nodes[j] < limit ==> Settled(t, o, a, j))
    ensures Progress(t, o, limit, b, expanded + {k})
  {
    hide Settled;
    forall j | j in expanded && b.nodes[j] < limit ensures Settled(t, o, b, j) {
      SettledKept(t, o, a, b, j);
    }
    forall j | j in b.nodes ensures j in expanded + {k} || Waiting(b.queue, j) {
      if j in a.nodes && j !in expanded && j != k {
        var i :| 0 <= i < |a.queue| && a.queue[i].key == j;
        assert b.queue[i].key == j;
      }
    }
  }

  /** The answer when nothing was cut off. */
  ghost predicate Exact(t: Tables, o: Options, root: Key, limit: nat, s: Search) {
    && s.nodes.Keys == Ball(t, o, root, limit)
    && forall k :: k in s.nodes && s.nodes[k] < limit ==>
         forall e :: e in t.edges && e.active && e.source == k ==> Shown(s.marks, e)
  }

  lemma EndIsExact(t: Tables, o: Options, root: Key, limit: nat, most: nat, s: Search, level: nat, expanded: set<Key>)
    requires Kept(t, o, root, limit, most, s, level) && Progress(t, o, limit, s, expanded) && s.queue == []
    ensures Exact(t, o, root, limit, s)
  {
    hide *;
    KeptGives(t, o, root, limit, most, s, level);
    ProgressSettles(t, o, limit, s, expanded);
    NobodyWaits(s);
    AllFull(t, o, root, limit, s.nodes, limit);
    NodesAreBall(t, o, root, limit, s.nodes);
    ExactIs(t, o, root, limit, s);
  }

  lemma NobodyWaits(s: Search)
    requires s.queue == []
    ensures forall k :: !Waiting(s.queue, k)
  {
  }

  lemma NodesAreBall(t: Tables, o: Options, root: Key, limit: nat, nodes: map<Key, nat>)
    requires Sound(t, o, root, limit, nodes) && Full(t, o, root, nodes, limit)
    ensures nodes.Keys == Ball(t, o, root, limit)
  {
    hide Ball;
    forall k | k in nodes ensures k in Ball(t, o, root, limit) {
      BallGrows(t, o, root, nodes[k], limit);
    }
  }

  lemma ExactIs(t: Tables, o: Options, root: Key, limit: nat, s: Search)
    requires s.nodes.Keys == Ball(t, o, root, limit)
    requires forall k :: k in s.nodes && s.nodes[k] < limit ==> Settled(t, o, s, k)
    ensures Exact(t, o, root, limit, s)
  {
    hide Ball;
    hide Done;
    hide Shown;
  }

  // ---- When the search is cut short ----

  /** How many active edges leave the keys. */
  ghost function EdgeCount(edges: seq<Edge>, keys: set<Key>): nat {
    if edges == [] then 0
    else (if edges[0].active && edges[0].source in keys then 1 else 0) + EdgeCount(edges[1..], keys)
  }

  lemma {:induction false} EdgeCountMore(edges: seq<Edge>, keys: set<Key>, k: Key)
    requires k !in keys
    ensures EdgeCount(edges, keys + {k}) == EdgeCount(edges, keys) + |Matching(edges, k)|
  {
    if edges != [] {
      EdgeCountMore(edges[1..], keys, k);
    }
  }

  lemma {:induction false} EdgeCountRises(edges: seq<Edge>, a: set<Key>, b: set<Key>)
    requires a <= b
    ensures EdgeCount(edges, a) <= EdgeCount(edges, b)
  {
    if edges != [] {
      EdgeCountRises(edges[1..], a, b);
    }
  }

  lemma NoKeysNoEdges(t: Tables)
    ensures EdgeCount(t.edges, {}) == 0
  {
    NothingLeaves(t.edges);
  }

  lemma {:induction false} NothingLeaves(edges: seq<Edge>)
    ensures EdgeCount(edges, {}) == 0
  {
    if edges != [] {
      NothingLeaves(edges[1..]);
    }
  }

  /** The keys the search looks on from: those above the depth limit. */
  ghost function Above(t: Tables, o: Options, root: Key, limit: nat): set<Key> {
    if limit == 0 then {} else Ball(t, o, root, limit - 1)
  }

  /** The limits leave the search room: no more keys in reach than nodes allowed, and no more than 1000
      active edges to report. */
  ghost predicate Roomy(t: Tables, o: Options, root: Key, limit: nat, most: nat) {
    |Ball(t, o, root, limit)| <= most && EdgeCount(t.edges, Above(t, o, root, limit)) <= HARD_MAX_EDGES
  }

  /** Referential integrity: active edges lead to entities. */
  ghost predicate Intact(t: Tables) {
    forall e :: e in t.edges && e.active ==> e.target in t.entities
  }

  /** The marks are the active edges of the nodes expanded so far above the limit. */
  ghost predicate Counted(t: Tables, limit: nat, s: Search, expanded: set<Key>, above: set<Key>) {
    && |s.marks| == EdgeCount(t.edges, above)
    && forall k :: k in above <==> k in expanded && k in s.nodes && s.nodes[k] < limit
  }

  lemma CountedStart(t: Tables, limit: nat, root: Key)
    ensures Counted(t, limit, Search(map[root := 0], [], [Item(root, 0, {root})], 0), {}, {})
  {
    NoKeysNoEdges(t);
  }

  /** From the keys looked on from, every active edge has been reported once, in the order of the query. */
  ghost predicate Ordered(t: Tables, marks: seq<Mark>, above: set<Key>) {
    forall k :: Matching(EdgesOf(marks), k) == if k in above then Matching(t.edges, k) else []
  }

  ghost predicate InOrder(t: Tables, limit: nat, nodes: map<Key, nat>, marks: seq<Mark>) {
    forall k :: Matching(EdgesOf(marks), k) == if k in nodes && nodes[k] < limit then Matching(t.edges, k) else []
  }

  /** Edges are reported level by level. */
  ghost predicate Rising(nodes: map<Key, nat>, edges: seq<Edge>, level: nat) {
    && (forall i :: 0 <= i < |edges| ==> edges[i].source in nodes && nodes[edges[i].source] <= level)
    && (forall i, j :: 0 <= i < j < |edges| ==> nodes[edges[i].source] <= nodes[edges[j].source])
  }

  lemma RisingStart(root: Key)
    ensures Rising(map[root := 0], EdgesOf([]), 0)
  {
  }

  lemma RisingAbove(nodes: map<Key, nat>, edges: seq<Edge>, low: nat, level: nat)
    requires Rising(nodes, edges, low) && low <= level
    ensures Rising(nodes, edges, level)
  {
  }

  lemma RisingMore(a: map<Key, nat>, b: map<Key, nat>, edges: seq<Edge>, more: seq<Edge>, low: nat, level: nat)
    requires Rising(a, edges, low) && Extends(a, b) && low <= level
    requires forall j :: 0 <= j < |more| ==> more[j].source in a && a[more[j].source] == level
    ensures Rising(b, edges + more, level)
  {
    forall i | 0 <= i < |edges + more|
      ensures var k := (edges + more)[i].source;
              k in b && (if i < |edges| then b[k] == a[k] <= level else b[k] == level)
    {
      if i >= |edges| {
        assert (edges + more)[i] == more[i - |edges|];
      }
    }
  }

  lemma OrderedStart(t: Tables)
    ensures Ordered(t, [], {})
  {
  }

  lemma OrderedMore(t: Tables, a: seq<Mark>, b: seq<Mark>, above: set<Key>, k: Key)
    requires Ordered(t, a, above) && k !in above && EdgesOf(b) == EdgesOf(a) + Matching(t.edges, k)
    ensures Ordered(t, b, above + {k})
  {
    hide *;
    forall j ensures Matching(EdgesOf(b), j) == if j in above + {k} then Matching(t.edges, j) else [] {
      OrderedGives(t, a, above, j);
      MatchingJoins(EdgesOf(a), Matching(t.edges, k), j);
      MatchingOfMatching(t.edges, k, j);
    }
    OrderedIs(t, b, above + {k});
  }

  lemma OrderedGives(t: Tables, marks: seq<Mark>, above: set<Key>, k: Key)
    requires Ordered(t, marks, above)
    ensures Matching(EdgesOf(marks), k) == if k in above then Matching(t.edges, k) else []
  {
    hide Matching;
    hide EdgesOf;
  }

  lemma OrderedIs(t: Tables, marks: seq<Mark>, above: set<Key>)
    requires forall k :: Matching(EdgesOf(marks), k) == if k in above then Matching(t.edges, k) else []
    ensures Ordered(t, marks, above)
  {
    hide Matching;
    hide EdgesOf;
  }

  lemma EndIsInOrder(t: Tables, o: Options, limit: nat, s: Search, expanded: set<Key>, above: set<Key>)
    requires Ordered(t, s.marks, above) && Counted(t, limit, s, expanded, above)
    requires Progress(t, o, limit, s, expanded) && s.queue == []
    ensures InOrder(t, limit, s.nodes, s.marks)
  {
    AllExpanded(t, o, limit, s, expanded);
    CountedGives(t, limit, s, expanded, above);
    hide Matching;
    hide EdgesOf;
    hide EdgeCount;
    hide Progress;
    forall k
      ensures Matching(EdgesOf(s.marks), k)
              == if k in s.nodes && s.nodes[k] < limit then Matching(t.edges, k) else []
    {
      assert k in above <==> k in s.nodes && s.nodes[k] < limit;
    }
  }

  /** Nothing new is looked on from. */
  lemma CountedSame(t: Tables, limit: nat, a: Search, b: Search, expanded: set<Key>, above: set<Key>, k: Key)
    requires Counted(t, limit, a, expanded, above) && b.nodes == a.nodes && b.marks == a.marks
    requires k in a.nodes && (k in expanded || a.nodes[k] >= limit)
    ensures Counted(t, limit, b, expanded + {k}, above)
  {
    hide EdgeCount;
  }

  lemma CountedMore(t: Tables, limit: nat, a: Search, b: Search, expanded: set<Key>, above: set<Key>, k: Key)
    requires Counted(t, limit, a, expanded, above) && Continues(a, b) && k !in expanded && k in a.nodes
             && a.nodes[k] < limit
    requires (forall j :: j in expanded ==> j in a.nodes) && |b.marks| == |a.marks| + |Matching(t.edges, k)|
    ensures Counted(t, limit, b, expanded + {k}, above + {k})
  {
    EdgeCountMore(t.edges, above, k);
    hide EdgeCount;
    hide Matching;
    hide Waiting;
  }

  lemma OutgoingIsAll(t: Tables, k: Key)
    ensures |Outgoing(t, k)| <= |Matching(t.edges, k)|
    ensures |Outgoing(t, k)| <= HARD_MAX_EDGES ==> Outgoing(t, k) == Matching(t.edges, k)
  {
    hide Matching;
  }

  lemma AboveInBall(t: Tables, o: Options, root: Key, limit: nat, nodes: map<Key, nat>, k: Key)
    requires Sound(t, o, root, limit, nodes) && k in nodes && nodes[k] < limit
    ensures k in Above(t, o, root, limit)
  {
    hide Ball;
    BallGrows(t, o, root, nodes[k], limit - 1);
  }

  lemma CountedInBall(t: Tables, o: Options, root: Key, limit: nat, s: Search, expanded: set<Key>, above: set<Key>)
    requires Sound(t, o, root, limit, s.nodes) && Counted(t, limit, s, expanded, above)
    ensures above <= Above(t, o, root, limit)
  {
    hide *;
    CountedGives(t, limit, s, expanded, above);
    forall k | k in above ensures k in Above(t, o, root, limit) {
      AboveInBall(t, o, root, limit, s.nodes, k);
    }
  }

  lemma CountedGives(t: Tables, limit: nat, s: Search, expanded: set<Key>, above: set<Key>)
    requires Counted(t, limit, s, expanded, above)
    ensures |s.marks| == EdgeCount(t.edges, above)
    ensures forall k :: k in above ==> k in s.nodes && s.nodes[k] < limit
    ensures forall k :: k in expanded && k in s.nodes && s.nodes[k] < limit ==> k in above
  {
  }

  /** An edge too many. */
  lemma EdgesCut(t: Tables, o: Options, root: Key, limit: nat, s: Search, expanded: set<Key>, above: set<Key>, k: Key)
    requires Sound(t, o, root, limit, s.nodes) && Counted(t, limit, s, expanded, above)
    requires k in s.nodes && s.nodes[k] < limit && k !in expanded && HARD_MAX_EDGES < |s.marks| + |Outgoing(t, k)|
    ensures HARD_MAX_EDGES < EdgeCount(t.edges, Above(t, o, root, limit))
  {
    hide *;
    CountedGives(t, limit, s, expanded, above);
    CountedInBall(t, o, root, limit, s, expanded, above);
    AboveInBall(t, o, root, limit, s.nodes, k);
    OutgoingIsAll(t, k);
    NotCounted(t, limit, s, expanded, above, k);
    EdgeCountMore(t.edges, above, k);
    EdgeCountRises(t.edges, above + {k}, Above(t, o, root, limit));
  }

  lemma NotCounted(t: Tables, limit: nat, s: Search, expanded: set<Key>, above: set<Key>, k: Key)
    requires Counted(t, limit, s, expanded, above) && k !in expanded
    ensures k !in above
  {
  }

  lemma SubsetSize<T>(a: set<T>, b: set<T>)
    requires a <= b
    ensures |a| <= |b|
  {
    assert b == a + (b - a);
  }

  /** A node too many. */
  lemma NodesCut(t: Tables, o: Options, root: Key, limit: nat, nodes: map<Key, nat>, e: Edge)
    requires Sound(t, o, root, limit, nodes) && Leaves(t, o, limit, nodes, e) && e.target !in nodes
             && e.target in t.entities
    ensures |nodes| < |Ball(t, o, root, limit)|
  {
    hide *;
    LeavesIs(t, o, limit, nodes, e);
    UsableIs(t, o, e);
    NodesInBall(t, o, root, limit, nodes);
    SoundGives(t, o, root, limit, nodes, e.source);
    BallStep(t, o, root, nodes[e.source], e);
    BallGrows(t, o, root, nodes[e.source] + 1, limit);
    SubsetSize(nodes.Keys + {e.target}, Ball(t, o, root, limit));
    assert |nodes| == |nodes.Keys|;
  }

  lemma SoundGives(t: Tables, o: Options, root: Key, limit: nat, nodes: map<Key, nat>, k: Key)
    requires Sound(t, o, root, limit, nodes) && k in nodes
    ensures k in Ball(t, o, root, nodes[k])
  {
    hide Ball;
  }

  lemma NodesInBall(t: Tables, o: Options, root: Key, limit: nat, nodes: map<Key, nat>)
    requires Sound(t, o, root, limit, nodes)
    ensures nodes.Keys <= Ball(t, o, root, limit)
  {
    hide *;
    forall k | k in nodes.Keys ensures k in Ball(t, o, root, limit) {
      SoundGives(t, o, root, limit, nodes, k);
      SoundAt(t, o, root, limit, nodes, k);
      BallGrows(t, o, root, nodes[k], limit);
    }
  }

  /** A search that came to its end had room. */
  lemma EndIsRoomy(t: Tables, o: Options, root: Key, limit: nat, most: nat, s: Search, level: nat, expanded: set<Key>,
                   above: set<Key>)
    requires Kept(t, o, root, limit, most, s, level) && Progress(t, o, limit, s, expanded) && s.queue == []
    requires Counted(t, limit, s, expanded, above)
    ensures Roomy(t, o, root, limit, most) && |s.marks| == EdgeCount(t.edges, Above(t, o, root, limit))
  {
    hide *;
    EndIsExact(t, o, root, limit, most, s, level, expanded);
    ExactGives(t, o, root, limit, s);
    KeptGives(t, o, root, limit, most, s, level);
    CountedGives(t, limit, s, expanded, above);
    forall k | k in Above(t, o, root, limit) ensures k in above {
      AboveIsNode(t, o, root, limit, s.nodes, k);
      AllExpanded(t, o, limit, s, expanded);
    }
    CountedInBall(t, o, root, limit, s, expanded, above);
    EdgeCountRises(t.edges, Above(t, o, root, limit), above);
    EdgeCountRises(t.edges, above, Above(t, o, root, limit));
    assert |s.nodes| == |s.nodes.Keys|;
    RoomyIs(t, o, root, limit, most);
  }

  lemma RoomyIs(t: Tables, o: Options, root: Key, limit: nat, most: nat)
    ensures Roomy(t, o, root, limit, most) <==>
            |Ball(t, o, root, limit)| <= most && EdgeCount(t.edges, Above(t, o, root, limit)) <= HARD_MAX_EDGES
  {
    hide Ball;
    hide Above;
    hide EdgeCount;
  }

  lemma ExactGives(t: Tables, o: Options, root: Key, limit: nat, s: Search)
    requires Exact(t, o, root, limit, s)
    ensures s.nodes.Keys == Ball(t, o, root, limit)
  {
    hide Ball;
  }

  lemma AboveIsNode(t: Tables, o: Options, root: Key, limit: nat, nodes: map<Key, nat>, k: Key)
    requires Sound(t, o, root, limit, nodes) && nodes.Keys == Ball(t, o, root, limit) && k in Above(t, o, root, limit)
    ensures k in nodes && nodes[k] < limit
  {
    hide *;
    AboveIs(t, o, root, limit, k);
    BallGrows(t, o, root, limit - 1, limit);
    assert k in nodes.Keys;
    DepthInBall(t, o, root, limit, nodes, limit - 1, k);
  }

  lemma AboveIs(t: Tables, o: Options, root: Key, limit: nat, k: Key)
    requires k in Above(t, o, root, limit)
    ensures limit > 0 && k in Ball(t, o, root, limit - 1)
  {
    hide Ball;
  }

  lemma AllExpanded(t: Tables, o: Options, limit: nat, s: Search, expanded: set<Key>)
    requires Progress(t, o, limit, s, expanded) && s.queue == []
    ensures forall k :: k in s.nodes ==> k in expanded
  {
    hide Settled;
    NobodyWaits(s);
  }

  /** What any answer says. */
  ghost predicate Truthful(t: Tables, o: Options, root: Key, limit: nat, most: nat, nodes: map<Key, nat>,
                           marks: seq<Mark>, cycles: nat) {
    && Sound(t, o, root, limit, nodes) && |nodes| <= most && |marks| <= HARD_MAX_EDGES
    && SpanningTree(root, nodes, Tree(marks)) && MarksOk(t, o, limit, nodes, marks) && CyclesOk(Tree(marks), marks)
    && cycles == CountCycles(marks, o)
  }

  lemma KeptIsTruthful(t: Tables, o: Options, root: Key, limit: nat, most: nat, s: Search, level: nat)
    requires Kept(t, o, root, limit, most, s, level)
    ensures Truthful(t, o, root, limit, most, s.nodes, s.marks, s.cycles)
  {
    KeptGives(t, o, root, limit, most, s, level);
    hide Sound;
    hide SpanningTree;
    hide MarksOk;
    hide CyclesOk;
    hide QueueKnows;
    hide Tree;
    hide CountCycles;
  }

  lemma RefusedIsTruthful(t: Tables, o: Options, root: Key, limit: nat, most: nat, s: Search, level: nat)
    requires Refused(t, o, root, limit, most, s, level)
    ensures s.marks != [] && |s.nodes| == most
    ensures var last := s.marks[|s.marks| - 1];
            && last == Mark(last.edge, true, false, Followed)
            && last.edge.target !in s.nodes && Leaves(t, o, limit, s.nodes, last.edge)
            && Truthful(t, o, root, limit, most, s.nodes, s.marks[..|s.marks| - 1], s.cycles)
            && (last.edge.target in t.entities ==> most < |Ball(t, o, root, limit)|)
  {
    var last, kept := s.marks[|s.marks| - 1], s.(marks := s.marks[..|s.marks| - 1]);
    KeptIsTruthful(t, o, root, limit, most, kept, level);
    KeptGives(t, o, root, limit, most, kept, level);
    hide Kept;
    hide Truthful;
    hide Leaves;
    hide Ball;
    hide Sound;
    if last.edge.target in t.entities {
      NodesCut(t, o, root, limit, s.nodes, last.edge);
    }
  }

  lemma RefusedLacksRoom(t: Tables, o: Options, root: Key, limit: nat, most: nat, e: Edge)
    requires e in t.edges && Traversable(e, o) && (e.target in t.entities ==> most < |Ball(t, o, root, limit)|)
    ensures Intact(t) ==> !Roomy(t, o, root, limit, most)
  {
    assert e.active;
    hide Ball;
    hide EdgeCount;
    hide Above;
  }

  /** `graph`: every depth is a shortest distance. Nothing cut off, the nodes are all that can be reached
      within the depth, joined by a spanning tree; and nothing is cut off exactly when the limits leave
      room for what is in reach. Cut off by the node limit, the last edge claims to have been followed
      although its target was refused, and only that edge is wrong. */
  method Graph(t: Tables, o: Options, root: Key, maxDepth: int, maxNodes: int) returns (r: Outcome)
    ensures r.RootMissing? <==> root !in t.entities
    ensures r.BadDepth? <==> root in t.entities && !(0 <= maxDepth <= HARD_MAX_DEPTH)
    ensures r.BadNodeLimit? <==>
            root in t.entities && 0 <= maxDepth <= HARD_MAX_DEPTH && !(1 <= maxNodes <= HARD_MAX_NODES)
    ensures r.Found? && r.cut != MaxNodes ==>
            0 <= maxDepth && 0 < maxNodes && Truthful(t, o, root, maxDepth, maxNodes, r.nodes, r.marks, r.cycles)
    ensures r.Found? && r.cut == NoCut ==>
            0 <= maxDepth && Exact(t, o, root, maxDepth, Search(r.nodes, r.marks, [], r.cycles))
            && InOrder(t, maxDepth, r.nodes, r.marks) && Rising(r.nodes, EdgesOf(r.marks), maxDepth)
            && |r.marks| == EdgeCount(t.edges, Above(t, o, root, maxDepth))
    ensures r.Found? && r.cut == MaxEdges ==>
            0 <= maxDepth && |r.marks| == HARD_MAX_EDGES < EdgeCount(t.edges, Above(t, o, root, maxDepth))
    ensures r.Found? && r.cut == MaxNodes ==>
            && 0 <= maxDepth && 0 < maxNodes && |r.nodes| == maxNodes && r.marks != []
            && var last := r.marks[|r.marks| - 1];
               && last == Mark(last.edge, true, false, Followed)
               && last.edge.target !in r.nodes && Leaves(t, o, maxDepth, r.nodes, last.edge)
               && Truthful(t, o, root, maxDepth, maxNodes, r.nodes, r.marks[..|r.marks| - 1], r.cycles)
    ensures r.Found? ==> 0 <= maxDepth && 0 < maxNodes && (r.cut == NoCut ==> Roomy(t, o, root, maxDepth, maxNodes))
    ensures r.Found? && Intact(t) ==>
            0 <= maxDepth && 0 < maxNodes && (r.cut == NoCut <==> Roomy(t, o, root, maxDepth, maxNodes))
  {
    hide *;
    if root !in t.entities {
      return RootMissing;
    }
    if maxDepth < 0 || maxDepth > HARD_MAX_DEPTH {
      return BadDepth;
    }
    if maxNodes < 1 || maxNodes > HARD_MAX_NODES {
      return BadNodeLimit;
    }
    var limit: nat, most: nat := maxDepth, maxNodes;
    var s := Search(map[root := 0], [], [Item(root, 0, {root})], 0);
    var expanded := {};
    ghost var level: nat, above: set<Key> := 0, {};
    StartKept(t, o, root, limit, most);
    CountedStart(t, limit, root);
    OrderedStart(t);
    RisingStart(root);
    while s.queue != []
      invariant Kept(t, o, root, limit, most, s, level) && Progress(t, o, limit, s, expanded) && |s.nodes| <= most
      invariant Counted(t, limit, s, expanded, above) && Ordered(t, s.marks, above)
      invariant Rising(s.nodes, EdgesOf(s.marks), level) && level <= limit
      decreases most - |s.nodes| + |s.queue|
    {
      var item := s.queue[0];
      Popped(t, o, root, limit, most, s, level, expanded);
      ProgressGives(t, o, limit, s, expanded);
      var rest := s.(queue := s.queue[1..]);
      RisingAbove(s.nodes, EdgesOf(s.marks), level, item.depth);
      level := item.depth;
      SettledElsewhere(t, o, limit, s, rest, expanded);
      if item.key in expanded {
        ContinuesItself(rest);
        ProgressIs(t, o, limit, rest, expanded);
        CountedSame(t, limit, s, rest, expanded, above, item.key);
        assert expanded + {item.key} == expanded;
        s := rest;
      } else if item.depth >= limit {
        ContinuesItself(rest);
        Expanded(t, o, limit, rest, rest, expanded, item.key);
        CountedSame(t, limit, s, rest, expanded, above, item.key);
        expanded := expanded + {item.key};
        s := rest;
      } else {
        var outgoing := Outgoing(t, item.key);
        OutgoingAre(t, item.key);
        InHandIs(t, o, limit, rest, level, item);
        QueueAside(t, limit, s, expanded, above);
        var next, cut := Expand(t, o, root, limit, most, item, rest, outgoing, level);
        if cut == MaxNodes {
          RefusedIsTruthful(t, o, root, limit, most, next, level);
          LeavesIs(t, o, limit, next.nodes, next.marks[|next.marks| - 1].edge);
          RefusedLacksRoom(t, o, root, limit, most, next.marks[|next.marks| - 1].edge);
          return Found(next.nodes, next.marks, next.cycles, cut);
        }
        KeptIsTruthful(t, o, root, limit, most, next, level);
        if cut == MaxEdges {
          KeptGives(t, o, root, limit, most, rest, level);
          EdgesCut(t, o, root, limit, rest, expanded, above, item.key);
          RoomyIs(t, o, root, limit, most);
          return Found(next.nodes, next.marks, next.cycles, cut);
        }
        EdgesAre();
        QueryWhole(t, o, next, item.key);
        Expanded(t, o, limit, rest, next, expanded, item.key);
        OutgoingIsAll(t, item.key);
        CountedMore(t, limit, rest, next, expanded, above, item.key);
        NotCounted(t, limit, rest, expanded, above, item.key);
        OrderedMore(t, rest.marks, next.marks, above, item.key);
        ContinuesGives(rest, next);
        RisingMore(rest.nodes, next.nodes, EdgesOf(rest.marks), outgoing, level, level);
        KeptGives(t, o, root, limit, most, next, level);
        expanded := expanded + {item.key};
        above := above + {item.key};
        s := next;
      }
    }
    EndIsExact(t, o, root, limit, most, s, level, expanded);
    EndIsRoomy(t, o, root, limit, most, s, level, expanded, above);
    EndIsInOrder(t, o, limit, s, expanded, above);
    RisingAbove(s.nodes, EdgesOf(s.marks), level, limit);
    KeptIsTruthful(t, o, root, limit, most, s, level);
    return Found(s.nodes, s.marks, s.cycles, NoCut);
  }

  lemma QueueAside(t: Tables, limit: nat, s: Search, expanded: set<Key>, above: set<Key>)
    requires Counted(t, limit, s, expanded, above) && s.queue != []
    ensures Counted(t, limit, s.(queue := s.queue[1..]), expanded, above)
  {
    hide EdgeCount;
  }

  lemma EdgesAre()
    ensures HARD_MAX_EDGES == 1000
  {
  }

  lemma ContinuesGives(a: Search, b: Search)
    requires Continues(a, b)
    ensures |b.queue| - |a.queue| == |b.nodes| - |a.nodes| && Extends(a.nodes, b.nodes)
  {
    hide Waiting;
  }

  lemma OutgoingAre(t: Tables, k: Key)
    ensures forall j :: 0 <= j < |Outgoing(t, k)| ==>
              Outgoing(t, k)[j] in t.edges && Outgoing(t, k)[j].active && Outgoing(t, k)[j].source == k
  {
    hide Matching;
    forall j | 0 <= j < |Outgoing(t, k)|
      ensures Outgoing(t, k)[j] in t.edges && Outgoing(t, k)[j].active && Outgoing(t, k)[j].source == k
    {
      MatchingIs(t.edges, k, Matching(t.edges, k)[j]);
    }
  }

  lemma ProgressGives(t: Tables, o: Options, limit: nat, s: Search, expanded: set<Key>)
    requires Progress(t, o, limit, s, expanded)
    ensures forall k :: k in expanded ==> k in s.nodes && (s.nodes[k] < limit ==> Settled(t, o, s, k))
  {
    hide Settled;
    hide Waiting;
  }

  lemma ProgressIs(t: Tables, o: Options, limit: nat, s: Search, expanded: set<Key>)
    requires forall k :: k in s.nodes ==> k in expanded || Waiting(s.queue, k)
    requires forall k :: k in expanded ==> k in s.nodes && (s.nodes[k] < limit ==> Settled(t, o, s, k))
    ensures Progress(t, o, limit, s, expanded)
  {
    hide Settled;
    hide Waiting;
  }

  /** The queue plays no part in what is settled. */
  lemma SettledElsewhere(t: Tables, o: Options, limit: nat, a: Search, b: Search, expanded: set<Key>)
    requires a.nodes == b.nodes && a.marks == b.marks
    requires forall k :: k in expanded ==> k in a.nodes && (a.nodes[k] < limit ==> Settled(t, o, a, k))
    ensures forall k :: k in expanded ==> k in b.nodes && (b.nodes[k] < limit ==> Settled(t, o, b, k))
  {
    hide Done;
    hide Shown;
  }
}
