/** The dependency search on two concrete graphs: one where the node limit is met, and a ring. */
module DependencyExamples {
  import opened Common
  import opened DependencyGraph

  /** Three services, two configured edges from the first: with room for two nodes the second edge is
      reported as followed, and its target is not among the nodes. */
  method RefusedEdgeIsMarked() returns (r: Outcome)
    ensures r.Found? && r.cut == MaxNodes && |r.nodes| == 2 && r.marks != []
    ensures var last := r.marks[|r.marks| - 1]; last.traversed && last.edge.target !in r.nodes
  {
    var e1, e2 := Edge(1, 0, 1, Configured, true, 0, 0), Edge(2, 0, 2, Configured, true, 0, 0);
    var t, o := Tables({0, 1, 2}, [e1, e2]), Options(false, false, 0);
    ThreeInReach(t, o, e1, e2);
    r := Graph(t, o, 0, 1, 2);
  }

  lemma ThreeInReach(t: Tables, o: Options, e1: Edge, e2: Edge)
    requires e1 == Edge(1, 0, 1, Configured, true, 0, 0) && e2 == Edge(2, 0, 2, Configured, true, 0, 0)
    requires t == Tables({0, 1, 2}, [e1, e2]) && o == Options(false, false, 0)
    ensures Intact(t) && !Roomy(t, o, 0, 1, 2) && EdgeCount(t.edges, Above(t, o, 0, 1)) <= HARD_MAX_EDGES
  {
    assert t.edges[0] == e1 && t.edges[1] == e2;
    ConfiguredIsUsable(t, o, e1);
    ConfiguredIsUsable(t, o, e2);
    AllIntact(t);
    hide *;
    BallUnfold(t, o, 0, 0);
    BallStep(t, o, 0, 0, e1);
    BallStep(t, o, 0, 0, e2);
    BallGrows(t, o, 0, 0, 1);
    SubsetSize({0, 1, 2}, Ball(t, o, 0, 1));
    RoomyIs(t, o, 0, 1, 2);
    TwoEdges(e1, e2, Above(t, o, 0, 1));
    EdgesAre();
  }

  lemma ConfiguredIsUsable(t: Tables, o: Options, e: Edge)
    requires e in t.edges && e.active && e.evidence == Configured && e.target in t.entities
    ensures Usable(t, o, e)
  {
  }

  lemma AllIntact(t: Tables)
    requires forall e :: e in t.edges ==> e.target in t.entities
    ensures Intact(t)
  {
  }

  /** Two services that depend on each other: the edge back to the first is reported as a cycle, and it
      is counted. */
  method RingIsReported() returns (r: Outcome)
    ensures r.Found? && r.cut == NoCut && r.nodes == map[0 := 0, 1 := 1] && r.cycles == 1
    ensures r.marks == [Mark(Edge(1, 0, 1, Configured, true, 0, 0), true, false, Followed),
                        Mark(Edge(2, 1, 0, Configured, true, 0, 0), false, true, Followed)]
  {
    var e1, e2 := Edge(1, 0, 1, Configured, true, 0, 0), Edge(2, 1, 0, Configured, true, 0, 0);
    var t, o := Tables({0, 1}, [e1, e2]), Options(false, false, 0);
    RingIs(t, o, e1, e2);
    hide *;
    r := Graph(t, o, 0, 2, 10);
    RingInReach(t, o, e1, e2);
    RingAnswer(t, o, e1, e2, r.nodes, r.marks, r.cycles);
  }

  predicate IsRing(t: Tables, o: Options, e1: Edge, e2: Edge) {
    && e1 == Edge(1, 0, 1, Configured, true, 0, 0) && e2 == Edge(2, 1, 0, Configured, true, 0, 0)
    && t == Tables({0, 1}, [e1, e2]) && o == Options(false, false, 0)
  }

  lemma {:induction false} BallInside(t: Tables, o: Options, root: Key, n: nat)
    requires root in t.entities
    ensures Ball(t, o, root, n) <= t.entities
    decreases n
  {
    hide *;
    BallUnfold(t, o, root, 0);
    if n > 0 {
      BallInside(t, o, root, n - 1);
      forall k | k in Ball(t, o, root, n) ensures k in t.entities {
        BallNext(t, o, root, n - 1, k);
        if k !in Ball(t, o, root, n - 1) {
          var e :| Usable(t, o, e) && e.source in Ball(t, o, root, n - 1) && e.target == k;
          UsableIs(t, o, e);
        }
      }
    }
  }

  lemma RingEdges(t: Tables, o: Options, e1: Edge, e2: Edge)
    requires IsRing(t, o, e1, e2)
    ensures Usable(t, o, e1) && Usable(t, o, e2) && Intact(t) && t.entities == {0, 1}
    ensures Matching(t.edges, 0) == [e1] && Matching(t.edges, 1) == [e2]
  {
    assert t.edges[0] == e1 && t.edges[1] == e2;
    ConfiguredIsUsable(t, o, e1);
    ConfiguredIsUsable(t, o, e2);
    AllIntact(t);
    hide Traversable;
    assert t.edges == [e1] + [e2];
    assert [e1][1..] == [] && [e2][1..] == [];
    forall k | k == 0 || k == 1 ensures Matching(t.edges, k) == Matching([e1], k) + Matching([e2], k) {
      MatchingJoins([e1], [e2], k);
    }
  }

  lemma RingIs(t: Tables, o: Options, e1: Edge, e2: Edge)
    requires e1 == Edge(1, 0, 1, Configured, true, 0, 0) && e2 == Edge(2, 1, 0, Configured, true, 0, 0)
    requires t == Tables({0, 1}, [e1, e2]) && o == Options(false, false, 0)
    ensures IsRing(t, o, e1, e2)
  {
  }

  lemma RingCount(e1: Edge, e2: Edge)
    requires e1.active && e2.active && e1.source == 0 && e2.source == 1
    ensures EdgeCount([e1, e2], {0, 1}) == 2
  {
    assert [e1, e2][1..] == [e2] && [e2][1..] == [];
    assert EdgeCount([e2], {0, 1}) == 1;
  }

  lemma RingInReach(t: Tables, o: Options, e1: Edge, e2: Edge)
    requires IsRing(t, o, e1, e2)
    ensures Ball(t, o, 0, 0) == {0} && Ball(t, o, 0, 1) == {0, 1} == Ball(t, o, 0, 2)
    ensures Intact(t) && Roomy(t, o, 0, 2, 10) && EdgeCount(t.edges, Above(t, o, 0, 2)) == 2
  {
    hide Ball;
    hide Usable;
    hide EdgeCount;
    hide Matching;
    RingEdges(t, o, e1, e2);
    RingCount(e1, e2);
    BallUnfold(t, o, 0, 0);
    BallStep(t, o, 0, 0, e1);
    BallGrows(t, o, 0, 0, 1);
    BallGrows(t, o, 0, 1, 2);
    BallInside(t, o, 0, 1);
    BallInside(t, o, 0, 2);
  }

  lemma SoundDepth(t: Tables, o: Options, root: Key, limit: nat, nodes: map<Key, nat>, k: Key, n: nat)
    requires Sound(t, o, root, limit, nodes) && k in nodes && k in Ball(t, o, root, n)
    requires n > 0 ==> k !in Ball(t, o, root, n - 1)
    ensures nodes[k] == n
  {
    hide *;
    DepthInBall(t, o, root, limit, nodes, n, k);
    SoundGives(t, o, root, limit, nodes, k);
    if nodes[k] < n {
      BallGrows(t, o, root, nodes[k], n - 1);
      assert false;
    }
  }

  lemma RingDepths(t: Tables, o: Options, e1: Edge, e2: Edge, nodes: map<Key, nat>)
    requires IsRing(t, o, e1, e2) && Sound(t, o, 0, 2, nodes) && nodes.Keys == {0, 1}
    ensures nodes == map[0 := 0, 1 := 1]
  {
    hide *;
    RingInReach(t, o, e1, e2);
    assert 0 in nodes.Keys && 1 in nodes.Keys;
    SoundDepth(t, o, 0, 2, nodes, 0, 0);
    SoundDepth(t, o, 0, 2, nodes, 1, 1);
  }

  lemma RingOrder(t: Tables, o: Options, e1: Edge, e2: Edge, nodes: map<Key, nat>, marks: seq<Mark>)
    requires IsRing(t, o, e1, e2) && nodes == map[0 := 0, 1 := 1] && |marks| == 2
    requires InOrder(t, 2, nodes, marks) && Rising(nodes, EdgesOf(marks), 2)
    ensures marks[0].edge == e1 && marks[1].edge == e2
  {
    hide Matching;
    RingEdges(t, o, e1, e2);
    var edges := EdgesOf(marks);
    assert Matching(edges, 0) == [e1] && Matching(edges, 1) == [e2];
    MatchingIs(edges, 0, e1);
    MatchingIs(edges, 1, e2);
  }

  lemma RingTree(e1: Edge, e2: Edge, nodes: map<Key, nat>, m0: Mark, m1: Mark)
    requires nodes == map[0 := 0, 1 := 1] && SpanningTree(0, nodes, Tree([m0, m1]))
    requires m0.edge == e1 && m1.edge == e2 && e2.source == 1 && e2.target == 0
    ensures m0.traversed && !m1.traversed && Tree([m0, m1]) == [e1]
  {
    var o := Options(false, false, 0);
    assert [m0] + [m1] == [m0, m1] && [] + [m0] == [m0];
    MarkAdded([m0], m1, o);
    MarkAdded([], m0, o);
    var tree := Tree([m0, m1]);
    assert nodes.Keys == {0, 1};
    assert |nodes| == |nodes.Keys| == 2;
    assert ParentAbove(nodes, tree[0]);
  }

  lemma RingCycle(e1: Edge, e2: Edge, m0: Mark, m1: Mark)
    requires CyclesOk([e1], [m0, m1]) && m1.edge == e2
    requires e1.source == 0 && e1.target == 1 && e2.source == 1 && e2.target == 0
    ensures m1.cycle
  {
    hide Leads;
    assert [] + [e1] == [e1];
    LeadsNext([], e1, 0, 1);
    NoWay(0, 0);
    assert [m0, m1][1].cycle <==> Leads([e1], 0, 1);
  }

  lemma RingMark(t: Tables, o: Options, limit: nat, nodes: map<Key, nat>, m: Mark)
    requires MarkOk(t, o, limit, nodes, m) && Usable(t, o, m.edge) && (m.traversed || m.cycle)
    ensures m == Mark(m.edge, m.traversed, !m.traversed, Followed)
  {
    hide Closes;
  }

  /** In the ring there is only one answer. */
  lemma RingMarks(t: Tables, o: Options, e1: Edge, e2: Edge, nodes: map<Key, nat>, m0: Mark, m1: Mark, cycles: nat)
    requires IsRing(t, o, e1, e2) && Truthful(t, o, 0, 2, 10, nodes, [m0, m1], cycles) && nodes.Keys == {0, 1}
    requires InOrder(t, 2, nodes, [m0, m1]) && Rising(nodes, EdgesOf([m0, m1]), 2)
    ensures nodes == map[0 := 0, 1 := 1] && cycles == 1
    ensures m0 == Mark(e1, true, false, Followed) && m1 == Mark(e2, false, true, Followed)
  {
    hide Sound;
    hide SpanningTree;
    hide MarkOk;
    hide CyclesOk;
    hide Tree;
    hide CountCycles;
    hide Usable;
    hide InOrder;
    hide Rising;
    hide Traversable;
    RingDepths(t, o, e1, e2, nodes);
    RingEdges(t, o, e1, e2);
    RingOrder(t, o, e1, e2, nodes, [m0, m1]);
    RingTree(e1, e2, nodes, m0, m1);
    RingCycle(e1, e2, m0, m1);
    assert MarkOk(t, o, 2, nodes, [m0, m1][0]) && MarkOk(t, o, 2, nodes, [m0, m1][1]);
    RingMark(t, o, 2, nodes, m0);
    RingMark(t, o, 2, nodes, m1);
    UsableIs(t, o, e2);
    assert [m0] + [m1] == [m0, m1] && [] + [m0] == [m0];
    MarkAdded([m0], m1, o);
    MarkAdded([], m0, o);
    CountNone(o);
  }

  lemma RingAnswer(t: Tables, o: Options, e1: Edge, e2: Edge, nodes: map<Key, nat>, marks: seq<Mark>, cycles: nat)
    requires IsRing(t, o, e1, e2) && Truthful(t, o, 0, 2, 10, nodes, marks, cycles)
    requires Exact(t, o, 0, 2, Search(nodes, marks, [], cycles)) && |marks| == EdgeCount(t.edges, Above(t, o, 0, 2))
    requires InOrder(t, 2, nodes, marks) && Rising(nodes, EdgesOf(marks), 2)
    ensures nodes == map[0 := 0, 1 := 1] && cycles == 1
    ensures marks == [Mark(e1, true, false, Followed), Mark(e2, false, true, Followed)]
  {
    hide *;
    RingInReach(t, o, e1, e2);
    ExactGives(t, o, 0, 2, Search(nodes, marks, [], cycles));
    assert marks == [marks[0], marks[1]];
    RingMarks(t, o, e1, e2, nodes, marks[0], marks[1], cycles);
  }

  lemma CountNone(o: Options)
    ensures CountCycles([], o) == 0
  {
  }

  lemma TwoEdges(e1: Edge, e2: Edge, keys: set<Key>)
    ensures EdgeCount([e1, e2], keys) <= 2
  {
    assert [e1, e2][1..] == [e2] && [e2][1..] == [];
    assert EdgeCount([e2], keys) <= 1;
  }
}
