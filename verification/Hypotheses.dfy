/** The three rules that turn an incident's facts into hypotheses (correlation.py), and the order of
    facts they work on.

    Whether two facts are related is a parameter here; `Relatedness` decides it. A fact is known by its
    source type and reference. Texts are numbers, times are integers. */
module Hypotheses {
  import opened Common
  import HypothesisStore

  const MAX_HYPOTHESES := 25
  const RULE_WINDOW := 1800
  const NEARBY := 900
  const CHANGE_EVENT := 1
  const ANALYTICS_INSIGHT := 2

  datatype Fact = Fact(ts: int, typ: nat, ref: nat, degrading: bool, healthy: bool, signal: nat, pathEvent: bool)

  type Relation = (Fact, Fact) -> bool

  // ---- The order of facts ----

  /** By time, then source type, then reference. */
  predicate Before(a: Fact, b: Fact) {
    a.ts < b.ts || (a.ts == b.ts && (a.typ < b.typ || (a.typ == b.typ && a.ref < b.ref)))
  }

  /** Rising without ties: no two facts share type and reference at one time. */
  predicate Ordered(fs: seq<Fact>) {
    forall i, j :: 0 <= i < j < |fs| ==> Before(fs[i], fs[j])
  }

  /** No two facts of a list have the same source. */
  predicate Sourced(fs: seq<Fact>) {
    forall i, j :: 0 <= i < j < |fs| ==> !(fs[i].typ == fs[j].typ && fs[i].ref == fs[j].ref)
  }

  lemma {:induction false} OrderedUnique(a: seq<Fact>, b: seq<Fact>)
    requires Ordered(a) && Ordered(b) && multiset(a) == multiset(b)
    ensures a == b
    decreases |a|
  {
    hide *;
    assert |a| == |multiset(a)| == |multiset(b)| == |b|;
    if a != [] {
      FirstIsLeast(a, b);
      FirstIsLeast(b, a);
      NotBoth(a[0], b[0]);
      RestIs(a);
      RestIs(b);
      OrderedUnique(a[1..], b[1..]);
    }
  }

  lemma NotBoth(a: Fact, b: Fact)
    ensures !(Before(a, b) && Before(b, a))
  {
  }

  lemma RestIs(a: seq<Fact>)
    requires a != [] && Ordered(a)
    ensures a == [a[0]] + a[1..] && multiset(a[1..]) == multiset(a) - multiset{a[0]} && Ordered(a[1..])
  {
    hide Before;
    assert a == [a[0]] + a[1..];
  }

  lemma FirstIsLeast(a: seq<Fact>, b: seq<Fact>)
    requires a != [] && b != [] && Ordered(b) && multiset(a) == multiset(b)
    ensures a[0] == b[0] || Before(b[0], a[0])
  {
    assert a[0] in multiset(a);
    assert a[0] in multiset(b);
    var i :| 0 <= i < |b| && b[i] == a[0];
  }

  /** `facts.sort(...)`, by insertion. */
  method SortFacts(timeline: seq<Fact>) returns (facts: seq<Fact>)
    requires Sourced(timeline)
    ensures Ordered(facts) && multiset(facts) == multiset(timeline)
  {
    facts := [];
    for k := 0 to |timeline|
      invariant Ordered(facts) && multiset(facts) == multiset(timeline[..k])
    {
      var f := timeline[k];
      assert timeline[..k + 1] == timeline[..k] + [f];
      NewSource(timeline, k, facts);
      facts := InsertFact(facts, f);
    }
    assert timeline[..|timeline|] == timeline;
  }

  lemma NewSource(timeline: seq<Fact>, k: nat, facts: seq<Fact>)
    requires Sourced(timeline) && k < |timeline| && multiset(facts) == multiset(timeline[..k])
    ensures forall i :: 0 <= i < |facts| ==> Before(facts[i], timeline[k]) || Before(timeline[k], facts[i])
  {
    forall i | 0 <= i < |facts| ensures Before(facts[i], timeline[k]) || Before(timeline[k], facts[i]) {
      assert facts[i] in multiset(facts);
      assert facts[i] in multiset(timeline[..k]);
      var j :| 0 <= j < k && timeline[..k][j] == facts[i];
      assert timeline[j] == facts[i];
    }
  }

  method InsertFact(facts: seq<Fact>, f: Fact) returns (more: seq<Fact>)
    requires Ordered(facts)
    requires forall i :: 0 <= i < |facts| ==> Before(facts[i], f) || Before(f, facts[i])
    ensures Ordered(more) && multiset(more) == multiset(facts) + multiset{f}
  {
    var at := 0;
    while at < |facts| && Before(facts[at], f)
      invariant at <= |facts| && forall i :: 0 <= i < at ==> Before(facts[i], f)
    {
      at := at + 1;
    }
    more := facts[..at] + [f] + facts[at..];
    assert facts == facts[..at] + facts[at..];
    forall i | at <= i < |facts| ensures Before(f, facts[i]) {
      if i > at {
        assert Before(facts[at], facts[i]);
      }
    }
  }

  // ---- The rules ----

  /** What a hypothesis is known by: the rule and the source, or sources, it is about. */
  datatype Cluster = Single(ref: nat) | Group(sources: multiset<(nat, nat)>)

  datatype Evidence = Evidence(fact: Fact, weight: int)

  datatype Hypothesis = Hypothesis(rule: nat, cluster: Cluster, anchor: Fact, initiating: Fact,
                                   supporting: seq<Evidence>, contradicting: seq<Evidence>)

  function Where(fs: seq<Fact>, keep: Fact -> bool): (r: seq<Fact>)
    ensures forall f :: f in r <==> f in fs && keep(f)
  {
    if fs == [] then []
    else
      assert fs == fs[..|fs| - 1] + [fs[|fs| - 1]];
      Where(fs[..|fs| - 1], keep) + (if keep(fs[|fs| - 1]) then [fs[|fs| - 1]] else [])
  }

  predicate Within(a: Fact, b: Fact, seconds: int) {
    -seconds <= a.ts - b.ts <= seconds
  }

  function Weighed(fs: seq<Fact>, weight: int): (r: seq<Evidence>)
    ensures |r| == |fs| && forall i :: 0 <= i < |fs| ==> r[i] == Evidence(fs[i], weight)
  {
    seq(|fs|, i requires 0 <= i < |fs| => Evidence(fs[i], weight))
  }

  function Degradations(facts: seq<Fact>): seq<Fact> {
    Where(facts, (f: Fact) => f.degrading)
  }

  /** Healthy facts near an anchor and related to it speak against it. */
  function Against(facts: seq<Fact>, anchor: Fact, rel: Relation, weight: int): seq<Evidence> {
    Weighed(Where(facts, (f: Fact) => f.healthy && Within(f, anchor, NEARBY) && rel(f, anchor)), weight)
  }

  /** Degradations that follow a change within the window and are related to it. */
  function Following(facts: seq<Fact>, change: Fact, rel: Relation): seq<Fact> {
    Where(Degradations(facts), (f: Fact) => 0 <= f.ts - change.ts <= RULE_WINDOW && rel(change, f))
  }

  /** Further signals of classes not seen yet, until three classes are seen. */
  function NewSignals(fs: seq<Fact>, seen: set<nat>): (r: seq<Fact>)
    ensures forall f :: f in r ==> f in fs
  {
    if fs == [] then []
    else if fs[0].signal in seen then NewSignals(fs[1..], seen)
    else if |seen| + 1 >= 3 then [fs[0]]
    else [fs[0]] + NewSignals(fs[1..], seen + {fs[0].signal})
  }

  /** A configuration change before a related degradation. */
  function ChangeRule(facts: seq<Fact>, change: Fact, rel: Relation): Option<Hypothesis> {
    var found := Following(facts, change, rel);
    if found == [] then None
    else
      Some(Hypothesis(1, Single(change.ref), change, found[0],
                      [Evidence(change, 24), Evidence(found[0], 28)]
                      + Weighed(NewSignals(found[1..], {found[0].signal}), 10),
                      Against(facts, found[0], rel, 18)))
  }

  function Changes(facts: seq<Fact>): seq<Fact> {
    Where(facts, (f: Fact) => f.typ == CHANGE_EVENT)
  }

  function PathRuleFound(facts: seq<Fact>, net: Fact, rel: Relation): seq<Fact> {
    Where(Degradations(facts), (f: Fact) => f != net && Within(net, f, NEARBY) && rel(net, f))
  }

  /** Degraded path evidence beside a related degradation. */
  function PathRule(facts: seq<Fact>, net: Fact, rel: Relation): Option<Hypothesis> {
    var found := PathRuleFound(facts, net, rel);
    if found == [] then None
    else Some(Hypothesis(2, Single(net.ref), net, found[0], [Evidence(net, 28), Evidence(found[0], 24)],
                         Against(facts, net, rel, 20)))
  }

  function PathFacts(facts: seq<Fact>): seq<Fact> {
    Where(Degradations(facts), (f: Fact) => f.typ == ANALYTICS_INSIGHT && f.pathEvent)
  }

  /** Later degradations near the first one, related to it, each of a class of its own. */
  function Companions(first: Fact, later: seq<Fact>, seen: set<nat>, rel: Relation): (r: seq<Fact>)
    ensures forall f :: f in r ==> f in later && Within(first, f, NEARBY) && rel(first, f)
  {
    if later == [] then []
    else if Within(first, later[0], NEARBY) && rel(first, later[0]) && later[0].signal !in seen then
      [later[0]] + Companions(first, later[1..], seen + {later[0].signal}, rel)
    else Companions(first, later[1..], seen, rel)
  }

  function SourcesOf(fs: seq<Fact>): multiset<(nat, nat)> {
    if fs == [] then multiset{} else SourcesOf(fs[..|fs| - 1]) + multiset{(fs[|fs| - 1].typ, fs[|fs| - 1].ref)}
  }

  function ClusterOf(ds: seq<Fact>, i: nat, rel: Relation): seq<Fact>
    requires i < |ds|
  {
    [ds[i]] + Companions(ds[i], ds[i + 1..], {ds[i].signal}, rel)
  }

  /** Several kinds of degradation on related entities. */
  function ClusterRule(facts: seq<Fact>, i: nat, rel: Relation): Option<Hypothesis>
    requires i < |Degradations(facts)|
  {
    var cluster := ClusterOf(Degradations(facts), i, rel);
    if |cluster| < 2 then None
    else
      Some(Hypothesis(3, Group(SourcesOf(cluster)), cluster[0], cluster[0],
                      Weighed(if |cluster| > 4 then cluster[..4] else cluster, 16),
                      Against(facts, cluster[0], rel, 16)))
  }

  // ---- Everything the rules give ----

  function ByChange(facts: seq<Fact>, rel: Relation, n: nat): seq<Hypothesis>
    requires n <= |Changes(facts)|
  {
    if n == 0 then []
    else
      var h := ChangeRule(facts, Changes(facts)[n - 1], rel);
      ByChange(facts, rel, n - 1) + (if h.Some? then [h.value] else [])
  }

  function ByPath(facts: seq<Fact>, rel: Relation, n: nat): seq<Hypothesis>
    requires n <= |PathFacts(facts)|
  {
    if n == 0 then []
    else
      var h := PathRule(facts, PathFacts(facts)[n - 1], rel);
      ByPath(facts, rel, n - 1) + (if h.Some? then [h.value] else [])
  }

  predicate Used(hs: seq<Hypothesis>, c: Cluster) {
    exists i :: 0 <= i < |hs| && hs[i].cluster == c
  }

  /** A group of sources is reported once. */
  function ByCluster(facts: seq<Fact>, rel: Relation, n: nat): seq<Hypothesis>
    requires n <= |Degradations(facts)|
  {
    if n == 0 then []
    else
      var before := ByCluster(facts, rel, n - 1);
      var h := ClusterRule(facts, n - 1, rel);
      before + (if h.Some? && !Used(before, h.value.cluster) then [h.value] else [])
  }

  function All(facts: seq<Fact>, rel: Relation): seq<Hypothesis> {
    ByChange(facts, rel, |Changes(facts)|) + ByPath(facts, rel, |PathFacts(facts)|)
    + ByCluster(facts, rel, |Degradations(facts)|)
  }

  function Capped(hs: seq<Hypothesis>): (r: seq<Hypothesis>)
    ensures r <= hs && |r| <= MAX_HYPOTHESES
  {
    if |hs| > MAX_HYPOTHESES then hs[..MAX_HYPOTHESES] else hs
  }

  // ---- What the rules promise ----

  lemma {:induction false} WhereKeepsOrder(fs: seq<Fact>, keep: Fact -> bool)
    ensures Ordered(fs) ==> Ordered(Where(fs, keep))
    ensures Sourced(fs) ==> Sourced(Where(fs, keep))
    decreases |fs|
  {
    if fs != [] {
      var front, last := fs[..|fs| - 1], fs[|fs| - 1];
      WhereKeepsOrder(front, keep);
      forall f | f in Where(front, keep)
        ensures Ordered(fs) ==> Before(f, last)
        ensures Sourced(fs) ==> !(f.typ == last.typ && f.ref == last.ref)
      {
        var i :| 0 <= i < |front| && front[i] == f;
        assert fs[i] == f;
      }
      AppendKeepsOrder(Where(front, keep), last, Ordered(fs), Sourced(fs));
    }
  }

  lemma AppendKeepsOrder(fs: seq<Fact>, last: Fact, ordered: bool, sourced: bool)
    requires ordered ==> Ordered(fs) && forall f :: f in fs ==> Before(f, last)
    requires sourced ==> Sourced(fs) && forall f :: f in fs ==> !(f.typ == last.typ && f.ref == last.ref)
    ensures ordered ==> Ordered(fs + [last])
    ensures sourced ==> Sourced(fs + [last])
  {
  }

  predicate Follows(facts: seq<Fact>, change: Fact, rel: Relation, d: Fact) {
    d in facts && d.degrading && 0 <= d.ts - change.ts <= RULE_WINDOW && rel(change, d)
  }

  lemma FollowingIs(facts: seq<Fact>, change: Fact, rel: Relation)
    ensures forall d :: d in Following(facts, change, rel) <==> Follows(facts, change, rel, d)
    ensures Ordered(facts) ==> Ordered(Following(facts, change, rel))
  {
    var keep := (f: Fact) => 0 <= f.ts - change.ts <= RULE_WINDOW && rel(change, f);
    WhereKeepsOrder(facts, (f: Fact) => f.degrading);
    WhereKeepsOrder(Degradations(facts), keep);
    hide Where;
    hide Ordered;
    assert Following(facts, change, rel) == Where(Degradations(facts), keep);
  }

  /** A change is suspected exactly when a related degradation follows it within half an hour, and the
      earliest of them is named as the one it may have started. */
  lemma ChangeIsSuspectedIff(facts: seq<Fact>, change: Fact, rel: Relation)
    requires Ordered(facts)
    ensures ChangeRule(facts, change, rel).Some? <==> exists d :: Follows(facts, change, rel, d)
    ensures ChangeRule(facts, change, rel).Some? ==>
              var first := ChangeRule(facts, change, rel).value.initiating;
              Follows(facts, change, rel, first)
              && forall d :: Follows(facts, change, rel, d) ==> d == first || Before(first, d)
  {
    FollowingIs(facts, change, rel);
    hide Following;
    hide Against;
    hide NewSignals;
    hide Follows;
    hide Before;
    var found := Following(facts, change, rel);
    if found != [] {
      assert found[0] in found;
      FirstOfOrdered(found);
    }
  }

  lemma FirstOfOrdered(fs: seq<Fact>)
    requires fs != [] && Ordered(fs)
    ensures forall d :: d in fs ==> d == fs[0] || Before(fs[0], d)
  {
  }

  /** A fact is mentioned with good reason: it is the anchor itself or related to it. */
  predicate Justified(facts: seq<Fact>, rel: Relation, h: Hypothesis) {
    && h.anchor in facts && h.supporting != []
    && (forall e :: e in h.supporting ==> e.fact in facts && (e.fact == h.anchor || rel(h.anchor, e.fact)))
    && (forall e :: e in h.contradicting ==>
          e.fact in facts && e.fact.healthy && (rel(e.fact, h.anchor) || rel(e.fact, h.initiating)))
  }

  lemma WeighedIs(fs: seq<Fact>, weight: int, e: Evidence)
    requires e in Weighed(fs, weight)
    ensures e.fact in fs
  {
    var i :| 0 <= i < |fs| && Weighed(fs, weight)[i] == e;
  }

  lemma AgainstIs(facts: seq<Fact>, anchor: Fact, rel: Relation, weight: int, e: Evidence)
    requires e in Against(facts, anchor, rel, weight)
    ensures e.fact in facts && e.fact.healthy && rel(e.fact, anchor)
  {
    hide Where;
    hide Weighed;
    WeighedIs(Where(facts, (f: Fact) => f.healthy && Within(f, anchor, NEARBY) && rel(f, anchor)), weight, e);
  }

  lemma DegradationIs(facts: seq<Fact>, f: Fact)
    ensures f in Degradations(facts) <==> f in facts && f.degrading
  {
    hide Where;
  }

  /** The pieces of a hypothesis, each seen to be justified. */
  lemma JustifiedIf(facts: seq<Fact>, rel: Relation, h: Hypothesis, near: Fact, weight: int)
    requires h.anchor in facts && h.supporting != []
    requires forall i :: 0 <= i < |h.supporting| ==>
               h.supporting[i].fact in facts
               && (h.supporting[i].fact == h.anchor || rel(h.anchor, h.supporting[i].fact))
    requires h.contradicting == Against(facts, near, rel, weight) && (near == h.anchor || near == h.initiating)
    ensures Justified(facts, rel, h)
  {
    hide Against;
    forall e | e in h.contradicting ensures e.fact in facts && e.fact.healthy && rel(e.fact, near) {
      AgainstIs(facts, near, rel, weight, e);
    }
  }

  lemma ChangeJustified(facts: seq<Fact>, change: Fact, rel: Relation)
    requires change in facts
    ensures var h := ChangeRule(facts, change, rel); h.Some? ==> Justified(facts, rel, h.value) && h.value.rule == 1
                                                                 && h.value.cluster == Single(change.ref)
  {
    hide Justified;
    hide Against;
    hide Following;
    hide NewSignals;
    var found := Following(facts, change, rel);
    FollowingIs(facts, change, rel);
    if found != [] {
      var h := ChangeRule(facts, change, rel).value;
      var more := NewSignals(found[1..], {found[0].signal});
      assert found[0] in found;
      forall i | 0 <= i < |more| ensures more[i] in found {
        assert more[i] in more;
        assert more[i] in found[1..];
      }
      JustifiedIf(facts, rel, h, found[0], 18);
    }
  }

  lemma PathJustified(facts: seq<Fact>, net: Fact, rel: Relation)
    requires net in facts
    ensures var h := PathRule(facts, net, rel); h.Some? ==> Justified(facts, rel, h.value) && h.value.rule == 2
                                                            && h.value.cluster == Single(net.ref)
  {
    hide Justified;
    hide Against;
    hide Where;
    var found := PathRuleFound(facts, net, rel);
    if found != [] {
      assert found[0] in found;
      DegradationIs(facts, found[0]);
      JustifiedIf(facts, rel, PathRule(facts, net, rel).value, net, 20);
    }
  }

  lemma ClusterJustified(facts: seq<Fact>, i: nat, rel: Relation)
    requires i < |Degradations(facts)|
    ensures var h := ClusterRule(facts, i, rel); h.Some? ==> Justified(facts, rel, h.value) && h.value.rule == 3
  {
    hide Justified;
    hide Against;
    hide Where;
    hide Companions;
    hide SourcesOf;
    var ds := Degradations(facts);
    var cluster := ClusterOf(ds, i, rel);
    forall k | 0 <= k < |cluster| ensures cluster[k] in facts && (cluster[k] == ds[i] || rel(ds[i], cluster[k])) {
      InCluster(ds, i, rel, cluster[k]);
      DegradationIs(facts, cluster[k]);
    }
    if |cluster| >= 2 {
      JustifiedIf(facts, rel, ClusterRule(facts, i, rel).value, cluster[0], 16);
    }
  }

  lemma InCluster(ds: seq<Fact>, i: nat, rel: Relation, f: Fact)
    requires i < |ds| && f in ClusterOf(ds, i, rel)
    ensures f in ds && (f == ds[i] || rel(ds[i], f))
  {
    hide Companions;
    if f != ds[i] {
      assert f in Companions(ds[i], ds[i + 1..], {ds[i].signal}, rel);
      assert f in ds[i + 1..];
    }
  }

  lemma {:induction false} ByChangeIs(facts: seq<Fact>, rel: Relation, n: nat, h: Hypothesis)
    requires n <= |Changes(facts)| && h in ByChange(facts, rel, n)
    ensures h.rule == 1 && Justified(facts, rel, h)
    ensures exists i :: 0 <= i < n && h.cluster == Single(Changes(facts)[i].ref)
    decreases n
  {
    hide *;
    ByNone(facts, rel);
    assert n > 0;
    ByNext(facts, rel, n - 1);
    if h in ByChange(facts, rel, n - 1) {
      ByChangeIs(facts, rel, n - 1, h);
    } else {
      ChangeIs(facts, n - 1);
      ChangeJustified(facts, Changes(facts)[n - 1], rel);
      assert h.cluster == Single(Changes(facts)[n - 1].ref);
    }
  }

  lemma ChangeIs(facts: seq<Fact>, i: nat)
    requires i < |Changes(facts)|
    ensures Changes(facts)[i] in facts && Changes(facts)[i].typ == CHANGE_EVENT
  {
    hide Where;
    assert Changes(facts)[i] in Changes(facts);
  }

  lemma PathFactIs(facts: seq<Fact>, i: nat)
    requires i < |PathFacts(facts)|
    ensures PathFacts(facts)[i] in facts && PathFacts(facts)[i].typ == ANALYTICS_INSIGHT
  {
    hide Where;
    assert PathFacts(facts)[i] in PathFacts(facts);
    DegradationIs(facts, PathFacts(facts)[i]);
  }

  lemma {:induction false} ByPathIs(facts: seq<Fact>, rel: Relation, n: nat, h: Hypothesis)
    requires n <= |PathFacts(facts)| && h in ByPath(facts, rel, n)
    ensures h.rule == 2 && Justified(facts, rel, h)
    ensures exists i :: 0 <= i < n && h.cluster == Single(PathFacts(facts)[i].ref)
    decreases n
  {
    hide *;
    ByNone(facts, rel);
    assert n > 0;
    ByNext(facts, rel, n - 1);
    if h in ByPath(facts, rel, n - 1) {
      ByPathIs(facts, rel, n - 1, h);
    } else {
      PathFactIs(facts, n - 1);
      PathJustified(facts, PathFacts(facts)[n - 1], rel);
      assert h.cluster == Single(PathFacts(facts)[n - 1].ref);
    }
  }

  lemma {:induction false} ByClusterIs(facts: seq<Fact>, rel: Relation, n: nat, h: Hypothesis)
    requires n <= |Degradations(facts)| && h in ByCluster(facts, rel, n)
    ensures h.rule == 3 && Justified(facts, rel, h)
    decreases n
  {
    hide *;
    ByNone(facts, rel);
    assert n > 0;
    ByNext(facts, rel, n - 1);
    if h in ByCluster(facts, rel, n - 1) {
      ByClusterIs(facts, rel, n - 1, h);
    } else {
      ClusterJustified(facts, n - 1, rel);
    }
  }

  /** Nearness in time alone never makes a hypothesis. */
  lemma EveryHypothesisIsJustified(facts: seq<Fact>, rel: Relation, h: Hypothesis)
    requires h in All(facts, rel)
    ensures Justified(facts, rel, h)
  {
    hide ByChange;
    hide ByPath;
    hide ByCluster;
    hide Justified;
    if h in ByChange(facts, rel, |Changes(facts)|) {
      ByChangeIs(facts, rel, |Changes(facts)|, h);
    } else if h in ByPath(facts, rel, |PathFacts(facts)|) {
      ByPathIs(facts, rel, |PathFacts(facts)|, h);
    } else {
      ByClusterIs(facts, rel, |Degradations(facts)|, h);
    }
  }

  // ---- Keys ----

  predicate SameKey(a: Hypothesis, b: Hypothesis) {
    a.rule == b.rule && a.cluster == b.cluster
  }

  predicate KeysDiffer(hs: seq<Hypothesis>) {
    forall i, j :: 0 <= i < j < |hs| ==> !SameKey(hs[i], hs[j])
  }

  lemma KeysAppend(a: seq<Hypothesis>, b: seq<Hypothesis>)
    requires KeysDiffer(a) && KeysDiffer(b)
    requires forall g, h :: g in a && h in b ==> !SameKey(g, h)
    ensures KeysDiffer(a + b)
  {
    var all := a + b;
    forall i, j | 0 <= i < j < |all| ensures !SameKey(all[i], all[j]) {
      if i < |a| && j >= |a| {
        assert all[i] in a && all[j] in b;
      }
    }
  }

  /** A key that none of the others has. */
  lemma KeysWithOneMore(hs: seq<Hypothesis>, h: Hypothesis)
    requires KeysDiffer(hs) && forall g :: g in hs ==> !SameKey(g, h)
    ensures KeysDiffer(hs + [h])
  {
    hide SameKey;
    KeysAppend(hs, [h]);
  }

  lemma {:induction false} ChangeKeysDiffer(facts: seq<Fact>, rel: Relation, n: nat)
    requires Sourced(facts) && n <= |Changes(facts)|
    ensures KeysDiffer(ByChange(facts, rel, n))
    decreases n
  {
    hide *;
    ByNone(facts, rel);
    if n == 0 {
      NoKeys();
    } else {
      ChangeKeysDiffer(facts, rel, n - 1);
      ByNext(facts, rel, n - 1);
      var h := ChangeRule(facts, Changes(facts)[n - 1], rel);
      if h.Some? {
        forall g | g in ByChange(facts, rel, n - 1) ensures !SameKey(g, h.value) {
          ByChangeIs(facts, rel, n - 1, g);
          var i :| 0 <= i < n - 1 && g.cluster == Single(Changes(facts)[i].ref);
          ChangeRefsDiffer(facts, i, n - 1);
          ChangeIs(facts, n - 1);
          ChangeJustified(facts, Changes(facts)[n - 1], rel);
          RefsMakeKeys(g, h.value);
        }
        KeysWithOneMore(ByChange(facts, rel, n - 1), h.value);
      } else {
        assert ByChange(facts, rel, n - 1) + [] == ByChange(facts, rel, n - 1);
      }
    }
  }

  lemma NoKeys()
    ensures KeysDiffer([])
  {
  }

  lemma RefsMakeKeys(g: Hypothesis, h: Hypothesis)
    requires g.cluster != h.cluster
    ensures !SameKey(g, h)
  {
  }

  lemma ChangeRefsDiffer(facts: seq<Fact>, i: nat, j: nat)
    requires Sourced(facts) && i < j < |Changes(facts)|
    ensures Changes(facts)[i].ref != Changes(facts)[j].ref
  {
    WhereKeepsOrder(facts, (f: Fact) => f.typ == CHANGE_EVENT);
    hide Where;
    ChangeIs(facts, i);
    ChangeIs(facts, j);
  }

  lemma PathRefsDiffer(facts: seq<Fact>, i: nat, j: nat)
    requires Sourced(facts) && i < j < |PathFacts(facts)|
    ensures PathFacts(facts)[i].ref != PathFacts(facts)[j].ref
  {
    WhereKeepsOrder(facts, (f: Fact) => f.degrading);
    WhereKeepsOrder(Degradations(facts), (f: Fact) => f.typ == ANALYTICS_INSIGHT && f.pathEvent);
    hide Where;
    PathFactIs(facts, i);
    PathFactIs(facts, j);
  }

  lemma {:induction false} PathKeysDiffer(facts: seq<Fact>, rel: Relation, n: nat)
    requires Sourced(facts) && n <= |PathFacts(facts)|
    ensures KeysDiffer(ByPath(facts, rel, n))
    decreases n
  {
    hide *;
    ByNone(facts, rel);
    if n == 0 {
      NoKeys();
    } else {
      PathKeysDiffer(facts, rel, n - 1);
      ByNext(facts, rel, n - 1);
      var h := PathRule(facts, PathFacts(facts)[n - 1], rel);
      if h.Some? {
        forall g | g in ByPath(facts, rel, n - 1) ensures !SameKey(g, h.value) {
          ByPathIs(facts, rel, n - 1, g);
          var i :| 0 <= i < n - 1 && g.cluster == Single(PathFacts(facts)[i].ref);
          PathRefsDiffer(facts, i, n - 1);
          PathFactIs(facts, n - 1);
          PathJustified(facts, PathFacts(facts)[n - 1], rel);
          RefsMakeKeys(g, h.value);
        }
        KeysWithOneMore(ByPath(facts, rel, n - 1), h.value);
      } else {
        assert ByPath(facts, rel, n - 1) + [] == ByPath(facts, rel, n - 1);
      }
    }
  }

  lemma {:induction false} ClusterKeysDiffer(facts: seq<Fact>, rel: Relation, n: nat)
    requires n <= |Degradations(facts)|
    ensures KeysDiffer(ByCluster(facts, rel, n))
    decreases n
  {
    hide *;
    ByNone(facts, rel);
    if n == 0 {
      NoKeys();
    } else {
      ClusterKeysDiffer(facts, rel, n - 1);
      ByNext(facts, rel, n - 1);
      var before, h := ByCluster(facts, rel, n - 1), ClusterRule(facts, n - 1, rel);
      if h.Some? && !Used(before, h.value.cluster) {
        UnusedIsNew(before, h.value);
        KeysWithOneMore(before, h.value);
      } else {
        assert before + [] == before;
      }
    }
  }

  lemma UnusedIsNew(hs: seq<Hypothesis>, h: Hypothesis)
    requires !Used(hs, h.cluster)
    ensures forall g :: g in hs ==> !SameKey(g, h)
  {
  }

  /** At most 25 hypotheses, no two of them with the same key. */
  lemma EvaluationKeysDiffer(facts: seq<Fact>, rel: Relation)
    requires Sourced(facts)
    ensures KeysDiffer(Capped(All(facts, rel))) && |Capped(All(facts, rel))| <= MAX_HYPOTHESES
  {
    var a, b, c := ByChange(facts, rel, |Changes(facts)|), ByPath(facts, rel, |PathFacts(facts)|),
                   ByCluster(facts, rel, |Degradations(facts)|);
    ChangeKeysDiffer(facts, rel, |Changes(facts)|);
    PathKeysDiffer(facts, rel, |PathFacts(facts)|);
    ClusterKeysDiffer(facts, rel, |Degradations(facts)|);
    hide ByChange;
    hide ByPath;
    hide ByCluster;
    hide Justified;
    forall h | h in a ensures h.rule == 1 {
      ByChangeIs(facts, rel, |Changes(facts)|, h);
    }
    forall h | h in b ensures h.rule == 2 {
      ByPathIs(facts, rel, |PathFacts(facts)|, h);
    }
    forall h | h in c ensures h.rule == 3 {
      ByClusterIs(facts, rel, |Degradations(facts)|, h);
    }
    KeysAppend(a, b);
    KeysAppend(a + b, c);
  }

  // ---- The program ----

  lemma {:induction false} ByChangeGrows(facts: seq<Fact>, rel: Relation, m: nat, n: nat)
    requires m <= n <= |Changes(facts)|
    ensures ByChange(facts, rel, m) <= ByChange(facts, rel, n)
    decreases n
  {
    hide ChangeRule;
    if m < n {
      ByChangeGrows(facts, rel, m, n - 1);
    }
  }

  lemma {:induction false} ByPathGrows(facts: seq<Fact>, rel: Relation, m: nat, n: nat)
    requires m <= n <= |PathFacts(facts)|
    ensures ByPath(facts, rel, m) <= ByPath(facts, rel, n)
    decreases n
  {
    hide PathRule;
    if m < n {
      ByPathGrows(facts, rel, m, n - 1);
    }
  }

  lemma {:induction false} ByClusterGrows(facts: seq<Fact>, rel: Relation, m: nat, n: nat)
    requires m <= n <= |Degradations(facts)|
    ensures ByCluster(facts, rel, m) <= ByCluster(facts, rel, n)
    decreases n
  {
    hide ClusterRule;
    hide Used;
    if m < n {
      ByClusterGrows(facts, rel, m, n - 1);
    }
  }

  /** A full list that all hypotheses begin with is what the cap leaves. */
  lemma FullIsCapped(hs: seq<Hypothesis>, all: seq<Hypothesis>)
    requires hs <= all && |hs| == MAX_HYPOTHESES
    ensures Capped(all) == hs
  {
  }

  /** `_evaluate`: the rules in turn, stopping at 25 hypotheses wherever that happens. */
  method Evaluate(facts: seq<Fact>, rel: Relation) returns (hs: seq<Hypothesis>)
    ensures hs == Capped(All(facts, rel))
  {
    hide *;
    MaxIs();
    hs := [];
    var changes := Changes(facts);
    ByNone(facts, rel);
    for i := 0 to |changes|
      invariant hs == ByChange(facts, rel, i) && |hs| < MAX_HYPOTHESES
    {
      ByNext(facts, rel, i);
      var h := ChangeRule(facts, changes[i], rel);
      if h.Some? {
        hs := hs + [h.value];
        if |hs| >= MAX_HYPOTHESES {
          ByChangeGrows(facts, rel, i + 1, |changes|);
          StopsEarly(facts, rel, hs);
          return;
        }
      }
    }
    var first := hs;
    var paths := PathFacts(facts);
    assert first + [] == first;
    for i := 0 to |paths|
      invariant hs == first + ByPath(facts, rel, i) && |hs| < MAX_HYPOTHESES
    {
      ByNext(facts, rel, i);
      var h := PathRule(facts, paths[i], rel);
      if h.Some? {
        InLine(first, ByPath(facts, rel, i), [h.value]);
        hs := hs + [h.value];
        if |hs| >= MAX_HYPOTHESES {
          ByPathGrows(facts, rel, i + 1, |paths|);
          StopsEarly(facts, rel, hs);
          return;
        }
      } else {
        assert ByPath(facts, rel, i) + [] == ByPath(facts, rel, i);
      }
    }
    var second := hs;
    var count := |Degradations(facts)|;
    assert second + [] == second;
    for i := 0 to count
      invariant hs == second + ByCluster(facts, rel, i) && |hs| < MAX_HYPOTHESES
    {
      ByNext(facts, rel, i);
      var h := ClusterRule(facts, i, rel);
      var used := if h.Some? then UsedNow(hs[|second|..], h.value.cluster) else true;
      assert hs[|second|..] == ByCluster(facts, rel, i);
      if h.Some? && !used {
        InLine(second, ByCluster(facts, rel, i), [h.value]);
        hs := hs + [h.value];
        if |hs| >= MAX_HYPOTHESES {
          ByClusterGrows(facts, rel, i + 1, count);
          StopsEarly(facts, rel, hs);
          return;
        }
      } else {
        assert ByCluster(facts, rel, i) + [] == ByCluster(facts, rel, i);
      }
    }
    AllOfThem(facts, rel, hs);
  }

  predicate UsedNow(hs: seq<Hypothesis>, c: Cluster)
    ensures UsedNow(hs, c) <==> Used(hs, c)
  {
    Used(hs, c)
  }

  lemma MaxIs()
    ensures MAX_HYPOTHESES == 25
  {
  }

  lemma InLine(a: seq<Hypothesis>, b: seq<Hypothesis>, c: seq<Hypothesis>)
    ensures (a + b) + c == a + (b + c)
  {
  }

  lemma ByNone(facts: seq<Fact>, rel: Relation)
    ensures ByChange(facts, rel, 0) == [] && ByPath(facts, rel, 0) == [] && ByCluster(facts, rel, 0) == []
  {
  }

  lemma ByNext(facts: seq<Fact>, rel: Relation, n: nat)
    ensures n < |Changes(facts)| ==>
              var h := ChangeRule(facts, Changes(facts)[n], rel);
              ByChange(facts, rel, n + 1) == ByChange(facts, rel, n) + (if h.Some? then [h.value] else [])
    ensures n < |PathFacts(facts)| ==>
              var h := PathRule(facts, PathFacts(facts)[n], rel);
              ByPath(facts, rel, n + 1) == ByPath(facts, rel, n) + (if h.Some? then [h.value] else [])
    ensures n < |Degradations(facts)| ==>
              var before, h := ByCluster(facts, rel, n), ClusterRule(facts, n, rel);
              ByCluster(facts, rel, n + 1) ==
                before + (if h.Some? && !Used(before, h.value.cluster) then [h.value] else [])
  {
    hide Changes;
    hide PathFacts;
    hide Degradations;
    hide ChangeRule;
    hide PathRule;
    hide ClusterRule;
    hide Used;
  }

  lemma StopsEarly(facts: seq<Fact>, rel: Relation, hs: seq<Hypothesis>)
    requires |hs| == MAX_HYPOTHESES
    requires var a, b, c := ByChange(facts, rel, |Changes(facts)|), ByPath(facts, rel, |PathFacts(facts)|),
                            ByCluster(facts, rel, |Degradations(facts)|);
             hs <= a || hs <= a + b || hs <= (a + b) + c
    ensures hs == Capped(All(facts, rel))
  {
    hide ByChange;
    hide ByPath;
    hide ByCluster;
    FullIsCapped(hs, All(facts, rel));
  }

  lemma AllOfThem(facts: seq<Fact>, rel: Relation, hs: seq<Hypothesis>)
    requires |hs| < MAX_HYPOTHESES
    requires hs == (ByChange(facts, rel, |Changes(facts)|) + ByPath(facts, rel, |PathFacts(facts)|))
                   + ByCluster(facts, rel, |Degradations(facts)|)
    ensures hs == Capped(All(facts, rel))
  {
    hide ByChange;
    hide ByPath;
    hide ByCluster;
  }

  // ---- From a timeline to stored rows ----

  /** The order in which the evidence was linked does not matter: the same facts give the same
      hypotheses. */
  lemma OrderOfTimelineIsIrrelevant(a: seq<Fact>, b: seq<Fact>, rel: Relation)
    requires Ordered(a) && Ordered(b) && multiset(a) == multiset(b)
    ensures Capped(All(a, rel)) == Capped(All(b, rel))
  {
    OrderedUnique(a, b);
  }

  /** The key a hypothesis is stored under; `digest` stands for the digest of its cluster. */
  function StoredKey(incident: nat, h: Hypothesis, digest: Cluster -> nat): HypothesisStore.Key {
    HypothesisStore.Key(incident, HypothesisStore.RULE_SET_VERSION, h.rule, digest(h.cluster))
  }

  function ToStore(incident: nat, hs: seq<Hypothesis>, digest: Cluster -> nat, payload: Hypothesis -> nat)
    : (r: seq<HypothesisStore.Hypothesis>)
    ensures |r| == |hs|
  {
    seq(|hs|, i requires 0 <= i < |hs| => HypothesisStore.Hypothesis(StoredKey(incident, hs[i], digest),
                                                                     payload(hs[i])))
  }

  ghost predicate Injective(digest: Cluster -> nat) {
    forall a, b :: digest(a) == digest(b) ==> a == b
  }

  lemma StoredKeysDiffer(incident: nat, hs: seq<Hypothesis>, digest: Cluster -> nat, i: nat, j: nat)
    requires i < j < |hs| && KeysDiffer(hs) && Injective(digest)
    ensures StoredKey(incident, hs[i], digest) != StoredKey(incident, hs[j], digest)
  {
    assert !SameKey(hs[i], hs[j]);
  }

  lemma StorableIf(incident: nat, hs: seq<Hypothesis>, digest: Cluster -> nat, payload: Hypothesis -> nat)
    requires forall i, j :: 0 <= i < j < |hs| ==>
             StoredKey(incident, hs[i], digest) != StoredKey(incident, hs[j], digest)
    ensures HypothesisStore.Computed(incident, ToStore(incident, hs, digest, payload))
  {
  }

  /** What the rules give is what the upsert expects, so after a run the incident's active rows are
      exactly the hypotheses of the rules. */
  lemma EvaluationIsStorable(facts: seq<Fact>, rel: Relation, incident: nat, digest: Cluster -> nat,
                             payload: Hypothesis -> nat)
    requires Sourced(facts) && Injective(digest)
    ensures HypothesisStore.Computed(incident, ToStore(incident, Capped(All(facts, rel)), digest, payload))
  {
    hide *;
    EvaluationKeysDiffer(facts, rel);
    var hs := Capped(All(facts, rel));
    forall i, j | 0 <= i < j < |hs| ensures StoredKey(incident, hs[i], digest) != StoredKey(incident, hs[j], digest) {
      StoredKeysDiffer(incident, hs, digest, i, j);
    }
    StorableIf(incident, hs, digest, payload);
  }
}
