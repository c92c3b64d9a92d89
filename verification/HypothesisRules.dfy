/** What each of the three rules promises by itself: exactly when it gives a hypothesis, which fact is
    named, which signals support it, and that nothing healthy nearby is passed over. */
module HypothesisRules {
  import opened Common
  import opened Hypotheses

  // ---- What speaks against a hypothesis ----

  /** A healthy fact within fifteen minutes of another, and related to it. */
  predicate SpeaksAgainst(facts: seq<Fact>, near: Fact, rel: Relation, f: Fact) {
    f in facts && f.healthy && -900 <= f.ts - near.ts <= 900 && rel(f, near)
  }

  predicate Cited(es: seq<Evidence>, f: Fact) {
    exists k :: 0 <= k < |es| && es[k].fact == f
  }

  /** Exactly the facts that speak against it are cited, each once, in order. */
  ghost predicate CitesHealthy(facts: seq<Fact>, near: Fact, rel: Relation, weight: int, es: seq<Evidence>) {
    && (forall k :: 0 <= k < |es| ==> es[k].weight == weight && SpeaksAgainst(facts, near, rel, es[k].fact))
    && (forall f :: SpeaksAgainst(facts, near, rel, f) ==> Cited(es, f))
    && (forall j, k :: 0 <= j < k < |es| ==> Before(es[j].fact, es[k].fact))
  }

  lemma AgainstIsComplete(facts: seq<Fact>, near: Fact, rel: Relation, weight: int)
    requires Ordered(facts)
    ensures CitesHealthy(facts, near, rel, weight, Against(facts, near, rel, weight))
  {
    var keep := (f: Fact) => f.healthy && Within(f, near, NEARBY) && rel(f, near);
    var kept, es := Where(facts, keep), Against(facts, near, rel, weight);
    WhereKeepsOrder(facts, keep);
    hide Where;
    hide Before;
    assert es == Weighed(kept, weight);
    forall k | 0 <= k < |es| ensures es[k].weight == weight && SpeaksAgainst(facts, near, rel, es[k].fact) {
      assert kept[k] in kept;
      assert keep(kept[k]);
      assert Within(kept[k], near, NEARBY);
    }
    forall f | SpeaksAgainst(facts, near, rel, f) ensures Cited(es, f) {
      assert keep(f);
      assert f in kept;
      var k :| 0 <= k < |kept| && kept[k] == f;
      assert es[k].fact == f;
    }
  }

  // ---- One fact for every class of signal ----

  /** A fact of the same class stands for `d`: itself or an earlier one. */
  predicate Represented(fs: seq<Fact>, d: Fact) {
    exists c :: c in fs && c.signal == d.signal && (c == d || Before(c, d))
  }

  predicate ClassesDiffer(fs: seq<Fact>) {
    forall i, j :: 0 <= i < j < |fs| ==> fs[i].signal != fs[j].signal
  }

  lemma OneMoreClass(c: Fact, fs: seq<Fact>, seen: set<nat>)
    requires ClassesDiffer(fs) && forall f :: f in fs ==> f.signal !in seen + {c.signal}
    ensures ClassesDiffer([c] + fs)
  {
    var all := [c] + fs;
    forall i, j | 0 <= i < j < |all| ensures all[i].signal != all[j].signal {
      assert all[j] in fs;
    }
  }

  lemma OneMoreStands(c: Fact, fs: seq<Fact>, d: Fact)
    requires Represented(fs, d) || (c.signal == d.signal && (c == d || Before(c, d)))
    ensures Represented([c] + fs, d)
  {
    if Represented(fs, d) {
      var f :| f in fs && f.signal == d.signal && (f == d || Before(f, d));
      assert f in [c] + fs;
    } else {
      assert c in [c] + fs;
    }
  }

  /** A degradation beside another one. */
  predicate Beside(a: Fact, d: Fact, rel: Relation) {
    d.degrading && -900 <= d.ts - a.ts <= 900 && rel(a, d)
  }

  lemma {:induction false} CompanionsAre(first: Fact, later: seq<Fact>, seen: set<nat>, rel: Relation)
    requires Ordered(later) && forall d :: d in later ==> d.degrading
    ensures var r := Companions(first, later, seen, rel);
            && ClassesDiffer(r)
            && (forall c :: c in r ==> c in later && Beside(first, c, rel) && c.signal !in seen)
            && (forall d :: d in later && Beside(first, d, rel) && d.signal !in seen ==> Represented(r, d))
    decreases |later|
  {
    hide Before;
    hide Represented;
    hide ClassesDiffer;
    if later == [] {
      NoClasses();
    } else {
      var rest := later[1..];
      RestOrdered(later);
      var takes := Beside(first, later[0], rel) && later[0].signal !in seen;
      var more := if takes then seen + {later[0].signal} else seen;
      CompanionsAre(first, rest, more, rel);
      var tail, r := Companions(first, rest, more, rel), Companions(first, later, seen, rel);
      assert r == if takes then [later[0]] + tail else tail;
      if takes {
        OneMoreClass(later[0], tail, seen);
      }
      forall d | d in later && Beside(first, d, rel) && d.signal !in seen ensures Represented(r, d) {
        if d in rest && (!takes || d.signal != later[0].signal) {
          assert Represented(tail, d);
        }
        if takes {
          OneMoreStands(later[0], tail, d);
        }
      }
    }
  }

  lemma NoClasses()
    ensures ClassesDiffer([])
  {
  }

  lemma RestOrdered(fs: seq<Fact>)
    requires fs != [] && Ordered(fs)
    ensures Ordered(fs[1..]) && fs == [fs[0]] + fs[1..]
    ensures forall d :: d in fs ==> d == fs[0] || (d in fs[1..] && Before(fs[0], d))
  {
    hide Before;
  }

  /** The further signals of a change: new classes each, until three are seen; one passed over is of a
      class already seen, or comes after the third. */
  lemma {:induction false} NewSignalsAre(fs: seq<Fact>, seen: set<nat>)
    requires Ordered(fs) && |seen| < 3
    ensures var r := NewSignals(fs, seen);
            && ClassesDiffer(r) && |r| + |seen| <= 3
            && (forall c :: c in r ==> c in fs && c.signal !in seen)
            && (forall d :: d in fs && d.signal !in seen && (|r| + |seen| < 3 || !After(r, d)) ==> Represented(r, d))
    decreases |fs|
  {
    hide Before;
    hide Represented;
    hide ClassesDiffer;
    NoClasses();
    if fs != [] {
      var rest := fs[1..];
      RestOrdered(fs);
      var r := NewSignals(fs, seen);
      if fs[0].signal in seen {
        NewSignalsAre(rest, seen);
      } else if |seen| + 1 >= 3 {
        OneMoreClass(fs[0], [], seen);
        assert [fs[0]] + [] == r;
        forall d | d in fs && d.signal !in seen && !After(r, d) ensures Represented(r, d) {
          assert r[|r| - 1] == fs[0];
          OneMoreStands(fs[0], [], d);
        }
      } else {
        NewSignalsAre(rest, seen + {fs[0].signal});
        var tail := NewSignals(rest, seen + {fs[0].signal});
        assert |seen + {fs[0].signal}| == |seen| + 1;
        OneMoreClass(fs[0], tail, seen);
        forall d | d in fs && d.signal !in seen && (|r| + |seen| < 3 || !After(r, d)) ensures Represented(r, d) {
          if d in rest && d.signal != fs[0].signal {
            AfterTail(fs[0], tail, d);
            assert Represented(tail, d);
          }
          OneMoreStands(fs[0], tail, d);
        }
      }
    }
  }

  predicate After(r: seq<Fact>, d: Fact) {
    r != [] && Before(r[|r| - 1], d)
  }

  lemma AfterTail(c: Fact, tail: seq<Fact>, d: Fact)
    ensures After(tail, d) ==> After([c] + tail, d)
  {
  }

  // ---- Rule 1 ----

  /** A degradation within half an hour after a change, and related to it. */
  predicate Ensues(facts: seq<Fact>, change: Fact, rel: Relation, d: Fact) {
    d in facts && d.degrading && 0 <= d.ts - change.ts <= 1800 && rel(change, d)
  }

  /** A suspected change: the earliest degradation is named, up to two more of other classes support it,
      and everything healthy around that degradation is held against it. */
  lemma ChangeCites(facts: seq<Fact>, change: Fact, rel: Relation) returns (first: Fact, more: seq<Fact>)
    requires Ordered(facts) && ChangeRule(facts, change, rel).Some?
    ensures var h := ChangeRule(facts, change, rel).value;
            && h.rule == 1 && h.cluster == Single(change.ref) && h.anchor == change && h.initiating == first
            && h.supporting == [Evidence(change, 24), Evidence(first, 28)] + Weighed(more, 10)
            && CitesHealthy(facts, first, rel, 18, h.contradicting)
    ensures Ensues(facts, change, rel, first)
    ensures forall d :: Ensues(facts, change, rel, d) ==> d == first || Before(first, d)
    ensures |more| <= 2 && ClassesDiffer([first] + more)
    ensures forall d :: d in more ==> Ensues(facts, change, rel, d)
    ensures forall d :: Ensues(facts, change, rel, d) && (|more| < 2 || !After(more, d)) ==>
              Represented([first] + more, d)
  {
    hide *;
    var found := Following(facts, change, rel);
    EnsuesIs(facts, change, rel);
    FollowingIs(facts, change, rel);
    ChangeIsSuspectedIff(facts, change, rel);
    ChangeShape(facts, change, rel);
    first := found[0];
    RestOrdered(found);
    more := NewSignals(found[1..], {first.signal});
    NewSignalsAre(found[1..], {first.signal});
    AgainstIsComplete(facts, first, rel, 18);
    OneMoreClass(first, more, {});
    forall d | Ensues(facts, change, rel, d) && (|more| < 2 || !After(more, d))
      ensures Represented([first] + more, d)
    {
      if d != first && d.signal != first.signal {
        assert Represented(more, d);
      }
      OneMoreStands(first, more, d);
    }
  }

  lemma ChangeShape(facts: seq<Fact>, change: Fact, rel: Relation)
    ensures var found := Following(facts, change, rel);
            && (ChangeRule(facts, change, rel).Some? <==> found != [])
            && (found != [] ==>
                  ChangeRule(facts, change, rel).value ==
                  Hypothesis(1, Single(change.ref), change, found[0],
                             [Evidence(change, 24), Evidence(found[0], 28)]
                             + Weighed(NewSignals(found[1..], {found[0].signal}), 10),
                             Against(facts, found[0], rel, 18)))
  {
    hide Following;
    hide NewSignals;
    hide Against;
    hide Weighed;
  }

  lemma EnsuesIs(facts: seq<Fact>, change: Fact, rel: Relation)
    ensures forall d :: Ensues(facts, change, rel, d) <==> Follows(facts, change, rel, d)
  {
  }

  // ---- Rule 2 ----

  /** Path evidence is suspected exactly when another degradation lies within a quarter of an hour of it
      and is related to it; the earliest is named. */
  lemma PathIsSuspectedIff(facts: seq<Fact>, net: Fact, rel: Relation)
    requires Ordered(facts)
    ensures PathRule(facts, net, rel).Some? <==> exists d :: d in facts && d != net && Beside(net, d, rel)
    ensures PathRule(facts, net, rel).Some? ==>
              var h := PathRule(facts, net, rel).value;
              var first := h.initiating;
              && first in facts && first != net && Beside(net, first, rel)
              && (forall d :: d in facts && d != net && Beside(net, d, rel) ==> d == first || Before(first, d))
              && h.rule == 2 && h.cluster == Single(net.ref) && h.anchor == net
              && h.supporting == [Evidence(net, 28), Evidence(first, 24)]
              && CitesHealthy(facts, net, rel, 20, h.contradicting)
  {
    var keep := (f: Fact) => f != net && Within(net, f, NEARBY) && rel(net, f);
    var found := PathRuleFound(facts, net, rel);
    WhereKeepsOrder(facts, (f: Fact) => f.degrading);
    WhereKeepsOrder(Degradations(facts), keep);
    hide Where;
    hide Before;
    hide Against;
    assert found == Where(Degradations(facts), keep);
    forall d ensures d in found <==> d in facts && d != net && Beside(net, d, rel) {
      DegradationIs(facts, d);
      assert Within(net, d, NEARBY) <==> -900 <= d.ts - net.ts <= 900;
      assert keep(d) <==> d != net && -900 <= d.ts - net.ts <= 900 && rel(net, d);
    }
    AgainstIsComplete(facts, net, rel, 20);
    if found != [] {
      assert found[0] in found;
      FirstOfOrdered(found);
    }
  }

  // ---- Rule 3 ----

  /** A later degradation of another class beside the first. */
  predicate Accompanies(facts: seq<Fact>, first: Fact, rel: Relation, d: Fact) {
    d in facts && Before(first, d) && Beside(first, d, rel) && d.signal != first.signal
  }

  lemma LaterAre(ds: seq<Fact>, i: nat, d: Fact)
    requires i < |ds| && Ordered(ds)
    ensures Ordered(ds[i + 1..])
    ensures d in ds[i + 1..] <==> d in ds && Before(ds[i], d)
  {
    if d in ds && Before(ds[i], d) {
      var k :| 0 <= k < |ds| && ds[k] == d;
      assert k > i;
      assert ds[i + 1..][k - i - 1] == d;
    }
  }

  /** A cluster is reported exactly when a later related degradation of another class lies within a
      quarter of an hour of the first; it has one fact for every such class, the earliest, and everything
      healthy around the first is held against it. */
  lemma ClusterIsReportedIff(facts: seq<Fact>, i: nat, rel: Relation) returns (more: seq<Fact>)
    requires Ordered(facts) && i < |Degradations(facts)|
    ensures var first := Degradations(facts)[i];
            ClusterRule(facts, i, rel).Some? <==> exists d :: Accompanies(facts, first, rel, d)
    ensures ClusterRule(facts, i, rel).Some? ==>
              var first := Degradations(facts)[i];
              var h := ClusterRule(facts, i, rel).value;
              && h.rule == 3 && h.anchor == first == h.initiating && h.cluster == Group(SourcesOf([first] + more))
              && h.supporting == Weighed(if |more| > 3 then [first] + more[..3] else [first] + more, 16)
              && CitesHealthy(facts, first, rel, 16, h.contradicting)
    ensures var first := Degradations(facts)[i];
            && ClassesDiffer([first] + more) && (forall d :: d in more ==> Accompanies(facts, first, rel, d))
            && (forall d :: Accompanies(facts, first, rel, d) ==> Represented(more, d))
  {
    hide *;
    var ds := Degradations(facts);
    var first := ds[i];
    more := Companions(first, ds[i + 1..], {first.signal}, rel);
    CompanyIs(facts, i, rel);
    AgainstIsComplete(facts, first, rel, 16);
    ClusterShape(facts, i, rel, more);
    FirstFour(first, more);
    if d: Fact :| Accompanies(facts, first, rel, d) {
      RepresentedBySome(more, d);
    }
    if more != [] {
      assert more[0] in more;
    }
  }

  lemma RepresentedBySome(fs: seq<Fact>, d: Fact)
    requires Represented(fs, d)
    ensures fs != []
  {
  }

  lemma CompanyIs(facts: seq<Fact>, i: nat, rel: Relation)
    requires Ordered(facts) && i < |Degradations(facts)|
    ensures var ds := Degradations(facts);
            var first, more := ds[i], Companions(ds[i], ds[i + 1..], {ds[i].signal}, rel);
            && ClusterOf(ds, i, rel) == [first] + more && ClassesDiffer([first] + more)
            && (forall d :: d in more ==> Accompanies(facts, first, rel, d))
            && (forall d :: Accompanies(facts, first, rel, d) ==> Represented(more, d))
  {
    var ds := Degradations(facts);
    var first, later := ds[i], ds[i + 1..];
    WhereKeepsOrder(facts, (f: Fact) => f.degrading);
    hide Where;
    hide Before;
    LaterAre(ds, i, first);
    hide Ordered;
    forall d ensures d in later <==> d in facts && d.degrading && Before(first, d) {
      LaterAre(ds, i, d);
      DegradationIs(facts, d);
    }
    hide Degradations;
    CompanionsAre(first, later, {first.signal}, rel);
    hide Companions;
    hide Represented;
    hide Beside;
    OneMoreClass(first, Companions(first, later, {first.signal}, rel), {});
    hide ClassesDiffer;
  }

  /** The group counts every source once for each of its facts. */
  lemma {:induction false} SourcesAre(fs: seq<Fact>)
    ensures |SourcesOf(fs)| == |fs| && forall f :: f in fs ==> (f.typ, f.ref) in SourcesOf(fs)
    ensures forall s :: s in SourcesOf(fs) ==> exists f :: f in fs && (f.typ, f.ref) == s
    decreases |fs|
  {
    if fs != [] {
      var front, last := fs[..|fs| - 1], fs[|fs| - 1];
      SourcesAre(front);
      assert fs == front + [last];
      assert last in fs;
      forall s | s in SourcesOf(fs) ensures exists f :: f in fs && (f.typ, f.ref) == s {
        if s in SourcesOf(front) {
          var f :| f in front && (f.typ, f.ref) == s;
          assert f in fs;
        }
      }
    }
  }

  lemma FirstFour(first: Fact, more: seq<Fact>)
    ensures |[first] + more| > 4 ==> ([first] + more)[..4] == [first] + more[..3]
  {
  }

  lemma ClusterShape(facts: seq<Fact>, i: nat, rel: Relation, more: seq<Fact>)
    requires i < |Degradations(facts)| && ClusterOf(Degradations(facts), i, rel) == [Degradations(facts)[i]] + more
    ensures ClusterRule(facts, i, rel).Some? <==> more != []
    ensures more != [] ==>
              var first, cluster := Degradations(facts)[i], [Degradations(facts)[i]] + more;
              ClusterRule(facts, i, rel).value ==
              Hypothesis(3, Group(SourcesOf(cluster)), first, first,
                         Weighed(if |cluster| > 4 then cluster[..4] else cluster, 16), Against(facts, first, rel, 16))
  {
    hide ClusterOf;
    hide Degradations;
    hide SourcesOf;
    hide Against;
    hide Weighed;
  }

  // ---- The whole evaluation ----

  lemma {:induction false} ByChangeIff(facts: seq<Fact>, rel: Relation, n: nat, h: Hypothesis)
    requires n <= |Changes(facts)|
    ensures h in ByChange(facts, rel, n) <==>
            exists i :: 0 <= i < n && ChangeRule(facts, Changes(facts)[i], rel) == Some(h)
    decreases n
  {
    hide *;
    ByNone(facts, rel);
    if n > 0 {
      ByChangeIff(facts, rel, n - 1, h);
      ByNext(facts, rel, n - 1);
    }
  }

  lemma {:induction false} ByPathIff(facts: seq<Fact>, rel: Relation, n: nat, h: Hypothesis)
    requires n <= |PathFacts(facts)|
    ensures h in ByPath(facts, rel, n) <==>
            exists i :: 0 <= i < n && PathRule(facts, PathFacts(facts)[i], rel) == Some(h)
    decreases n
  {
    hide *;
    ByNone(facts, rel);
    if n > 0 {
      ByPathIff(facts, rel, n - 1, h);
      ByNext(facts, rel, n - 1);
    }
  }

  lemma {:induction false} ByClusterFrom(facts: seq<Fact>, rel: Relation, n: nat, h: Hypothesis)
    requires n <= |Degradations(facts)| && h in ByCluster(facts, rel, n)
    ensures exists i :: 0 <= i < n && ClusterRule(facts, i, rel) == Some(h)
    decreases n
  {
    hide *;
    ByNone(facts, rel);
    assert n > 0;
    ByNext(facts, rel, n - 1);
    if h in ByCluster(facts, rel, n - 1) {
      ByClusterFrom(facts, rel, n - 1, h);
    }
  }

  lemma {:induction false} ByClusterHas(facts: seq<Fact>, rel: Relation, n: nat, i: nat)
    requires i < n <= |Degradations(facts)| && ClusterRule(facts, i, rel).Some?
    ensures Used(ByCluster(facts, rel, n), ClusterRule(facts, i, rel).value.cluster)
    decreases n
  {
    hide ClusterRule;
    hide ByCluster;
    hide Degradations;
    ByNext(facts, rel, n - 1);
    var before, after := ByCluster(facts, rel, n - 1), ByCluster(facts, rel, n);
    var c := ClusterRule(facts, i, rel).value.cluster;
    if i < n - 1 {
      ByClusterHas(facts, rel, n - 1, i);
    }
    if Used(before, c) {
      var k :| 0 <= k < |before| && before[k].cluster == c;
      assert after[k].cluster == c;
    } else {
      assert after[|before|].cluster == c;
    }
  }

  lemma ChangesAre(facts: seq<Fact>, c: Fact)
    ensures c in Changes(facts) <==> c in facts && c.typ == CHANGE_EVENT
  {
    hide Where;
  }

  lemma PathFactsAre(facts: seq<Fact>, net: Fact)
    ensures net in PathFacts(facts) <==>
            net in facts && net.degrading && net.typ == ANALYTICS_INSIGHT && net.pathEvent
  {
    hide Where;
    DegradationIs(facts, net);
  }

  lemma AllAre(facts: seq<Fact>, rel: Relation, h: Hypothesis)
    ensures h in All(facts, rel) <==>
            || h in ByChange(facts, rel, |Changes(facts)|) || h in ByPath(facts, rel, |PathFacts(facts)|)
            || h in ByCluster(facts, rel, |Degradations(facts)|)
  {
    hide ByChange;
    hide ByPath;
    hide ByCluster;
  }

  lemma RulesOf(facts: seq<Fact>, rel: Relation, h: Hypothesis)
    ensures h in ByChange(facts, rel, |Changes(facts)|) ==> h.rule == 1
    ensures h in ByPath(facts, rel, |PathFacts(facts)|) ==> h.rule == 2
    ensures h in ByCluster(facts, rel, |Degradations(facts)|) ==> h.rule == 3
  {
    hide *;
    if h in ByChange(facts, rel, |Changes(facts)|) {
      ByChangeIs(facts, rel, |Changes(facts)|, h);
    }
    if h in ByPath(facts, rel, |PathFacts(facts)|) {
      ByPathIs(facts, rel, |PathFacts(facts)|, h);
    }
    if h in ByCluster(facts, rel, |Degradations(facts)|) {
      ByClusterIs(facts, rel, |Degradations(facts)|, h);
    }
  }

  /** A hypothesis of one rule about one fact. */
  ghost predicate Raised(facts: seq<Fact>, rel: Relation, rule: nat, anchor: Fact) {
    exists h :: h in All(facts, rel) && h.rule == rule && h.anchor == anchor
  }

  /** Before the cap, a change is blamed exactly when a related degradation ensues within half an hour. */
  lemma ChangeIsRaisedIff(facts: seq<Fact>, rel: Relation, c: Fact)
    requires Ordered(facts)
    ensures Raised(facts, rel, 1, c) <==>
            c in facts && c.typ == CHANGE_EVENT && exists d :: Ensues(facts, c, rel, d)
  {
    hide *;
    ChangesAre(facts, c);
    if h :| h in All(facts, rel) && h.rule == 1 && h.anchor == c {
      AllAre(facts, rel, h);
      RulesOf(facts, rel, h);
      ByChangeIff(facts, rel, |Changes(facts)|, h);
      var i :| 0 <= i < |Changes(facts)| && ChangeRule(facts, Changes(facts)[i], rel) == Some(h);
      var first, more := ChangeCites(facts, Changes(facts)[i], rel);
      assert Changes(facts)[i] == c;
    }
    if c in facts && c.typ == CHANGE_EVENT && exists d :: Ensues(facts, c, rel, d) {
      EnsuesIs(facts, c, rel);
      ChangeIsSuspectedIff(facts, c, rel);
      var first, more := ChangeCites(facts, c, rel);
      var h := ChangeRule(facts, c, rel).value;
      var i :| 0 <= i < |Changes(facts)| && Changes(facts)[i] == c;
      ByChangeIff(facts, rel, |Changes(facts)|, h);
      AllAre(facts, rel, h);
    }
    RaisedIs(facts, rel, 1, c);
  }

  lemma RaisedIs(facts: seq<Fact>, rel: Relation, rule: nat, anchor: Fact)
    ensures Raised(facts, rel, rule, anchor) <==>
            exists h :: h in All(facts, rel) && h.rule == rule && h.anchor == anchor
  {
    hide All;
  }

  /** Before the cap, path evidence is blamed exactly when another related degradation is beside it. */
  lemma PathIsRaisedIff(facts: seq<Fact>, rel: Relation, net: Fact)
    requires Ordered(facts)
    ensures Raised(facts, rel, 2, net) <==>
            && net in facts && net.degrading && net.typ == ANALYTICS_INSIGHT && net.pathEvent
            && exists d :: d in facts && d != net && Beside(net, d, rel)
  {
    hide *;
    PathFactsAre(facts, net);
    PathIsSuspectedIff(facts, net, rel);
    if h :| h in All(facts, rel) && h.rule == 2 && h.anchor == net {
      AllAre(facts, rel, h);
      RulesOf(facts, rel, h);
      ByPathIff(facts, rel, |PathFacts(facts)|, h);
      var i :| 0 <= i < |PathFacts(facts)| && PathRule(facts, PathFacts(facts)[i], rel) == Some(h);
      PathIsSuspectedIff(facts, PathFacts(facts)[i], rel);
      assert PathFacts(facts)[i] == net;
    }
    if net in PathFacts(facts) && PathRule(facts, net, rel).Some? {
      var h := PathRule(facts, net, rel).value;
      var i :| 0 <= i < |PathFacts(facts)| && PathFacts(facts)[i] == net;
      ByPathIff(facts, rel, |PathFacts(facts)|, h);
      AllAre(facts, rel, h);
    }
    RaisedIs(facts, rel, 2, net);
  }

  /** Before the cap, every degradation with company of another class has its group reported, by it or by
      an earlier one with the same group; and no other degradation is the first of a cluster. */
  lemma ClusterIsRaised(facts: seq<Fact>, rel: Relation, first: Fact)
    requires Ordered(facts)
    ensures Raised(facts, rel, 3, first) ==>
              first in facts && first.degrading && exists d :: Accompanies(facts, first, rel, d)
    ensures first in facts && first.degrading && (exists d :: Accompanies(facts, first, rel, d)) ==>
              exists i, h :: 0 <= i < |Degradations(facts)| && Degradations(facts)[i] == first && h in All(facts, rel)
                             && ClusterRule(facts, i, rel).Some? && h.rule == 3
                             && h.cluster == ClusterRule(facts, i, rel).value.cluster
  {
    hide *;
    DegradationIs(facts, first);
    RaisedIs(facts, rel, 3, first);
    if h :| h in All(facts, rel) && h.rule == 3 && h.anchor == first {
      AllAre(facts, rel, h);
      RulesOf(facts, rel, h);
      ByClusterFrom(facts, rel, |Degradations(facts)|, h);
      var i :| 0 <= i < |Degradations(facts)| && ClusterRule(facts, i, rel) == Some(h);
      var more := ClusterIsReportedIff(facts, i, rel);
      assert Degradations(facts)[i] == first;
    }
    if first in facts && first.degrading && exists d :: Accompanies(facts, first, rel, d) {
      var i :| 0 <= i < |Degradations(facts)| && Degradations(facts)[i] == first;
      var more := ClusterIsReportedIff(facts, i, rel);
      ByClusterHas(facts, rel, |Degradations(facts)|, i);
      UsedBy(ByCluster(facts, rel, |Degradations(facts)|), ClusterRule(facts, i, rel).value.cluster);
      var h :| h in ByCluster(facts, rel, |Degradations(facts)|)
               && h.cluster == ClusterRule(facts, i, rel).value.cluster;
      AllAre(facts, rel, h);
      RulesOf(facts, rel, h);
    }
  }

  lemma UsedBy(hs: seq<Hypothesis>, c: Cluster)
    requires Used(hs, c)
    ensures exists h :: h in hs && h.cluster == c
  {
    var k :| 0 <= k < |hs| && hs[k].cluster == c;
    assert hs[k] in hs;
  }
}
