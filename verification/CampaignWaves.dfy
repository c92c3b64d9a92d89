/** What a wave over its threshold leaves behind, in every fleet that calls can lead to and after a
    process that died inside a wave. */
module CampaignWaves {
  import opened Common
  import opened Saga
  import opened Campaigns
  import opened CampaignSchedule

  /** The targets of a wave that are not done with: to be run, failed, or rolled back. */
  function Undecided(ts: seq<Target>, wave: nat): set<nat> {
    set i: nat | i < |ts| && ts[i].wave == wave && ts[i].state in {Pending, Failed, RolledBack}
  }

  predicate HasSucceeded(ts: seq<Target>, wave: nat) {
    exists i :: 0 <= i < |ts| && ts[i].wave == wave && ts[i].state == Succeeded
  }

  /** With rollback on, a wave with a success has no more undecided targets than failures are tolerated. */
  ghost predicate Few(f: Fleet) {
    f.c.rollbackOnFailure ==> forall wave: nat :: FewIn(f.targets, wave, f.c.maxFailures)
  }

  predicate FewIn(ts: seq<Target>, wave: nat, most: nat) {
    HasSucceeded(ts, wave) ==> |Undecided(ts, wave)| <= most
  }

  lemma SubsetSize<T>(a: set<T>, b: set<T>)
    requires a <= b
    ensures |a| <= |b|
  {
    assert b == a + (b - a);
  }

  /** A wave stays so when no target in it newly succeeds and none becomes undecided again. */
  lemma FewStays(ts: seq<Target>, rs: seq<Target>, wave: nat, most: nat)
    requires FewIn(ts, wave, most) && |rs| == |ts|
    requires forall i :: 0 <= i < |ts| && rs[i].wave == wave ==>
               && ts[i].wave == wave && (rs[i].state == Succeeded ==> ts[i].state == Succeeded)
               && (rs[i].state in {Pending, Failed, RolledBack} ==> ts[i].state in {Pending, Failed, RolledBack})
    ensures FewIn(rs, wave, most)
  {
    if HasSucceeded(rs, wave) {
      var i :| 0 <= i < |rs| && rs[i].wave == wave && rs[i].state == Succeeded;
      assert ts[i].wave == wave && ts[i].state == Succeeded;
      assert Undecided(rs, wave) <= Undecided(ts, wave);
      SubsetSize(Undecided(rs, wave), Undecided(ts, wave));
    }
  }

  lemma FailedAmongAll(ts: seq<Target>, todo: seq<nat>, k: nat)
    requires k <= |todo| && forall j :: 0 <= j < |todo| ==> todo[j] < |ts|
    ensures FailedAmong(ts, todo, k) <= |todo| - k
    decreases |todo| - k
  {
  }

  lemma {:induction false} DistinctSize(todo: seq<nat>, s: set<nat>)
    requires forall i, j :: 0 <= i < j < |todo| ==> todo[i] < todo[j]
    requires forall k :: 0 <= k < |todo| ==> todo[k] in s
    ensures |todo| <= |s|
    decreases |todo|
  {
    if todo != [] {
      var last, front := todo[|todo| - 1], todo[..|todo| - 1];
      DistinctSize(front, s - {last});
    }
  }

  /** An over-threshold wave had no success in it before the call. */
  lemma NoneSucceededBefore(f: Fleet, w: World, wave: nat)
    requires Settled(f) && Few(f) && f.c.rollbackOnFailure
    requires var todo := PendingIn(f.targets, wave, 0);
             FailedAmong(RunFrom(f, w, todo, 0).targets, todo, 0) > f.c.maxFailures
    ensures !HasSucceeded(f.targets, wave)
  {
    var todo := PendingIn(f.targets, wave, 0);
    FailedAmongAll(RunFrom(f, w, todo, 0).targets, todo, 0);
    hide FailedAmong;
    hide RunFrom;
    hide Settled;
    hide HasSucceeded;
    forall k | 0 <= k < |todo| ensures todo[k] in Undecided(f.targets, wave) {
    }
    DistinctSize(todo, Undecided(f.targets, wave));
    assert FewIn(f.targets, wave, f.c.maxFailures);
  }

  /** What compensation does to the targets of the wave, and to no others. */
  lemma CompensatedLeaves(rs: seq<Target>, ss: seq<Target>, todo: seq<nat>)
    requires Compensated(rs, ss, todo) && forall j :: 0 <= j < |todo| ==> todo[j] < |rs|
    ensures |ss| == |rs| && forall i :: 0 <= i < |rs| ==> ss[i].wave == rs[i].wave
    ensures forall i :: 0 <= i < |rs| && (i !in todo || rs[i].state != Succeeded) ==> ss[i] == rs[i]
    ensures forall i :: 0 <= i < |rs| && i in todo ==> ss[i].state != Succeeded
  {
  }

  /** Over the threshold a call leaves exactly those targets of the wave SUCCEEDED that were so before it:
      what succeeded in the call is compensated, what had succeeded earlier is not. */
  lemma FailedWaveLeaves(f: Fleet, w: World, wave: nat)
    requires TxsKnown(f.targets, f.net.ledger) && f.c.rollbackOnFailure && RunWave(f, w, wave).c.state == Paused
    ensures var r := RunWave(f, w, wave);
            && |r.targets| == |f.targets|
            && forall i :: 0 <= i < |f.targets| ==>
                 && r.targets[i].wave == f.targets[i].wave
                 && (f.targets[i].wave == wave ==>
                     (r.targets[i].state == Succeeded <==> f.targets[i].state == Succeeded))
                 && (f.targets[i].wave != wave ==> r.targets[i] == f.targets[i])
  {
    hide *;
    var todo := PendingIn(f.targets, wave, 0);
    var ran := RunFrom(f, w, todo, 0);
    PausedWaveIsRolledBack(f, w, wave);
    RunFromEffects(f, w, todo, 0);
    RollbackWaveEffects(ran, w, todo);
    CompensatedLeaves(ran.targets, RollbackWave(ran, w, todo).targets, todo);
    assert todo[0..] == todo;
    forall i | 0 <= i < |f.targets|
      ensures var r := RunWave(f, w, wave);
              && r.targets[i].wave == f.targets[i].wave
              && (f.targets[i].wave == wave ==> (r.targets[i].state == Succeeded <==> f.targets[i].state == Succeeded))
              && (f.targets[i].wave != wave ==> r.targets[i] == f.targets[i])
    {
      if i in todo {
        var j :| 0 <= j < |todo| && todo[j] == i;
      }
    }
  }

  /** A wave over its threshold leaves no success, when every call has come to its end. */
  lemma NoneSucceededAfter(f: Fleet, w: World, wave: nat)
    requires Settled(f) && Few(f) && f.c.rollbackOnFailure && NextWave(f.targets, 0) == Some(wave)
    requires RunWave(f, w, wave).c.state == Paused
    ensures !HasSucceeded(f.targets, wave) && !HasSucceeded(RunWave(f, w, wave).targets, wave)
  {
    hide *;
    SettledGives(f);
    RunWaveResult(f, w, wave);
    NoneSucceededBefore(f, w, wave);
    FailedWaveLeaves(f, w, wave);
    NotSucceeded(f.targets, RunWave(f, w, wave).targets, wave);
  }

  lemma NotSucceeded(ts: seq<Target>, rs: seq<Target>, wave: nat)
    requires !HasSucceeded(ts, wave) && |rs| == |ts|
    requires forall i :: 0 <= i < |ts| ==>
               rs[i].wave == ts[i].wave
               && (ts[i].wave == wave ==> (rs[i].state == Succeeded <==> ts[i].state == Succeeded))
    ensures !HasSucceeded(rs, wave)
  {
  }

  // ---- Every complete call keeps it so ----

  /** Rows that only lose candidates, in the sense of `FewStays`, wave by wave. */
  lemma FewOnRows(f: Fleet, r: Fleet)
    requires Few(f) && |r.targets| == |f.targets|
    requires r.c.rollbackOnFailure == f.c.rollbackOnFailure && r.c.maxFailures == f.c.maxFailures
    requires forall i :: 0 <= i < |f.targets| ==>
               && r.targets[i].wave == f.targets[i].wave
               && (r.targets[i].state == Succeeded ==> f.targets[i].state == Succeeded)
               && (r.targets[i].state in {Pending, Failed, RolledBack} ==>
                   f.targets[i].state in {Pending, Failed, RolledBack})
    ensures Few(r)
  {
    hide FewIn;
    if f.c.rollbackOnFailure {
      forall wave: nat ensures FewIn(r.targets, wave, r.c.maxFailures) {
        assert FewIn(f.targets, wave, f.c.maxFailures);
        FewStays(f.targets, r.targets, wave, f.c.maxFailures);
      }
    }
  }

  lemma OtherCallsKeepFew(f: Fleet, w: World, call: Call)
    requires TxsKnown(f.targets, f.net.ledger) && NoneRunning(f.targets) && Few(f)
    requires !(call.ExecuteNextWave? && call.approved && f.c.state == Active && NextWave(f.targets, 0).Some?)
    ensures Few(Next(f, w, call))
  {
    OtherCallsRows(f, w, call);
    hide *;
    FewOnRows(f, Next(f, w, call));
  }

  lemma OtherCallsRows(f: Fleet, w: World, call: Call)
    requires TxsKnown(f.targets, f.net.ledger) && NoneRunning(f.targets)
    requires !(call.ExecuteNextWave? && call.approved && f.c.state == Active && NextWave(f.targets, 0).Some?)
    ensures var r := Next(f, w, call);
            && |r.targets| == |f.targets|
            && r.c.rollbackOnFailure == f.c.rollbackOnFailure && r.c.maxFailures == f.c.maxFailures
            && forall i :: 0 <= i < |f.targets| ==>
                 && r.targets[i].wave == f.targets[i].wave
                 && (r.targets[i].state == Succeeded ==> f.targets[i].state == Succeeded)
                 && (r.targets[i].state in {Pending, Failed, RolledBack} ==>
                     f.targets[i].state in {Pending, Failed, RolledBack})
  {
    assert RecoverInterrupted(f).targets == f.targets;
    hide RunWave;
    hide TxsKnown;
    hide RetryWave;
  }

  lemma WaveKeepsFew(f: Fleet, w: World, wave: nat)
    requires Settled(f) && f.c.state == Active && Few(f) && NextWave(f.targets, 0) == Some(wave)
    ensures Few(RunWave(f, w, wave))
  {
    hide *;
    SettledGives(f);
    var r := RunWave(f, w, wave);
    RunWaveResult(f, w, wave);
    WaveSettings(f, w, wave);
    if f.c.rollbackOnFailure {
      if r.c.state == Paused {
        NoneSucceededAfter(f, w, wave);
        FailedWaveLeaves(f, w, wave);
        FewElsewhere(f, r, wave);
      } else {
        WaveRuns(f, w, wave);
        WaveCounts(f, w, wave);
        var todo := PendingIn(f.targets, wave, 0);
        UndecidedFailed(f.targets, r.targets, todo, wave);
        RanElsewhere(f.targets, r.targets, todo, wave);
        FewElsewhere(f, r, wave);
      }
    } else {
      NotFew(r);
    }
  }

  lemma NotFew(r: Fleet)
    requires !r.c.rollbackOnFailure
    ensures Few(r)
  {
  }

  lemma WaveSettings(f: Fleet, w: World, wave: nat)
    requires TxsKnown(f.targets, f.net.ledger)
    ensures var r := RunWave(f, w, wave);
            && |r.targets| == |f.targets| && r.c.rollbackOnFailure == f.c.rollbackOnFailure
            && r.c.maxFailures == f.c.maxFailures
  {
    RunFromKeepsTxs(f, w, PendingIn(f.targets, wave, 0), 0);
    hide RunFrom;
    hide RollbackWave;
    hide PendingIn;
  }

  /** After a tolerated wave only its failures are undecided in it. */
  lemma UndecidedFailed(ts: seq<Target>, rs: seq<Target>, todo: seq<nat>, wave: nat)
    requires WaveRan(ts, rs, todo, wave)
    ensures Undecided(rs, wave) == FailedIn(rs, wave)
  {
    forall i: nat | i < |rs| ensures i in Undecided(rs, wave) <==> i in FailedIn(rs, wave) {
      assert i in todo || i !in todo;
    }
  }

  lemma RanElsewhere(ts: seq<Target>, rs: seq<Target>, todo: seq<nat>, wave: nat)
    requires WaveRan(ts, rs, todo, wave)
    ensures |rs| == |ts|
    ensures forall i :: 0 <= i < |ts| ==> rs[i].wave == ts[i].wave && (ts[i].wave != wave ==> rs[i] == ts[i])
  {
    assert forall i :: 0 <= i < |ts| ==> i in todo || i !in todo;
  }

  lemma FewElsewhere(f: Fleet, r: Fleet, wave: nat)
    requires Few(f) && f.c.rollbackOnFailure && |r.targets| == |f.targets| && r.c.maxFailures == f.c.maxFailures
    requires forall i :: 0 <= i < |f.targets| ==>
               r.targets[i].wave == f.targets[i].wave && (f.targets[i].wave != wave ==> r.targets[i] == f.targets[i])
    requires !HasSucceeded(r.targets, wave) || |Undecided(r.targets, wave)| <= f.c.maxFailures
    ensures Few(r)
  {
    hide FewIn;
    forall v: nat ensures FewIn(r.targets, v, r.c.maxFailures) {
      if v == wave {
        FewHere(r.targets, wave, r.c.maxFailures);
      } else {
        assert FewIn(f.targets, v, f.c.maxFailures);
        FewStays(f.targets, r.targets, v, f.c.maxFailures);
      }
    }
  }

  lemma FewHere(ts: seq<Target>, wave: nat, most: nat)
    requires !HasSucceeded(ts, wave) || |Undecided(ts, wave)| <= most
    ensures FewIn(ts, wave, most)
  {
  }

  lemma NextKeepsFew(f: Fleet, w: World, call: Call)
    requires Settled(f) && Few(f)
    ensures Few(Next(f, w, call))
  {
    hide *;
    SettledGives(f);
    if call.ExecuteNextWave? && call.approved && f.c.state == Active && NextWave(f.targets, 0).Some? {
      NextIsWave(f, w, call);
      WaveKeepsFew(f, w, NextWave(f.targets, 0).value);
    } else {
      OtherCallsKeepFew(f, w, call);
    }
  }

  // ---- Every reachable fleet ----

  lemma {:induction false} RunKeepsCountedAndFew(f: Fleet, w: World, calls: seq<Call>)
    requires Settled(f) && AttemptsCounted(f) && Few(f)
    ensures var r := Run(f, w, calls); Settled(r) && AttemptsCounted(r) && Few(r)
    decreases |calls|
  {
    hide *;
    RunKeepsSettled(f, w, calls);
    RunStep(f, w, calls);
    if calls != [] {
      NextKeepsCounted(f, w, calls[0]);
      NextKeepsFew(f, w, calls[0]);
      NextKeepsSettled(f, w, calls[0]);
      RunKeepsCountedAndFew(Next(f, w, calls[0]), w, calls[1..]);
    }
  }

  lemma RunStep(f: Fleet, w: World, calls: seq<Call>)
    requires Settled(f)
    ensures TxsKnown(f.targets, f.net.ledger)
    ensures calls == [] ==> Run(f, w, calls) == f
    ensures calls != [] ==>
            Settled(Next(f, w, calls[0])) && Run(f, w, calls) == Run(Next(f, w, calls[0]), w, calls[1..])
  {
    if calls != [] {
      NextKeepsSettled(f, w, calls[0]);
    }
    hide Next;
  }

  /** A fleet that calls have led to from a new campaign, whose id the ledger has not seen before. */
  ghost predicate Reachable(f: Fleet, w: World) {
    exists id: nat, r: Request, net: Net, calls: seq<Call> :: Leads(f, w, id, r, net, calls)
  }

  ghost predicate Leads(f: Fleet, w: World, id: nat, r: Request, net: Net, calls: seq<Call>) {
    && Acceptable(r) && Sane(net.ledger)
    && (forall i :: 0 <= i < |net.ledger| && net.ledger[i].ref.OpOf? ==> net.ledger[i].ref.source.campaign != id)
    && Settled(Created(id, r, net)) && f == Run(Created(id, r, net), w, calls)
  }

  lemma ReachableIs(f: Fleet, w: World)
    requires Reachable(f, w)
    ensures Settled(f) && AttemptsCounted(f) && Few(f)
  {
    var id: nat, r: Request, net: Net, calls: seq<Call> :| Leads(f, w, id, r, net, calls);
    var f0 := Created(id, r, net);
    CreatedIsCounted(id, r, net);
    CreatedIsFew(id, r, net);
    hide Created;
    hide Settled;
    RunKeepsCountedAndFew(f0, w, calls);
  }

  lemma CreatedIsFew(id: nat, r: Request, net: Net)
    requires Acceptable(r)
    ensures Few(Created(id, r, net))
  {
    hide WaveOf;
  }

  /** The saga, for every fleet that calls can lead to: a wave over its threshold that compensates what it
      should leaves no target of the wave SUCCEEDED, none was before the call, and the configuration is
      the one before the call. */
  lemma FailedWaveOfRunIsUndone(f: Fleet, w: World, wave: nat)
    requires Reachable(f, w) && f.c.state == Active && f.c.rollbackOnFailure && NextWave(f.targets, 0) == Some(wave)
    requires CleanFailures(f, w, PendingIn(f.targets, wave, 0), 0)
    requires TxsKnown(f.targets, f.net.ledger) && RunWave(f, w, wave).c.state == Paused
    requires var r := RunWave(f, w, wave); forall i :: 0 <= i < |r.targets| ==> r.targets[i].state != RollbackFailed
    ensures RunWave(f, w, wave).net.store == f.net.store
    ensures !HasSucceeded(f.targets, wave) && !HasSucceeded(RunWave(f, w, wave).targets, wave)
  {
    hide *;
    ReachableIs(f, w);
    WaveSettings(f, w, wave);
    FailedWaveIsUndone(f, w, wave);
    NoneSucceededAfter(f, w, wave);
  }

  // ---- A process that dies inside a wave ----

  /** The fleet when the process dies with target `todo[k]` of a wave in hand, before it has sent anything
      for it. */
  function DiedAt(f: Fleet, w: World, todo: seq<nat>, k: nat): Fleet
    requires k < |todo| && forall j :: 0 <= j < |todo| ==> todo[j] < |f.targets|
  {
    var g, i := RunFrom(f, w, todo[..k], 0), todo[k];
    g.(targets := g.targets[i := g.targets[i].(state := Running, attempts := g.targets[i].attempts + 1)])
  }

  /** Two targets in one wave, no failure tolerated, rollback on; nothing has run yet. */
  function TwoTargets(a: Key): Fleet {
    Fleet(Campaign(1, 0, true, Active, 0, 0), [Target(1, Pending, 0, []), Target(1, Pending, 0, [])],
          Net(map[a := "0"], []), [])
  }

  /** Every write works; the second target is not admitted. */
  function FirstOnly(a: Key): World {
    World(_ => Good, _ => [Op(a, "1")], (source: Source) => source.target == 0)
  }

  lemma FirstWorks(a: Key)
    ensures var n := Net(map[a := "0"], []);
            var r := Apply(n, FirstOnly(a).io, Attempt(1, 0, 1), [Op(a, "1")]);
            r.ok && r.net.store == map[a := "1"]
  {
    var n, io, source, ops := Net(map[a := "0"], []), FirstOnly(a).io, Attempt(1, 0, 1), [Op(a, "1")];
    assert ops[1..] == [];
    assert StopsAt(n.store[a := "1"], io, ops[1..], 1) == 0;
    assert StopsAt(n.store, io, ops, 0) == 1;
    assert Wanted(n.store[a := "1"], ops[1..]) == map[a := "1"];
    assert Wanted(n.store, ops) == map[a := "1"];
    hide *;
    FreshAtStart(n, source);
    RunIsRestored(n, io, source, ops);
    UnderwayAtStart(n, source);
    WholeRun(n, io, source, ops);
    ApplyRestores(n, io, source, ops, 0, [], n.store);
  }

  lemma FreshAtStart(n: Net, source: Source)
    requires n.ledger == []
    ensures FreshFrom(n.ledger, source, 0) && Sane(n.ledger)
  {
  }

  /** The first target succeeds, and the process dies with the second in hand. */
  lemma DiedIsHalfDone(a: Key)
    ensures var f := DiedAt(TwoTargets(a), FirstOnly(a), [0, 1], 1);
            && f.c == TwoTargets(a).c && |f.targets| == 2 && f.net.store == map[a := "1"]
            && f.targets[0].wave == 1 && f.targets[0].state == Succeeded
            && f.targets[1] == Target(1, Running, 1, [])
  {
    FirstWorks(a);
    var f, w := TwoTargets(a), FirstOnly(a);
    hide Apply;
    assert [0, 1][..1] == [0];
    assert RunFrom(f, w, [0], 0) == RunTarget(f, w, 0);
  }

  /** A call puts interrupted targets back first. */
  lemma NextAfterDeath(f: Fleet, w: World, wave: nat)
    requires TxsKnown(f.targets, f.net.ledger) && f.c.state == Active
    requires NextWave(RecoverInterrupted(f).targets, 0) == Some(wave)
    ensures var g := RecoverInterrupted(f);
            && g.c == f.c && g.net == f.net && TxsKnown(g.targets, g.net.ledger)
            && Next(f, w, ExecuteNextWave(true)) == RunWave(g, w, wave)
  {
    hide RunWave;
    hide NextWave;
    hide RetryWave;
  }

  predicate HalfDone(ts: seq<Target>) {
    |ts| == 2 && ts[0].wave == 1 && ts[0].state == Succeeded && ts[1] == Target(1, Pending, 0, [])
  }

  lemma SecondIsNext(ts: seq<Target>)
    requires HalfDone(ts)
    ensures NextWave(ts, 0) == Some(1) && PendingIn(ts, 1, 0) == [1]
  {
    assert PendingIn(ts, 1, 2) == [];
    assert PendingIn(ts, 1, 1) == [1];
    hide NextWave;
  }

  /** The next call runs the second target alone. It fails, the wave is over its threshold and rollback is
      on; but the first target was not run by this call, so it is not compensated. */
  lemma EarlierSuccessIsKept(f: Fleet, a: Key)
    requires f.c == TwoTargets(a).c && |f.targets| == 2 && f.targets[0].wave == 1 && f.targets[0].state == Succeeded
    requires f.targets[1] == Target(1, Running, 1, []) && TxsKnown(f.targets, f.net.ledger)
    ensures var r := Next(f, FirstOnly(a), ExecuteNextWave(true));
            && r.c.state == Paused && |r.targets| == 2 && r.net.store == f.net.store
            && r.targets[0] == f.targets[0] && r.targets[1].state == Failed
  {
    var g := RecoverInterrupted(f);
    assert g.targets[1] == Target(1, Pending, 0, []) && HalfDone(g.targets);
    assert f.c.state == Active;
    hide *;
    SecondIsNext(g.targets);
    NextAfterDeath(f, FirstOnly(a), 1);
    SecondAlone(g, a);
  }

  lemma SecondAlone(g: Fleet, a: Key)
    requires g.c == TwoTargets(a).c && HalfDone(g.targets) && TxsKnown(g.targets, g.net.ledger)
    ensures |g.targets| == 2
    ensures var r := RunWave(g, FirstOnly(a), 1);
            && r.c.state == Paused && |r.targets| == 2 && r.net.store == g.net.store
            && r.targets[0] == g.targets[0] && r.targets[1].state == Failed
  {
    var w := FirstOnly(a);
    assert |g.targets| == 2 && g.c.maxFailures == 0 && g.c.rollbackOnFailure;
    SecondIsNext(g.targets);
    SecondFails(g, a);
    RunWaveResult(g, w, 1);
    hide *;
    var ran := RunTarget(g, w, 1);
    PausedWaveIsRolledBack(g, w, 1);
    NothingToRollBack(ran, w);
    WaveSettings(g, w, 1);
  }

  lemma SecondFails(g: Fleet, a: Key)
    requires g.c == TwoTargets(a).c && HalfDone(g.targets)
    ensures |g.targets| == 2
    ensures var ran := RunTarget(g, FirstOnly(a), 1);
            && RunFrom(g, FirstOnly(a), [1], 0) == ran && ran.net == g.net && |ran.targets| == 2
            && ran.targets[0] == g.targets[0] && ran.targets[1].state == Failed && FailedAmong(ran.targets, [1], 0) == 1
  {
    var w := FirstOnly(a);
    var ran := RunTarget(g, w, 1);
    assert RunFrom(ran, w, [1], 1) == ran;
    assert FailedAmong(ran.targets, [1], 1) == 0;
  }

  lemma NothingToRollBack(ran: Fleet, w: World)
    requires |ran.targets| == 2 && ran.targets[1].state == Failed && TxsKnown(ran.targets, ran.net.ledger)
    ensures RollbackWave(ran, w, [1]) == ran
  {
    hide TxsKnown;
    assert [1][..0] == [];
    assert RollbackTarget(ran, w, 1) == ran;
    assert RollbackWave(ran, w, []) == ran;
  }

  /** After a death inside a wave, a wave over its threshold leaves a target SUCCEEDED and its change on
      the device: `FailedWaveLeaves` says exactly which. */
  lemma DeathLeavesSuccess(a: Key)
    ensures var f := DiedAt(TwoTargets(a), FirstOnly(a), [0, 1], 1);
            && TxsKnown(f.targets, f.net.ledger)
            && var r := Next(f, FirstOnly(a), ExecuteNextWave(true));
            && r.c.state == Paused && |r.targets| == 2 && r.targets[0].state == Succeeded
                  && r.targets[1].state == Failed
               && r.net.store == map[a := "1"] && TwoTargets(a).net.store == map[a := "0"]
  {
    DiedKeepsTxs(TwoTargets(a), FirstOnly(a), [0, 1], 1);
    DiedIsHalfDone(a);
    hide DiedAt;
    hide Next;
    EarlierSuccessIsKept(DiedAt(TwoTargets(a), FirstOnly(a), [0, 1], 1), a);
  }

  lemma DiedKeepsTxs(f: Fleet, w: World, todo: seq<nat>, k: nat)
    requires k < |todo| && (forall j :: 0 <= j < |todo| ==> todo[j] < |f.targets|) && TxsKnown(f.targets, f.net.ledger)
    ensures TxsKnown(DiedAt(f, w, todo, k).targets, DiedAt(f, w, todo, k).net.ledger)
  {
    assert forall j :: 0 <= j < k ==> todo[..k][j] == todo[j];
    RunFromKeepsTxs(f, w, todo[..k], 0);
    hide RunFrom;
  }
}
