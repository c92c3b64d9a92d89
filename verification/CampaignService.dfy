/** The campaign service as it updates its rows in place; each method does what the call of the same
    name does to the `Fleet`. */
module CampaignService {
  import opened Common
  import opened Saga
  import opened Campaigns

  class CampaignRows {
    const plan: nat -> seq<Op>
    const admits: Source -> bool
    const network: Network
    var c: Campaign
    var targets: seq<Target>
    ghost var log: seq<Outcome>

    ghost function View(): Fleet
      reads this, network
    {
      Fleet(c, targets, network.View(), log)
    }

    ghost function Surroundings(): World
    {
      World(network.io, plan, admits)
    }

    ghost predicate Valid()
      reads this, network
    {
      TxsKnown(targets, network.ledger)
    }

    constructor (f: Fleet, network: Network, plan: nat -> seq<Op>, admits: Source -> bool)
      requires TxsKnown(f.targets, network.ledger)
      ensures Valid() && View() == f.(net := network.View()) && this.network == network
    {
      this.plan, this.admits, this.network := plan, admits, network;
      c, targets, log := f.c, f.targets, f.log;
    }

    method StartCampaign() returns (ok: bool)
      requires Valid()
      modifies this
      ensures Valid() && View() == Next(old(View()), Surroundings(), Start)
      ensures ok <==> old(c.state) == Draft
    {
      hide TxsKnown;
      ok := c.state == Draft;
      if ok {
        c := c.(state := Active, currentWave := 0, failureCount := 0);
      }
    }

    method PauseCampaign() returns (ok: bool)
      requires Valid()
      modifies this
      ensures Valid() && View() == Next(old(View()), Surroundings(), Pause)
      ensures ok <==> old(c.state) == Active
    {
      hide TxsKnown;
      ok := c.state == Active;
      if ok {
        c := c.(state := Paused);
      }
    }

    method ResumeCampaign() returns (ok: bool)
      requires Valid()
      modifies this
      ensures Valid() && View() == Next(old(View()), Surroundings(), Resume)
      ensures targets == old(targets)
      ensures ok <==> old(c.state) == Paused && forall i :: 0 <= i < |targets| ==> !Unresolved(targets[i])
    {
      hide TxsKnown;
      ok := c.state == Paused && !exists i :: 0 <= i < |targets| && Unresolved(targets[i]);
      if ok {
        c := c.(state := Active);
      }
    }

    method RetryFailed(wave: Option<int>) returns (ok: bool)
      requires Valid()
      modifies this
      ensures Valid() && View() == Next(old(View()), Surroundings(), Retry(wave))
      ensures ok <==> Retryable(old(View()), wave)
    {
      hide RetryWave;
      hide Unresolved;
      var chosen := RetryWave(Fleet(c, targets, Net(map[], []), []), wave);
      RetryWaveOfRows(View(), Fleet(c, targets, Net(map[], []), []), wave);
      if c.state != Paused || chosen.None? {
        return false;
      }
      if !(exists i :: 0 <= i < |targets| && targets[i].wave == chosen.value && Unresolved(targets[i])) {
        return false;
      }
      if exists i :: 0 <= i < |targets| && targets[i].wave == chosen.value && targets[i].state == RollbackFailed {
        return false;
      }
      ghost var before := targets;
      var rows := targets;
      targets := seq(|rows|, i requires 0 <= i < |rows| => ResetFor(rows[i], chosen.value));
      ok := true;
    }

    method AbortCampaign() returns (ok: bool)
      requires Valid()
      modifies this
      ensures Valid() && View() == Next(old(View()), Surroundings(), Abort)
      ensures ok <==> old(c.state) in {Active, Paused, Draft}
    {
      ok := c.state in {Active, Paused, Draft};
      if ok {
        var rows := targets;
        targets := seq(|rows|, i requires 0 <= i < |rows| =>
          rows[i].(state := if rows[i].state in {Pending, Running} then Skipped else rows[i].state));
        c := c.(state := Aborted);
      }
    }

    /** One target of the wave: marked running under a new attempt, applied, its outcome written. */
    method RunOne(i: nat) returns (failed: bool)
      requires Valid() && i < |targets|
      modifies this, network
      ensures Valid() && View() == RunTarget(old(View()), Surroundings(), i)
      ensures failed <==> targets[i].state == Failed
    {
      ghost var f := View();
      RunTargetKeepsTxs(f, Surroundings(), i);
      hide TxsKnown;
      hide Apply;
      var attempt := targets[i].attempts + 1;
      targets := targets[i := targets[i].(state := Running, attempts := attempt)];
      var source := Attempt(c.id, i, attempt);
      if !admits(source) {
        targets := targets[i := targets[i].(state := Failed)];
        failed := true;
      } else {
        var ok, changed, _ := network.ApplyDevice(source, plan(i));
        targets := targets[i := targets[i].(state := if ok then Succeeded else Failed, txs := changed)];
        failed := !ok;
      }
      log := log + [Outcome(i, attempt, failed)];
      assert View().targets == RunTarget(f, Surroundings(), i).targets;
    }

    method RollbackOne(i: nat)
      requires Valid() && i < |targets|
      modifies this, network
      ensures Valid() && View() == RollbackTarget(old(View()), Surroundings(), i)
    {
      if targets[i].state == Succeeded {
        ghost var f := View();
        var ok := network.RollbackAll(targets[i].txs);
        hide UndoAll;
        targets := targets[i := targets[i].(state := if ok then RolledBack else RollbackFailed)];
        assert View() == RollbackTarget(f, Surroundings(), i);
      }
    }

    /** `for target in targets`, counting the failures. */
    method RunAll(todo: seq<nat>) returns (failures: nat)
      requires Valid() && forall j :: 0 <= j < |todo| ==> todo[j] < |targets|
      requires forall i, j :: 0 <= i < j < |todo| ==> todo[i] < todo[j]
      modifies this, network
      ensures Valid() && View() == RunFrom(old(View()), Surroundings(), todo, 0)
      ensures |targets| == old(|targets|) && c == old(c)
      ensures failures == FailedAmong(targets, todo, 0)
    {
      hide RunFrom;
      hide RunTarget;
      hide FailedAmong;
      hide FailedOutcomes;
      hide TxsKnown;
      ghost var start := View();
      ghost var w := Surroundings();
      failures := 0;
      for k := 0 to |todo|
        invariant Valid() && |targets| == |start.targets| && c == start.c
        invariant RunFrom(View(), w, todo, k) == RunFrom(start, w, todo, 0)
        invariant failures + FailedAmong(RunFrom(start, w, todo, 0).targets, todo, k) ==
                  FailedAmong(RunFrom(start, w, todo, 0).targets, todo, 0)
      {
        RunFromUnfolds(View(), w, todo, k);
        RunFromEffects(View(), w, todo, k);
        var failed := RunOne(todo[k]);
        RunFromEffects(View(), w, todo, k + 1);
        NotLater(todo, k);
        if failed {
          failures := failures + 1;
        }
      }
      RunFromEnds(View(), w, todo);
    }

    /** `for target in reversed(targets)`. */
    method RollbackTargets(todo: seq<nat>)
      requires Valid() && forall j :: 0 <= j < |todo| ==> todo[j] < |targets|
      modifies this, network
      ensures Valid() && View() == RollbackWave(old(View()), Surroundings(), todo)
    {
      hide RollbackTarget;
      ghost var start := View();
      assert todo[..|todo|] == todo;
      for k := |todo| downto 0
        invariant Valid() && |targets| == |start.targets|
        invariant RollbackWave(View(), Surroundings(), todo[..k]) == RollbackWave(start, Surroundings(), todo)
      {
        assert todo[..k + 1][..k] == todo[..k] && todo[..k + 1][k] == todo[k];
        RollbackOne(todo[k]);
      }
    }

    method SelectPending(wave: nat) returns (todo: seq<nat>)
      ensures todo == PendingIn(targets, wave, 0)
    {
      hide PendingIn;
      todo := [];
      PendingStart(targets, wave);
      for i := 0 to |targets|
        invariant todo + PendingIn(targets, wave, i) == PendingIn(targets, wave, 0)
      {
        PendingStep(targets, wave, i, todo);
        if targets[i].state == Pending && targets[i].wave == wave {
          todo := todo + [i];
        }
      }
      PendingEnd(targets, wave, todo);
    }

    method RecoverInterruptedTargets()
      requires Valid()
      modifies this`targets
      ensures Valid() && View() == RecoverInterrupted(old(View()))
    {
      var rows := targets;
      targets := seq(|rows|, i requires 0 <= i < |rows| => Recovered(rows[i]));
      assert targets == RecoverInterrupted(old(View())).targets;
    }

    method ExecuteWave(approved: bool) returns (ok: bool)
      requires Valid()
      modifies this, network
      ensures Valid() && View() == Next(old(View()), Surroundings(), ExecuteNextWave(approved))
      ensures ok <==> approved && old(c.state) == Active
    {
      hide RunFrom;
      hide FailedAmong;
      hide RollbackWave;
      hide RunWave;
      hide Next;
      hide NextWave;
      hide PendingIn;
      hide RecoverInterrupted;
      hide TxsKnown;
      ghost var f := View();
      ExecuteNextWaveIs(f, Surroundings(), approved);
      if !approved {
        return false;
      }
      RecoverInterruptedTargets();
      if c.state != Active {
        return false;
      }
      var wave := NextWave(targets, 0);
      if wave.None? {
        c := c.(state := Done);
        return true;
      }
      RunWaveRows(wave.value);
      return true;
    }

    /** The wave itself: run it, compensate it when it failed, write the campaign row. */
    method RunWaveRows(wave: nat)
      requires Valid()
      modifies this, network
      ensures Valid() && View() == RunWave(old(View()), Surroundings(), wave)
    {
      hide RunFrom;
      hide FailedAmong;
      hide RollbackWave;
      hide RunWave;
      hide NextWave;
      hide PendingIn;
      hide TxsKnown;
      RunWaveIs(View(), Surroundings(), wave);
      var todo := SelectPending(wave);
      var failures := RunAll(todo);
      var over := failures > c.maxFailures;
      if over && c.rollbackOnFailure {
        RollbackTargets(todo);
      }
      var state := if over then Paused else if NextWave(targets, 0).Some? then Active else Done;
      c := c.(state := state, currentWave := wave, failureCount := c.failureCount + failures);
    }
  }

  lemma PendingStart(ts: seq<Target>, wave: nat)
    ensures [] + PendingIn(ts, wave, 0) == PendingIn(ts, wave, 0)
  {
    hide PendingIn;
  }

  lemma PendingStep(ts: seq<Target>, wave: nat, i: nat, todo: seq<nat>)
    requires i < |ts|
    ensures todo + PendingIn(ts, wave, i) ==
            (if ts[i].state == Pending && ts[i].wave == wave then todo + [i] else todo) + PendingIn(ts, wave, i + 1)
  {
    hide Unresolved;
    Regroup(todo, if ts[i].state == Pending && ts[i].wave == wave then [i] else [], PendingIn(ts, wave, i + 1));
  }

  lemma Regroup(a: seq<nat>, b: seq<nat>, c: seq<nat>)
    ensures a + (b + c) == (a + b) + c && a + [] == a
  {
  }

  lemma PendingEnd(ts: seq<Target>, wave: nat, todo: seq<nat>)
    ensures todo + PendingIn(ts, wave, |ts|) == todo
  {
  }

  lemma NotLater(todo: seq<nat>, k: nat)
    requires k < |todo| && forall i, j :: 0 <= i < j < |todo| ==> todo[i] < todo[j]
    ensures todo[k] !in todo[k + 1..]
  {
  }

  lemma RunFromUnfolds(f: Fleet, w: World, todo: seq<nat>, k: nat)
    requires k < |todo| && forall j :: 0 <= j < |todo| ==> todo[j] < |f.targets|
    ensures RunFrom(f, w, todo, k) == RunFrom(RunTarget(f, w, todo[k]), w, todo, k + 1)
    ensures forall ts: seq<Target> :: |ts| == |f.targets| ==>
              FailedAmong(ts, todo, k) == (if ts[todo[k]].state == Failed then 1 else 0) + FailedAmong(ts, todo, k + 1)
  {
  }

  lemma RunFromEnds(f: Fleet, w: World, todo: seq<nat>)
    requires forall j :: 0 <= j < |todo| ==> todo[j] < |f.targets|
    ensures RunFrom(f, w, todo, |todo|) == f
    ensures forall ts: seq<Target> :: |ts| == |f.targets| ==> FailedAmong(ts, todo, |todo|) == 0
  {
  }

  lemma ExecuteNextWaveIs(f: Fleet, w: World, approved: bool)
    requires TxsKnown(f.targets, f.net.ledger)
    ensures var g := RecoverInterrupted(f);
            && TxsKnown(g.targets, g.net.ledger) && g.c == f.c && g.net == f.net && g.log == f.log
            && Next(f, w, ExecuteNextWave(approved)) ==
               if !approved then f
               else if g.c.state != Active then g
               else if NextWave(g.targets, 0).None? then g.(c := g.c.(state := Done))
               else RunWave(g, w, NextWave(g.targets, 0).value)
  {
    hide RunWave;
    hide NextWave;
  }

  lemma RunWaveIs(f: Fleet, w: World, wave: nat)
    requires TxsKnown(f.targets, f.net.ledger)
    ensures var todo := PendingIn(f.targets, wave, 0);
            var ran := RunFrom(f, w, todo, 0);
            && TxsKnown(ran.targets, ran.net.ledger)
            && var failures := FailedAmong(ran.targets, todo, 0);
               var over := failures > f.c.maxFailures;
               var settled := if over && f.c.rollbackOnFailure then RollbackWave(ran, w, todo) else ran;
               var state := if over then Paused else if NextWave(settled.targets, 0).Some? then Active else Done;
               RunWave(f, w, wave) ==
               settled.(c := f.c.(state := state, currentWave := wave, failureCount := f.c.failureCount + failures))
  {
    RunFromKeepsTxs(f, w, PendingIn(f.targets, wave, 0), 0);
    hide RunFrom;
    hide RollbackWave;
    hide PendingIn;
    hide FailedAmong;
    hide TxsKnown;
  }

  lemma RetryWaveOfRows(f: Fleet, g: Fleet, wave: Option<int>)
    requires f.targets == g.targets
    ensures RetryWave(f, wave) == RetryWave(g, wave)
  {
  }
}
