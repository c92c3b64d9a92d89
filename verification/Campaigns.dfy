/** The fleet campaign of campaigns.py: waves of targets, a failure threshold, pause, resume, retry
    and abort, and the compensation of a failed wave.

    `Fleet` is the campaign row, its target rows and the network; `Next` is one complete public
    call. Calls of one campaign are taken to be serialized. `log` records every outcome written. */
module Campaigns {
  import opened Common
  import opened Saga

  datatype TargetState = Pending | Running | Succeeded | Failed | RolledBack | RollbackFailed | Skipped

  datatype CampaignState = Draft | Active | Paused | Done | Aborted

  datatype Target = Target(wave: nat, state: TargetState, attempts: nat, txs: seq<nat>)

  datatype Campaign = Campaign(id: nat, maxFailures: nat, rollbackOnFailure: bool,
                               state: CampaignState, currentWave: nat, failureCount: nat)

  datatype Outcome = Outcome(target: nat, attempt: nat, failed: bool)

  datatype Fleet = Fleet(c: Campaign, targets: seq<Target>, net: Net, log: seq<Outcome>)

  /** What the surroundings decide: the network, the published operations of each target, and
      whether a run is admitted at all (it may be refused before anything is sent). */
  datatype World = World(io: Oracle, plan: nat -> seq<Op>, admits: Source -> bool)

  datatype Call = Start | Pause | Resume | Retry(wave: Option<int>) | Abort | ExecuteNextWave(approved: bool)

  predicate Unresolved(t: Target) {
    t.state in {Failed, RolledBack, RollbackFailed}
  }

  // ---- One wave ----

  /** A target left RUNNING belongs to an interrupted process: the same attempt will run again. */
  function Recovered(t: Target): Target {
    if t.state != Running then t
    else t.(state := Pending, attempts := if t.attempts > 0 then t.attempts - 1 else 0)
  }

  function RecoverInterrupted(f: Fleet): (r: Fleet)
    ensures |r.targets| == |f.targets|
    ensures forall i :: 0 <= i < |f.targets| ==> r.targets[i] == Recovered(f.targets[i])
  {
    f.(targets := seq(|f.targets|, i requires 0 <= i < |f.targets| => Recovered(f.targets[i])))
  }

  /** The targets of wave `w` still to run, in order, from `i` on. */
  function PendingIn(ts: seq<Target>, w: nat, i: nat): (r: seq<nat>)
    requires i <= |ts|
    ensures forall k :: 0 <= k < |r| ==> i <= r[k] < |ts| && ts[r[k]].state == Pending && ts[r[k]].wave == w
    ensures forall j, k :: 0 <= j < k < |r| ==> r[j] < r[k]
    ensures forall j :: i <= j < |ts| && ts[j].state == Pending && ts[j].wave == w ==> j in r
    decreases |ts| - i
  {
    if i == |ts| then []
    else (if ts[i].state == Pending && ts[i].wave == w then [i] else []) + PendingIn(ts, w, i + 1)
  }

  /** The lowest wave with a target still to run. */
  function NextWave(ts: seq<Target>, i: nat): (r: Option<nat>)
    requires i <= |ts|
    ensures r.None? <==> forall j :: i <= j < |ts| ==> ts[j].state != Pending
    ensures r.Some? ==> forall j :: i <= j < |ts| && ts[j].state == Pending ==> r.value <= ts[j].wave
    ensures r.Some? ==> exists j :: i <= j < |ts| && ts[j].state == Pending && ts[j].wave == r.value
    decreases |ts| - i
  {
    if i == |ts| then None
    else
      var rest := NextWave(ts, i + 1);
      if ts[i].state != Pending then rest
      else if rest.None? || ts[i].wave <= rest.value then Some(ts[i].wave) else rest
  }

  function SourceOf(f: Fleet, i: nat): Source
    requires i < |f.targets|
  {
    Attempt(f.c.id, i, f.targets[i].attempts + 1)
  }

  /** One target: a new attempt, the run on its device, the outcome. */
  function RunTarget(f: Fleet, w: World, i: nat): (r: Fleet)
    requires i < |f.targets|
    ensures r.c == f.c && |r.targets| == |f.targets| && |r.log| == |f.log| + 1
  {
    var t := f.targets[i].(attempts := f.targets[i].attempts + 1);
    var source := SourceOf(f, i);
    if !w.admits(source) then
      f.(targets := f.targets[i := t.(state := Failed)], log := f.log + [Outcome(i, t.attempts, true)])
    else
      var a := Apply(f.net, w.io, source, w.plan(i));
      Fleet(f.c, f.targets[i := t.(state := if a.ok then Succeeded else Failed, txs := a.changed)], a.net,
            f.log + [Outcome(i, t.attempts, !a.ok)])
  }

  /** The targets `todo[k..]`, one after the other. */
  function RunFrom(f: Fleet, w: World, todo: seq<nat>, k: nat): (r: Fleet)
    requires k <= |todo| && forall j :: 0 <= j < |todo| ==> todo[j] < |f.targets|
    ensures r.c == f.c && |r.targets| == |f.targets| && |r.log| == |f.log| + |todo| - k
    decreases |todo| - k
  {
    if k == |todo| then f else RunFrom(RunTarget(f, w, todo[k]), w, todo, k + 1)
  }

  /** How many of the targets `todo[k..]` have failed. */
  function FailedAmong(ts: seq<Target>, todo: seq<nat>, k: nat): nat
    requires k <= |todo| && forall j :: 0 <= j < |todo| ==> todo[j] < |ts|
    decreases |todo| - k
  {
    if k == |todo| then 0
    else (if ts[todo[k]].state == Failed then 1 else 0) + FailedAmong(ts, todo, k + 1)
  }

  /** Every transaction of a target that could be rolled back is in the ledger. */
  predicate TxsKnown(ts: seq<Target>, ledger: seq<Tx>) {
    forall i, k :: 0 <= i < |ts| && 0 <= k < |ts[i].txs| ==> ts[i].txs[k] < |ledger|
  }

  function RollbackTarget(f: Fleet, w: World, i: nat): (r: Fleet)
    requires i < |f.targets| && TxsKnown(f.targets, f.net.ledger)
    ensures r.c == f.c && |r.targets| == |f.targets| && TxsKnown(r.targets, r.net.ledger) && r.log == f.log
  {
    if f.targets[i].state != Succeeded then f
    else
      UndoAllKeepsRows(f.net, w.io, f.targets[i].txs);
      var u := UndoAll(f.net, w.io, f.targets[i].txs);
      f.(targets := f.targets[i := f.targets[i].(state := if u.ok then RolledBack else RollbackFailed)], net := u.net)
  }

  /** Compensation of the wave's targets, last one first. */
  function RollbackWave(f: Fleet, w: World, todo: seq<nat>): (r: Fleet)
    requires TxsKnown(f.targets, f.net.ledger) && forall j :: 0 <= j < |todo| ==> todo[j] < |f.targets|
    ensures r.c == f.c && |r.targets| == |f.targets| && TxsKnown(r.targets, r.net.ledger) && r.log == f.log
    decreases |todo|
  {
    if todo == [] then f else RollbackWave(RollbackTarget(f, w, todo[|todo| - 1]), w, todo[..|todo| - 1])
  }

  lemma {:induction false} ApplyFromGrows(n: Net, io: Oracle, source: Source, ops: seq<Op>, k: nat, changed: seq<nat>)
    requires k <= |ops| && forall j :: 0 <= j < |changed| ==> changed[j] < |n.ledger|
    ensures var a := ApplyFrom(n, io, source, ops, k, changed);
            |a.net.ledger| >= |n.ledger| && forall j :: 0 <= j < |a.changed| ==> a.changed[j] < |a.net.ledger|
    decreases |ops| - k
  {
    hide *;
    if k == |ops| {
      ApplyEnds(n, io, source, ops, changed);
    } else {
      ApplyUnfolds(n, io, source, ops, k, changed);
      var r := Execute(n, io, OpOf(source, k + 1), ops[k]);
      if r.tx.Some? {
        ApplyFromGrows(r.net, io, source, ops, k + 1, Extended(r, changed));
      } else {
        UndoAllLength(r.net, io, changed);
      }
    }
  }

  lemma UndoAllLength(n: Net, io: Oracle, txs: seq<nat>)
    requires forall k :: 0 <= k < |txs| ==> txs[k] < |n.ledger|
    ensures |UndoAll(n, io, txs).net.ledger| >= |n.ledger|
  {
    UndoAllKeepsRows(n, io, txs);
  }

  lemma ApplyEnds(n: Net, io: Oracle, source: Source, ops: seq<Op>, changed: seq<nat>)
    requires forall j :: 0 <= j < |changed| ==> changed[j] < |n.ledger|
    ensures ApplyFrom(n, io, source, ops, |ops|, changed) == Applied(n, true, changed, true)
  {
  }

  function Extended(r: Ran, changed: seq<nat>): seq<nat>
    requires r.tx.Some? && r.tx.value < |r.net.ledger|
  {
    if r.net.ledger[r.tx.value].changed then changed + [r.tx.value] else changed
  }

  lemma ApplyUnfolds(n: Net, io: Oracle, source: Source, ops: seq<Op>, k: nat, changed: seq<nat>)
    requires k < |ops| && forall j :: 0 <= j < |changed| ==> changed[j] < |n.ledger|
    ensures var r := Execute(n, io, OpOf(source, k + 1), ops[k]);
            && |n.ledger| <= |r.net.ledger|
            && (r.tx.Some? ==>
                  && (forall j :: 0 <= j < |Extended(r, changed)| ==> Extended(r, changed)[j] < |r.net.ledger|)
                  && ApplyFrom(n, io, source, ops, k, changed) ==
                     ApplyFrom(r.net, io, source, ops, k + 1, Extended(r, changed)))
            && (r.tx.None? ==>
                  ApplyFrom(n, io, source, ops, k, changed) ==
                  Applied(UndoAll(r.net, io, changed).net, false, changed, UndoAll(r.net, io, changed).ok))
  {
    ExecuteGrows(n, io, OpOf(source, k + 1), ops[k]);
    hide Execute;
    hide UndoAll;
  }

  lemma RunTargetKeepsTxs(f: Fleet, w: World, i: nat)
    requires i < |f.targets| && TxsKnown(f.targets, f.net.ledger)
    ensures TxsKnown(RunTarget(f, w, i).targets, RunTarget(f, w, i).net.ledger)
  {
    ApplyFromGrows(f.net, w.io, SourceOf(f, i), w.plan(i), 0, []);
  }

  lemma {:induction false} RunFromKeepsTxs(f: Fleet, w: World, todo: seq<nat>, k: nat)
    requires k <= |todo| && (forall j :: 0 <= j < |todo| ==> todo[j] < |f.targets|) && TxsKnown(f.targets, f.net.ledger)
    ensures TxsKnown(RunFrom(f, w, todo, k).targets, RunFrom(f, w, todo, k).net.ledger)
    decreases |todo| - k
  {
    if k < |todo| {
      RunTargetKeepsTxs(f, w, todo[k]);
      RunFromKeepsTxs(RunTarget(f, w, todo[k]), w, todo, k + 1);
    }
  }

  /** The wave `wave` of a running campaign. */
  function RunWave(f: Fleet, w: World, wave: nat): Fleet
    requires TxsKnown(f.targets, f.net.ledger)
  {
    var todo := PendingIn(f.targets, wave, 0);
    RunFromKeepsTxs(f, w, todo, 0);
    var ran := RunFrom(f, w, todo, 0);
    var failures := FailedAmong(ran.targets, todo, 0);
    var over := failures > f.c.maxFailures;
    var settled := if over && f.c.rollbackOnFailure then RollbackWave(ran, w, todo) else ran;
    var state := if over then Paused else if NextWave(settled.targets, 0).Some? then Active else Done;
    settled.(c := f.c.(state := state, currentWave := wave, failureCount := f.c.failureCount + failures))
  }

  // ---- One call ----

  function FirstUnresolved(ts: seq<Target>, i: nat): (r: Option<nat>)
    requires i <= |ts|
    ensures r.None? <==> forall j :: i <= j < |ts| ==> !Unresolved(ts[j])
    ensures r.Some? ==> exists j :: i <= j < |ts| && Unresolved(ts[j]) && ts[j].wave == r.value
    decreases |ts| - i
  {
    if i == |ts| then None else if Unresolved(ts[i]) then Some(ts[i].wave) else FirstUnresolved(ts, i + 1)
  }

  /** The wave to retry: the given one, or the only one with unresolved targets. */
  function RetryWave(f: Fleet, wave: Option<int>): Option<nat> {
    if wave.Some? then (if wave.value < 1 then None else Some(wave.value))
    else
      var only := FirstUnresolved(f.targets, 0);
      if only.Some? && forall i :: 0 <= i < |f.targets| && Unresolved(f.targets[i]) ==> f.targets[i].wave == only.value
      then only else None
  }

  function ResetFor(t: Target, wave: nat): Target {
    if t.wave == wave && t.state in {Failed, RolledBack} then t.(state := Pending, txs := []) else t
  }

  /** A retry is accepted: the campaign is paused, a wave is named or can be told, something in it is
      unresolved, and nothing in it is stuck in rollback. */
  predicate Retryable(f: Fleet, wave: Option<int>) {
    var chosen := RetryWave(f, wave);
    && f.c.state == Paused && chosen.Some?
    && (exists i :: 0 <= i < |f.targets| && f.targets[i].wave == chosen.value && Unresolved(f.targets[i]))
    && (forall i :: 0 <= i < |f.targets| && f.targets[i].wave == chosen.value ==> f.targets[i].state != RollbackFailed)
  }

  /** A call that raises leaves everything as it was, except that looking for a wave first puts
      interrupted targets back. */
  function Next(f: Fleet, w: World, call: Call): Fleet
    requires TxsKnown(f.targets, f.net.ledger)
  {
    match call
    case Start =>
      if f.c.state != Draft then f else f.(c := f.c.(state := Active, currentWave := 0, failureCount := 0))
    case Pause => if f.c.state != Active then f else f.(c := f.c.(state := Paused))
    case Resume =>
      if f.c.state != Paused || exists i :: 0 <= i < |f.targets| && Unresolved(f.targets[i]) then f
      else f.(c := f.c.(state := Active))
    case Retry(wave) =>
      var chosen := RetryWave(f, wave);
      if f.c.state != Paused || chosen.None?
         || !(exists i :: 0 <= i < |f.targets| && f.targets[i].wave == chosen.value && Unresolved(f.targets[i]))
         || (exists i :: 0 <= i < |f.targets|
                         && f.targets[i].wave == chosen.value && f.targets[i].state == RollbackFailed)
      then f
      else f.(targets := seq(|f.targets|, i requires 0 <= i < |f.targets| => ResetFor(f.targets[i], chosen.value)))
    case Abort =>
      if f.c.state !in {Active, Paused, Draft} then f
      else f.(c := f.c.(state := Aborted),
              targets := seq(|f.targets|, i requires 0 <= i < |f.targets| =>
                f.targets[i].(state := if f.targets[i].state in {Pending, Running} then Skipped
                              else f.targets[i].state)))
    case ExecuteNextWave(approved) =>
      if !approved then f
      else
        var g := RecoverInterrupted(f);
        var wave := NextWave(g.targets, 0);
        if g.c.state != Active then g
        else if wave.None? then g.(c := g.c.(state := Done))
        else RunWave(g, w, wave.value)
  }

  // ---- What every complete call keeps ----

  function FailedOutcomes(log: seq<Outcome>): nat {
    if log == [] then 0 else FailedOutcomes(log[..|log| - 1]) + if log[|log| - 1].failed then 1 else 0
  }

  function FailedIn(ts: seq<Target>, wave: nat): set<nat> {
    set i: nat | i < |ts| && ts[i].wave == wave && ts[i].state == Failed
  }

  /** No wave has targets to run beside targets to resolve. */
  predicate Unmixed(ts: seq<Target>) {
    forall i, j :: 0 <= i < |ts| && 0 <= j < |ts| && ts[i].wave == ts[j].wave && ts[i].state == Pending ==>
      !Unresolved(ts[j])
  }

  ghost predicate NoneRunning(ts: seq<Target>) {
    forall i :: 0 <= i < |ts| ==> ts[i].state != Running
  }

  predicate Quarantined(t: Target) {
    t.state in {RolledBack, RollbackFailed}
  }

  /** A campaign that may go on, or has ended well: nothing was rolled back, and no wave has more
      failures than the campaign tolerates. */
  ghost predicate Tolerable(f: Fleet) {
    && (forall i :: 0 <= i < |f.targets| ==> !Quarantined(f.targets[i]))
    && (forall wave: nat :: |FailedIn(f.targets, wave)| <= f.c.maxFailures)
  }

  ghost predicate Settled(f: Fleet) {
    && TxsKnown(f.targets, f.net.ledger)
    && Unmixed(f.targets)
    && f.c.failureCount == FailedOutcomes(f.log)
    && NoneRunning(f.targets)
    && (f.c.state == Draft ==> f.log == [] && forall i :: 0 <= i < |f.targets| ==> f.targets[i].state == Pending)
    && (f.c.state in {Active, Done} ==> Tolerable(f))
    && (f.c.state == Done ==> forall i :: 0 <= i < |f.targets| ==> f.targets[i].state != Pending)
  }

  /** What running some targets does: each of them ends in success or failure under one more
      attempt, the others are untouched, and the log gains exactly the failures counted. */
  lemma {:induction false} RunFromEffects(f: Fleet, w: World, todo: seq<nat>, k: nat)
    requires k <= |todo| && forall j :: 0 <= j < |todo| ==> todo[j] < |f.targets|
    requires forall i, j :: 0 <= i < j < |todo| ==> todo[i] < todo[j]
    ensures var r := RunFrom(f, w, todo, k);
            && (forall j :: k <= j < |todo| ==>
                  && r.targets[todo[j]].state in {Succeeded, Failed}
                  && r.targets[todo[j]].wave == f.targets[todo[j]].wave
                  && r.targets[todo[j]].attempts == f.targets[todo[j]].attempts + 1)
            && (forall i :: 0 <= i < |f.targets| && i !in todo[k..] ==> r.targets[i] == f.targets[i])
            && FailedOutcomes(r.log) == FailedOutcomes(f.log) + FailedAmong(r.targets, todo, k)
    decreases |todo| - k
  {
    if k < |todo| {
      var g := RunTarget(f, w, todo[k]);
      RunTargetEffects(f, w, todo[k]);
      RunFromEffects(g, w, todo, k + 1);
      hide RunTarget;
      assert todo[k..] == [todo[k]] + todo[k + 1..];
      assert todo[k] !in todo[k + 1..];
    }
  }

  lemma RunTargetEffects(f: Fleet, w: World, i: nat)
    requires i < |f.targets|
    ensures var r := RunTarget(f, w, i);
            && r.targets[i].state in {Succeeded, Failed} && r.targets[i].wave == f.targets[i].wave
            && r.targets[i].attempts == f.targets[i].attempts + 1
            && (forall j :: 0 <= j < |f.targets| && j != i ==> r.targets[j] == f.targets[j])
            && FailedOutcomes(r.log) == FailedOutcomes(f.log) + if r.targets[i].state == Failed then 1 else 0
  {
    var r := RunTarget(f, w, i);
    assert r.log[..|f.log|] == f.log;
  }

  function FailedOf(ts: seq<Target>, todo: seq<nat>, k: nat): (r: set<nat>)
    requires k <= |todo| && forall j :: 0 <= j < |todo| ==> todo[j] < |ts|
    ensures forall i :: i in r ==> exists j :: k <= j < |todo| && todo[j] == i && ts[i].state == Failed
    ensures forall j :: k <= j < |todo| && ts[todo[j]].state == Failed ==> todo[j] in r
    decreases |todo| - k
  {
    if k == |todo| then {}
    else (if ts[todo[k]].state == Failed then {todo[k]} else {}) + FailedOf(ts, todo, k + 1)
  }

  /** The count kept by the loop is the number of failed targets. */
  lemma {:induction false} FailedAmongCounts(ts: seq<Target>, todo: seq<nat>, k: nat)
    requires k <= |todo| && forall j :: 0 <= j < |todo| ==> todo[j] < |ts|
    requires forall i, j :: 0 <= i < j < |todo| ==> todo[i] < todo[j]
    ensures FailedAmong(ts, todo, k) == |FailedOf(ts, todo, k)|
    decreases |todo| - k
  {
    if k < |todo| {
      FailedAmongCounts(ts, todo, k + 1);
      FailedOfStep(ts, todo, k);
      hide FailedOf;
      AddOne(FailedOf(ts, todo, k + 1), todo[k]);
    }
  }

  lemma FailedOfStep(ts: seq<Target>, todo: seq<nat>, k: nat)
    requires k < |todo| && forall j :: 0 <= j < |todo| ==> todo[j] < |ts|
    requires forall i, j :: 0 <= i < j < |todo| ==> todo[i] < todo[j]
    ensures todo[k] !in FailedOf(ts, todo, k + 1)
    ensures FailedOf(ts, todo, k) ==
            FailedOf(ts, todo, k + 1) + if ts[todo[k]].state == Failed then {todo[k]} else {}
  {
  }

  lemma AddOne(s: set<nat>, x: nat)
    requires x !in s
    ensures |s + {x}| == |s| + 1
  {
  }

  /** `rs` are the targets `ts` after the run of the wave's pending targets `todo`. */
  ghost predicate WaveRan(ts: seq<Target>, rs: seq<Target>, todo: seq<nat>, wave: nat) {
    && |rs| == |ts|
    && (forall i :: 0 <= i < |ts| && i !in todo ==>
          rs[i] == ts[i] && (ts[i].wave == wave ==> ts[i].state in {Succeeded, Skipped}))
    && (forall i :: 0 <= i < |ts| && i in todo ==>
          rs[i].state in {Succeeded, Failed} && rs[i].wave == wave && ts[i].wave == wave
          && rs[i].attempts == ts[i].attempts + 1 && ts[i].state == Pending)
  }

  /** A wave that is next holds no unresolved target: what is not pending has succeeded. */
  lemma RestOfWave(ts: seq<Target>, wave: nat, p: nat, i: nat)
    requires Unmixed(ts) && NoneRunning(ts) && p < |ts| && ts[p].state == Pending && ts[p].wave == wave
    requires i < |ts| && ts[i].wave == wave && ts[i].state != Pending
    ensures ts[i].state in {Succeeded, Skipped}
  {
  }

  lemma WaveRuns(f: Fleet, w: World, wave: nat)
    requires Unmixed(f.targets) && NoneRunning(f.targets) && NextWave(f.targets, 0) == Some(wave)
    ensures var todo := PendingIn(f.targets, wave, 0);
            WaveRan(f.targets, RunFrom(f, w, todo, 0).targets, todo, wave)
  {
    hide *;
    var ts, todo := f.targets, PendingIn(f.targets, wave, 0);
    var rs := RunFrom(f, w, todo, 0).targets;
    var p :| 0 <= p < |ts| && ts[p].state == Pending && ts[p].wave == wave;
    forall i | 0 <= i < |ts| && i !in todo
      ensures rs[i] == ts[i] && (ts[i].wave == wave ==> ts[i].state in {Succeeded, Skipped})
    {
      RunFromEffects(f, w, todo, 0);
      assert todo[0..] == todo;
      if ts[i].wave == wave {
        RestOfWave(ts, wave, p, i);
      }
    }
    forall i | 0 <= i < |ts| && i in todo
      ensures rs[i].state in {Succeeded, Failed} && rs[i].wave == wave && ts[i].wave == wave
              && rs[i].attempts == ts[i].attempts + 1 && ts[i].state == Pending
    {
      RunFromEffects(f, w, todo, 0);
      var j :| 0 <= j < |todo| && todo[j] == i;
    }
    WaveRanIf(ts, rs, todo, wave);
  }

  lemma WaveRanIf(ts: seq<Target>, rs: seq<Target>, todo: seq<nat>, wave: nat)
    requires |rs| == |ts|
    requires forall i :: 0 <= i < |ts| && i !in todo ==>
               rs[i] == ts[i] && (ts[i].wave == wave ==> ts[i].state in {Succeeded, Skipped})
    requires forall i :: 0 <= i < |ts| && i in todo ==>
               rs[i].state in {Succeeded, Failed} && rs[i].wave == wave && ts[i].wave == wave
               && rs[i].attempts == ts[i].attempts + 1 && ts[i].state == Pending
    ensures WaveRan(ts, rs, todo, wave)
  {
  }

  /** The failures counted by the loop are the failed targets of the wave, and the log has them. */
  lemma WaveCounts(f: Fleet, w: World, wave: nat)
    requires Unmixed(f.targets) && NoneRunning(f.targets) && NextWave(f.targets, 0) == Some(wave)
    ensures var todo := PendingIn(f.targets, wave, 0);
            var r := RunFrom(f, w, todo, 0);
            && FailedOutcomes(r.log) == FailedOutcomes(f.log) + FailedAmong(r.targets, todo, 0)
            && FailedAmong(r.targets, todo, 0) == |FailedIn(r.targets, wave)|
  {
    hide *;
    WaveRuns(f, w, wave);
    var todo := PendingIn(f.targets, wave, 0);
    var r := RunFrom(f, w, todo, 0);
    RunFromEffects(f, w, todo, 0);
    FailedAmongCounts(r.targets, todo, 0);
    FailedOfWave(f.targets, r.targets, todo, wave);
  }

  lemma FailedOfWave(ts: seq<Target>, rs: seq<Target>, todo: seq<nat>, wave: nat)
    requires WaveRan(ts, rs, todo, wave) && forall j :: 0 <= j < |todo| ==> todo[j] < |ts|
    ensures FailedIn(rs, wave) == FailedOf(rs, todo, 0)
  {
    forall i: nat | i < |rs| && rs[i].wave == wave && rs[i].state == Failed ensures i in FailedOf(rs, todo, 0) {
      assert i in todo;
      var j :| 0 <= j < |todo| && todo[j] == i;
    }
    forall i: nat | i in FailedOf(rs, todo, 0) ensures i in FailedIn(rs, wave) {
      assert i in todo;
    }
  }

  lemma WaveStaysUnmixed(ts: seq<Target>, rs: seq<Target>, todo: seq<nat>, wave: nat)
    requires WaveRan(ts, rs, todo, wave) && Unmixed(ts) && NoneRunning(ts)
    ensures Unmixed(rs) && NoneRunning(rs)
    ensures forall i :: 0 <= i < |rs| && rs[i].state == Pending ==> rs[i].wave != wave
  {
    forall i, j | 0 <= i < |rs| && 0 <= j < |rs| && rs[i].wave == rs[j].wave && rs[i].state == Pending
      ensures !Unresolved(rs[j])
    {
      assert i !in todo;
    }
  }

  /** `ss` are the targets `rs` after compensation. */
  ghost predicate Compensated(rs: seq<Target>, ss: seq<Target>, todo: seq<nat>) {
    && |ss| == |rs|
    && forall i :: 0 <= i < |rs| ==>
         && ss[i].wave == rs[i].wave && ss[i].attempts == rs[i].attempts
         && (rs[i].state != Succeeded || i !in todo ==> ss[i] == rs[i])
         && (rs[i].state == Succeeded && i in todo ==> ss[i].state in {RolledBack, RollbackFailed})
  }

  lemma {:induction false} RollbackWaveEffects(f: Fleet, w: World, todo: seq<nat>)
    requires TxsKnown(f.targets, f.net.ledger) && forall j :: 0 <= j < |todo| ==> todo[j] < |f.targets|
    ensures Compensated(f.targets, RollbackWave(f, w, todo).targets, todo)
    decreases |todo|
  {
    if todo != [] {
      var last, front := todo[|todo| - 1], todo[..|todo| - 1];
      var g := RollbackTarget(f, w, last);
      RollbackWaveEffects(g, w, front);
      hide RollbackTarget;
      assert todo == front + [last];
      assert forall i :: i in todo <==> i in front || i == last;
    }
  }

  lemma CompensatedStaysUnmixed(ts: seq<Target>, rs: seq<Target>, ss: seq<Target>, todo: seq<nat>, wave: nat)
    requires WaveRan(ts, rs, todo, wave) && Compensated(rs, ss, todo)
    requires Unmixed(rs) && NoneRunning(rs)
    requires forall i :: 0 <= i < |rs| && rs[i].state == Pending ==> rs[i].wave != wave
    ensures Unmixed(ss) && NoneRunning(ss)
  {
    forall i, j | 0 <= i < |ss| && 0 <= j < |ss| && ss[i].wave == ss[j].wave && ss[i].state == Pending
      ensures !Unresolved(ss[j])
    {
      assert ss[i] == rs[i] && rs[i].wave != wave;
    }
  }

  lemma WithinTolerance(f: Fleet, r: Fleet, todo: seq<nat>, wave: nat)
    requires Tolerable(f) && WaveRan(f.targets, r.targets, todo, wave) && r.c.maxFailures == f.c.maxFailures
    requires |FailedIn(r.targets, wave)| <= f.c.maxFailures
    ensures Tolerable(r)
  {
    var rs := r.targets;
    assert forall i :: 0 <= i < |rs| ==> !Quarantined(rs[i]) by {
      assert forall i :: 0 <= i < |rs| ==> i in todo || i !in todo;
    }
    forall v: nat ensures |FailedIn(rs, v)| <= f.c.maxFailures {
      if v != wave {
        OtherWaveAsBefore(f.targets, rs, todo, wave, v);
        assert |FailedIn(f.targets, v)| <= f.c.maxFailures;
      }
    }
  }

  lemma OtherWaveAsBefore(ts: seq<Target>, rs: seq<Target>, todo: seq<nat>, wave: nat, v: nat)
    requires WaveRan(ts, rs, todo, wave) && v != wave
    ensures FailedIn(rs, v) == FailedIn(ts, v)
  {
    forall i: nat | i < |ts| ensures i in FailedIn(rs, v) <==> i in FailedIn(ts, v) {
      assert i in todo || i !in todo;
    }
  }

  /** What `RunWave` returns, in terms of the wave's run. */
  lemma RunWaveResult(f: Fleet, w: World, wave: nat)
    requires TxsKnown(f.targets, f.net.ledger)
    ensures var todo := PendingIn(f.targets, wave, 0);
            var ran, r := RunFrom(f, w, todo, 0), RunWave(f, w, wave);
            var failures := FailedAmong(ran.targets, todo, 0);
            && TxsKnown(ran.targets, ran.net.ledger) && TxsKnown(r.targets, r.net.ledger)
            && r.log == ran.log && r.c.maxFailures == f.c.maxFailures
            && r.c.failureCount == f.c.failureCount + failures
            && (failures > f.c.maxFailures ==>
                  r.c.state == Paused
                  && r.targets == if f.c.rollbackOnFailure then RollbackWave(ran, w, todo).targets else ran.targets)
            && (failures <= f.c.maxFailures ==>
                  r.targets == ran.targets
                  && r.c.state == if NextWave(ran.targets, 0).Some? then Active else Done)
  {
    var todo := PendingIn(f.targets, wave, 0);
    RunFromKeepsTxs(f, w, todo, 0);
    hide RunFrom;
    hide RollbackWave;
    hide FailedAmong;
    hide TxsKnown;
  }

  lemma SettledIf(f: Fleet)
    requires TxsKnown(f.targets, f.net.ledger) && Unmixed(f.targets) && NoneRunning(f.targets)
    requires f.c.failureCount == FailedOutcomes(f.log) && f.c.state in {Active, Paused, Done}
    requires f.c.state in {Active, Done} ==> Tolerable(f)
    requires f.c.state == Done ==> NextWave(f.targets, 0).None?
    ensures Settled(f)
  {
  }

  lemma SettledGives(f: Fleet)
    requires Settled(f)
    ensures TxsKnown(f.targets, f.net.ledger) && Unmixed(f.targets) && NoneRunning(f.targets)
    ensures f.c.failureCount == FailedOutcomes(f.log)
    ensures f.c.state in {Active, Done} ==> Tolerable(f)
  {
  }

  lemma RunWaveKeepsSettled(f: Fleet, w: World, wave: nat)
    requires Settled(f) && f.c.state == Active && NextWave(f.targets, 0) == Some(wave)
    ensures Settled(RunWave(f, w, wave)) && RunWave(f, w, wave).c.state in {Active, Paused, Done}
  {
    hide *;
    SettledGives(f);
    var todo := PendingIn(f.targets, wave, 0);
    var ran, r := RunFrom(f, w, todo, 0), RunWave(f, w, wave);
    RunWaveResult(f, w, wave);
    WaveRuns(f, w, wave);
    WaveCounts(f, w, wave);
    WaveStaysUnmixed(f.targets, ran.targets, todo, wave);
    if FailedAmong(ran.targets, todo, 0) > f.c.maxFailures {
      RollbackWaveEffects(ran, w, todo);
      CompensatedStaysUnmixed(f.targets, ran.targets, RollbackWave(ran, w, todo).targets, todo, wave);
    } else {
      WithinTolerance(f, r, todo, wave);
    }
    SettledIf(r);
  }

  lemma RetryKeepsSettled(f: Fleet, w: World, wave: Option<int>)
    requires Settled(f)
    ensures Settled(Next(f, w, Retry(wave)))
  {
    var r := Next(f, w, Retry(wave));
    if r != f {
      hide FailedOutcomes;
      var chosen := RetryWave(f, wave).value;
      hide RetryWave;
      assert forall i :: 0 <= i < |f.targets| ==> r.targets[i] == ResetFor(f.targets[i], chosen);
    }
  }

  /** Every complete call keeps the campaign settled. */
  lemma NextKeepsSettled(f: Fleet, w: World, call: Call)
    requires Settled(f)
    ensures Settled(Next(f, w, call))
  {
    if call.Retry? {
      RetryKeepsSettled(f, w, call.wave);
    } else if call.ExecuteNextWave? {
      assert RecoverInterrupted(f).targets == f.targets;
      var wave := NextWave(f.targets, 0);
      if call.approved && f.c.state == Active && wave.Some? {
        RunWaveKeepsSettled(f, w, wave.value);
      }
    }
  }

  // ---- Whole runs ----

  function Run(f: Fleet, w: World, calls: seq<Call>): Fleet
    requires Settled(f)
    decreases |calls|
  {
    if calls == [] then f
    else
      NextKeepsSettled(f, w, calls[0]);
      Run(Next(f, w, calls[0]), w, calls[1..])
  }

  lemma {:induction false} RunKeepsSettled(f: Fleet, w: World, calls: seq<Call>)
    requires Settled(f)
    ensures Settled(Run(f, w, calls))
    decreases |calls|
  {
    if calls != [] {
      hide Settled;
      hide Next;
      NextKeepsSettled(f, w, calls[0]);
      RunKeepsSettled(Next(f, w, calls[0]), w, calls[1..]);
    }
  }

  lemma OneCallKeepsRollbackFailed(f: Fleet, w: World, call: Call, i: nat)
    requires Settled(f) && i < |f.targets| && f.targets[i].state == RollbackFailed
    ensures i < |Next(f, w, call).targets| && Next(f, w, call).targets[i].state == RollbackFailed
  {
    assert Quarantined(f.targets[i]);
    assert f.c.state !in {Active, Done};
    hide Tolerable;
    hide Unmixed;
    hide TxsKnown;
    hide RunWave;
    hide FailedOutcomes;
    hide RetryWave;
  }

  lemma {:induction false} RollbackFailedStays(f: Fleet, w: World, calls: seq<Call>, i: nat)
    requires Settled(f) && i < |f.targets| && f.targets[i].state == RollbackFailed
    ensures i < |Run(f, w, calls).targets| && Run(f, w, calls).targets[i].state == RollbackFailed
    decreases |calls|
  {
    if calls != [] {
      hide Settled;
      hide Next;
      NextKeepsSettled(f, w, calls[0]);
      OneCallKeepsRollbackFailed(f, w, calls[0], i);
      RollbackFailedStays(Next(f, w, calls[0]), w, calls[1..], i);
    }
  }

  /** Quarantine: once a compensation has failed, no sequence of calls ever lets the campaign run
      again or end well; it stays paused until it is aborted. */
  lemma FailedRollbackStopsForEver(f: Fleet, w: World, calls: seq<Call>, i: nat)
    requires Settled(f) && i < |f.targets| && f.targets[i].state == RollbackFailed
    ensures Run(f, w, calls).c.state in {Paused, Aborted}
  {
    RollbackFailedStays(f, w, calls, i);
    RunKeepsSettled(f, w, calls);
    var r := Run(f, w, calls);
    hide Run;
    assert Quarantined(r.targets[i]);
  }

  /** Tolerance: whatever the calls, a campaign that is running or has succeeded has nothing rolled
      back and at most `maxFailures` failures in any wave, and its failure count is the number of
      failed outcomes ever recorded. */
  lemma RunningIsTolerable(f: Fleet, w: World, calls: seq<Call>)
    requires Settled(f)
    ensures Run(f, w, calls).c.state in {Active, Done} ==> Tolerable(Run(f, w, calls))
    ensures Run(f, w, calls).c.failureCount == FailedOutcomes(Run(f, w, calls).log)
  {
    RunKeepsSettled(f, w, calls);
    SettledGives(Run(f, w, calls));
  }

  // ---- Attempts and the ledger ----

  /** The ledger knows no attempt of this campaign beyond the ones its rows count. */
  predicate AttemptsCounted(f: Fleet) {
    && Sane(f.net.ledger)
    && forall i :: 0 <= i < |f.net.ledger| ==> CountedTx(f, f.net.ledger[i])
  }

  predicate CountedTx(f: Fleet, t: Tx) {
    t.ref.OpOf? && t.ref.source.campaign == f.c.id && t.ref.source.target < |f.targets| ==>
      t.ref.source.attempt <= f.targets[t.ref.source.target].attempts
  }

  /** `b` is `a` with more transactions, all of them of this run or rollbacks. */
  predicate OnlyFrom(a: seq<Tx>, b: seq<Tx>, source: Source) {
    && |a| <= |b|
    && (forall i :: 0 <= i < |a| ==> b[i].ref == a[i].ref)
    && (forall i :: |a| <= i < |b| ==> b[i].ref.UndoOf? || b[i].ref.source == source)
  }

  lemma OnlyFromTrans(a: seq<Tx>, b: seq<Tx>, c: seq<Tx>, source: Source)
    requires OnlyFrom(a, b, source) && OnlyFrom(b, c, source)
    ensures OnlyFrom(a, c, source)
  {
  }

  lemma ExecuteIsOnlyFrom(n: Net, io: Oracle, ref: Ref, op: Op, source: Source)
    requires ref.UndoOf? || ref.source == source
    requires Sane(n.ledger) && (ref.UndoOf? ==> ref.tx < |n.ledger|)
    ensures OnlyFrom(n.ledger, Execute(n, io, ref, op).net.ledger, source) && Sane(Execute(n, io, ref, op).net.ledger)
  {
  }

  lemma UndoIsOnlyFrom(n: Net, io: Oracle, tx: nat, source: Source)
    requires tx < |n.ledger| && Sane(n.ledger)
    ensures OnlyFrom(n.ledger, Undo(n, io, tx).net.ledger, source) && Sane(Undo(n, io, tx).net.ledger)
  {
    var t := n.ledger[tx];
    if t.pre.Some? {
      ExecuteIsOnlyFrom(n, io, UndoOf(tx), Op(t.key, t.pre.value), source);
    }
    hide Execute;
  }

  lemma {:induction false} UndoAllIsOnlyFrom(n: Net, io: Oracle, txs: seq<nat>, source: Source)
    requires (forall k :: 0 <= k < |txs| ==> txs[k] < |n.ledger|) && Sane(n.ledger)
    ensures OnlyFrom(n.ledger, UndoAll(n, io, txs).net.ledger, source) && Sane(UndoAll(n, io, txs).net.ledger)
    decreases |txs|
  {
    if txs != [] {
      UndoAllUnfolds(n, io, txs);
      hide Undo;
      hide UndoAll;
      var last := txs[|txs| - 1];
      UndoIsOnlyFrom(n, io, last, source);
      var u := Undo(n, io, last);
      UndoAllIsOnlyFrom(u.net, io, txs[..|txs| - 1], source);
      OnlyFromTrans(n.ledger, u.net.ledger, UndoAll(n, io, txs).net.ledger, source);
    }
  }

  lemma {:induction false} ApplyIsOnlyFrom(n: Net, io: Oracle, source: Source, ops: seq<Op>, k: nat, changed: seq<nat>)
    requires k <= |ops| && (forall j :: 0 <= j < |changed| ==> changed[j] < |n.ledger|) && Sane(n.ledger)
    ensures var a := ApplyFrom(n, io, source, ops, k, changed);
            OnlyFrom(n.ledger, a.net.ledger, source) && Sane(a.net.ledger)
    decreases |ops| - k
  {
    hide *;
    if k == |ops| {
      ApplyEnds(n, io, source, ops, changed);
      OnlyFromSelf(n.ledger, source);
    } else {
      ApplyUnfolds(n, io, source, ops, k, changed);
      ExecuteIsOnlyFrom(n, io, OpOf(source, k + 1), ops[k], source);
      var r := Execute(n, io, OpOf(source, k + 1), ops[k]);
      if r.tx.Some? {
        ApplyIsOnlyFrom(r.net, io, source, ops, k + 1, Extended(r, changed));
      } else {
        UndoAllIsOnlyFrom(r.net, io, changed, source);
      }
      OnlyFromTrans(n.ledger, r.net.ledger, ApplyFrom(n, io, source, ops, k, changed).net.ledger, source);
    }
  }

  lemma OnlyFromSelf(a: seq<Tx>, source: Source)
    ensures OnlyFrom(a, a, source)
  {
  }

  /** A fresh attempt: the ledger has nothing under the source of the target's next run. */
  lemma NextAttemptIsFresh(f: Fleet, i: nat)
    requires AttemptsCounted(f) && i < |f.targets|
    ensures FreshFrom(f.net.ledger, SourceOf(f, i), 0)
  {
    forall j | 0 <= j < |f.net.ledger|
      ensures f.net.ledger[j].ref.OpOf? ==> f.net.ledger[j].ref.source != SourceOf(f, i)
    {
      assert CountedTx(f, f.net.ledger[j]);
    }
  }

  lemma RunTargetCounts(f: Fleet, w: World, i: nat)
    requires AttemptsCounted(f) && i < |f.targets|
    ensures AttemptsCounted(RunTarget(f, w, i))
  {
    var r, source := RunTarget(f, w, i), SourceOf(f, i);
    ApplyIsOnlyFrom(f.net, w.io, source, w.plan(i), 0, []);
    hide ApplyFrom;
    forall j | 0 <= j < |r.net.ledger| ensures CountedTx(r, r.net.ledger[j]) {
      if j < |f.net.ledger| {
        assert CountedTx(f, f.net.ledger[j]);
      }
    }
  }

  lemma RollbackTargetCounts(f: Fleet, w: World, i: nat)
    requires AttemptsCounted(f) && i < |f.targets| && TxsKnown(f.targets, f.net.ledger)
    ensures AttemptsCounted(RollbackTarget(f, w, i))
  {
    var r := RollbackTarget(f, w, i);
    if f.targets[i].state == Succeeded {
      UndoAllIsOnlyFrom(f.net, w.io, f.targets[i].txs, SourceOf(f, i));
      UndoAllAddsUndos(f.net, w.io, f.targets[i].txs);
      hide UndoAll;
      forall j | 0 <= j < |r.net.ledger| ensures CountedTx(r, r.net.ledger[j]) {
        if j < |f.net.ledger| {
          assert CountedTx(f, f.net.ledger[j]);
        }
      }
    }
  }

  /** Compensation leaves every other transaction as it is, and adds rollbacks of its own ones only. */
  lemma {:induction false} UndoAllAddsUndos(n: Net, io: Oracle, txs: seq<nat>)
    requires forall k :: 0 <= k < |txs| ==> txs[k] < |n.ledger|
    ensures var b := UndoAll(n, io, txs).net.ledger;
            && |n.ledger| <= |b|
            && (forall i :: 0 <= i < |n.ledger| ==> b[i].ref == n.ledger[i].ref && (i !in txs ==> b[i] == n.ledger[i]))
            && (forall i :: |n.ledger| <= i < |b| ==> b[i].ref.UndoOf? && b[i].ref.tx in txs)
    decreases |txs|
  {
    if txs != [] {
      var last := txs[|txs| - 1];
      UndoAllUnfolds(n, io, txs);
      UndoAddsUndo(n, io, last);
      hide Undo;
      hide UndoAll;
      assert txs == txs[..|txs| - 1] + [last];
      UndoAllAddsUndos(Undo(n, io, last).net, io, txs[..|txs| - 1]);
    }
  }

  lemma UndoAddsUndo(n: Net, io: Oracle, tx: nat)
    requires tx < |n.ledger|
    ensures var b := Undo(n, io, tx).net.ledger;
            && |n.ledger| <= |b|
            && (forall i :: 0 <= i < |n.ledger| ==> b[i].ref == n.ledger[i].ref && (i != tx ==> b[i] == n.ledger[i]))
            && (forall i :: |n.ledger| <= i < |b| ==> b[i].ref == UndoOf(tx))
  {
  }

  lemma {:induction false} RunFromCounts(f: Fleet, w: World, todo: seq<nat>, k: nat)
    requires k <= |todo| && (forall j :: 0 <= j < |todo| ==> todo[j] < |f.targets|) && AttemptsCounted(f)
    ensures AttemptsCounted(RunFrom(f, w, todo, k))
    decreases |todo| - k
  {
    if k < |todo| {
      hide AttemptsCounted;
      RunTargetCounts(f, w, todo[k]);
      RunFromCounts(RunTarget(f, w, todo[k]), w, todo, k + 1);
    }
  }

  lemma {:induction false} RollbackWaveKeepsCounted(f: Fleet, w: World, todo: seq<nat>)
    requires TxsKnown(f.targets, f.net.ledger) && (forall j :: 0 <= j < |todo| ==> todo[j] < |f.targets|)
    requires AttemptsCounted(f)
    ensures AttemptsCounted(RollbackWave(f, w, todo))
    decreases |todo|
  {
    if todo != [] {
      hide AttemptsCounted;
      RollbackTargetCounts(f, w, todo[|todo| - 1]);
      RollbackWaveKeepsCounted(RollbackTarget(f, w, todo[|todo| - 1]), w, todo[..|todo| - 1]);
    }
  }

  lemma CountedOnRows(f: Fleet, r: Fleet)
    requires AttemptsCounted(f) && r.net == f.net && r.c.id == f.c.id && |r.targets| == |f.targets|
    requires forall i :: 0 <= i < |f.targets| ==> r.targets[i].attempts >= f.targets[i].attempts
    ensures AttemptsCounted(r)
  {
    forall j | 0 <= j < |r.net.ledger| ensures CountedTx(r, r.net.ledger[j]) {
      assert CountedTx(f, f.net.ledger[j]);
    }
  }

  /** Every complete call keeps the attempts counted, a retry included: it never lowers a count, so
      the next run of the target comes under a source the ledger has not seen. */
  lemma NextKeepsCounted(f: Fleet, w: World, call: Call)
    requires Settled(f) && AttemptsCounted(f)
    ensures AttemptsCounted(Next(f, w, call))
  {
    hide *;
    SettledGives(f);
    if call.ExecuteNextWave? && call.approved && f.c.state == Active && NextWave(f.targets, 0).Some? {
      NextIsWave(f, w, call);
      WaveKeepsCounted(f, w, NextWave(f.targets, 0).value);
    } else {
      OtherCallsKeepRows(f, w, call);
      CountedOnRows(f, Next(f, w, call));
    }
  }

  lemma NextIsWave(f: Fleet, w: World, call: Call)
    requires TxsKnown(f.targets, f.net.ledger) && NoneRunning(f.targets)
    requires call.ExecuteNextWave? && call.approved && f.c.state == Active && NextWave(f.targets, 0).Some?
    ensures Next(f, w, call) == RunWave(f, w, NextWave(f.targets, 0).value)
  {
    assert RecoverInterrupted(f).targets == f.targets;
    hide RunWave;
    hide TxsKnown;
    hide RetryWave;
    hide NextWave;
  }

  lemma WaveKeepsCounted(f: Fleet, w: World, wave: nat)
    requires TxsKnown(f.targets, f.net.ledger) && AttemptsCounted(f)
    ensures AttemptsCounted(RunWave(f, w, wave))
  {
    hide *;
    var todo := PendingIn(f.targets, wave, 0);
    RunFromKeepsTxs(f, w, todo, 0);
    RunFromCounts(f, w, todo, 0);
    RollbackWaveKeepsCounted(RunFrom(f, w, todo, 0), w, todo);
    RunWaveCounts(f, w, wave);
  }

  lemma RunWaveCounts(f: Fleet, w: World, wave: nat)
    requires TxsKnown(f.targets, f.net.ledger)
    requires var todo := PendingIn(f.targets, wave, 0);
             var ran := RunFrom(f, w, todo, 0);
             AttemptsCounted(ran) && TxsKnown(ran.targets, ran.net.ledger)
             && AttemptsCounted(RollbackWave(ran, w, todo))
    ensures AttemptsCounted(RunWave(f, w, wave))
  {
    var todo := PendingIn(f.targets, wave, 0);
    var ran, r := RunFrom(f, w, todo, 0), RunWave(f, w, wave);
    var rolled := RollbackWave(ran, w, todo);
    hide RunFrom;
    hide RollbackWave;
    hide PendingIn;
    hide FailedAmong;
    hide TxsKnown;
    hide AttemptsCounted;
    if r.net == ran.net && r.targets == ran.targets {
      CountedOnRows(ran, r);
    } else {
      CountedOnRows(rolled, r);
    }
  }

  lemma OtherCallsKeepRows(f: Fleet, w: World, call: Call)
    requires TxsKnown(f.targets, f.net.ledger) && NoneRunning(f.targets)
    requires !(call.ExecuteNextWave? && call.approved && f.c.state == Active && NextWave(f.targets, 0).Some?)
    ensures var r := Next(f, w, call);
            && r.net == f.net && r.c.id == f.c.id && |r.targets| == |f.targets|
            && forall i :: 0 <= i < |f.targets| ==> r.targets[i].attempts == f.targets[i].attempts
  {
    assert RecoverInterrupted(f).targets == f.targets;
    hide RunWave;
    hide TxsKnown;
    hide RetryWave;
  }

  // ---- A failed wave leaves no trace ----

  /** The transactions of the targets of `todo[..k]` that have succeeded, target by target. */
  function Segments(ts: seq<Target>, todo: seq<nat>, k: nat): seq<seq<nat>>
    requires k <= |todo| && forall j :: 0 <= j < |todo| ==> todo[j] < |ts|
  {
    if k == 0 then []
    else Segments(ts, todo, k - 1) + if ts[todo[k - 1]].state == Succeeded then [ts[todo[k - 1]].txs] else []
  }

  /** A stretch of the ledger that can be undone as a whole. */
  ghost predicate Segment(s0: Store, ledger: seq<Tx>, txs: seq<nat>, s1: Store) {
    && Chain(s0, ledger, txs, s1) && Increasing(txs) && NeverUndone(ledger, txs)
    && forall k :: 0 <= k < |txs| ==> txs[k] < |ledger|
  }

  /** The segments lead from one configuration to another, one behind the other; `bound` is above
      all their transactions. */
  ghost predicate Stacked(s0: Store, ledger: seq<Tx>, segs: seq<seq<nat>>, s1: Store, bound: nat)
    decreases |segs|
  {
    if segs == [] then s0 == s1
    else
      exists s, low: nat {:trigger Segment(s, ledger, segs[|segs| - 1], s1), Within(segs[|segs| - 1], low, bound)} ::
        && low <= bound && Stacked(s0, ledger, segs[..|segs| - 1], s, low)
        && Segment(s, ledger, segs[|segs| - 1], s1)
        && Within(segs[|segs| - 1], low, bound)
  }

  predicate Within(txs: seq<nat>, low: nat, bound: nat) {
    forall tx :: tx in txs ==> low <= tx < bound
  }

  /** A ledger that agrees below the bound, and whose rollbacks concern transactions at or above it,
      carries the same stack. */
  predicate SameBelow(a: seq<Tx>, b: seq<Tx>, bound: nat) {
    && |a| <= |b| && (forall i :: 0 <= i < |a| && i < bound ==> b[i] == a[i])
    && (forall i :: 0 <= i < |a| ==> b[i].ref == a[i].ref)
    && (forall i :: |a| <= i < |b| && b[i].ref.UndoOf? ==> b[i].ref.tx >= bound)
  }

  lemma SegmentCarries(s0: Store, a: seq<Tx>, b: seq<Tx>, txs: seq<nat>, s1: Store, bound: nat)
    requires Segment(s0, a, txs, s1) && SameBelow(a, b, bound) && Within(txs, 0, bound)
    ensures Segment(s0, b, txs, s1)
  {
    assert forall k :: 0 <= k < |txs| ==> txs[k] in txs;
    ChainOnly(s0, a, b, txs, s1);
    forall i, k | 0 <= i < |b| && 0 <= k < |txs| ensures b[i].ref != UndoOf(txs[k]) {
      assert txs[k] in txs;
    }
  }

  lemma {:induction false} StackCarries(s0: Store, a: seq<Tx>, b: seq<Tx>, segs: seq<seq<nat>>, s1: Store, bound: nat)
    requires Stacked(s0, a, segs, s1, bound) && SameBelow(a, b, bound)
    ensures Stacked(s0, b, segs, s1, bound)
    decreases |segs|
  {
    if segs != [] {
      hide Segment;
      var last := segs[|segs| - 1];
      var s, low: nat :| low <= bound && Stacked(s0, a, segs[..|segs| - 1], s, low)
        && Segment(s, a, last, s1) && Within(last, low, bound);
      assert SameBelow(a, b, low) && Within(last, 0, bound);
      StackCarries(s0, a, b, segs[..|segs| - 1], s, low);
      SegmentCarries(s, a, b, last, s1, bound);
    }
  }

  lemma StackPush(s0: Store, ledger: seq<Tx>, segs: seq<seq<nat>>, s: Store, low: nat, txs: seq<nat>, s1: Store,
                  bound: nat)
    requires Stacked(s0, ledger, segs, s, low) && low <= bound && Segment(s, ledger, txs, s1)
    requires Within(txs, low, bound)
    ensures Stacked(s0, ledger, segs + [txs], s1, bound)
  {
    var all := segs + [txs];
    assert all[..|all| - 1] == segs;
    assert Segment(s, ledger, all[|all| - 1], s1) && Within(all[|all| - 1], low, bound);
  }

  lemma {:induction false} StackRaise(s0: Store, ledger: seq<Tx>, segs: seq<seq<nat>>, s1: Store, low: nat, bound: nat)
    requires Stacked(s0, ledger, segs, s1, low) && low <= bound
    ensures Stacked(s0, ledger, segs, s1, bound)
  {
    if segs != [] {
      hide Segment;
      var last := segs[|segs| - 1];
      var s, l: nat :| l <= low && Stacked(s0, ledger, segs[..|segs| - 1], s, l)
        && Segment(s, ledger, last, s1) && Within(last, l, low);
      assert Within(last, l, bound);
    }
  }

  /** A target that succeeds adds its transactions on top; one that fails and is compensated adds
      nothing and leaves the configuration as it was. */
  lemma TargetStacks(f: Fleet, w: World, i: nat, segs: seq<seq<nat>>, s0: Store)
    requires AttemptsCounted(f) && i < |f.targets|
    requires Stacked(s0, f.net.ledger, segs, f.net.store, |f.net.ledger|)
    requires CleanFailure(f, w, i)
    ensures var r := RunTarget(f, w, i);
            Stacked(s0, r.net.ledger, segs + if r.targets[i].state == Succeeded then [r.targets[i].txs] else [],
                    r.net.store, |r.net.ledger|)
  {
    var n, source, ops := f.net, SourceOf(f, i), w.plan(i);
    var r := RunTarget(f, w, i);
    assert segs + [] == segs;
    if w.admits(source) {
      var a := Apply(n, w.io, source, ops);
      NextAttemptIsFresh(f, i);
      UnderwayAtStart(n, source);
      ApplyRestores(n, w.io, source, ops, 0, [], n.store);
      ApplyStaysAbove(n, w.io, source, ops, 0, []);
      hide *;
      StackCarries(s0, n.ledger, a.net.ledger, segs, n.store, |n.ledger|);
      StackRaise(s0, a.net.ledger, segs, n.store, |n.ledger|, |a.net.ledger|);
      if a.ok {
        UnderwayIsSegment(a.net, source, |ops|, a.changed, n.store);
        StackPush(s0, a.net.ledger, segs, n.store, |n.ledger|, a.changed, a.net.store, |a.net.ledger|);
      }
      RunTargetIs(f, w, i);
    } else {
      RunTargetIs(f, w, i);
    }
  }

  /** A failure of target `i` would be fully compensated on its own device, and none of its writes
      would leave a resource garbled. */
  predicate CleanFailure(f: Fleet, w: World, i: nat)
    requires i < |f.targets|
  {
    var a := Apply(f.net, w.io, SourceOf(f, i), w.plan(i));
    w.admits(SourceOf(f, i)) && !a.ok ==> a.compensated && NeverMangles(w.io, |f.net.ledger|, |a.net.ledger|)
  }

  lemma RunTargetIs(f: Fleet, w: World, i: nat)
    requires i < |f.targets|
    ensures var r, source := RunTarget(f, w, i), SourceOf(f, i);
            if w.admits(source) then
              var a := Apply(f.net, w.io, source, w.plan(i));
              r.net == a.net && r.targets[i].state == (if a.ok then Succeeded else Failed)
                && r.targets[i].txs == a.changed
            else r.net == f.net && r.targets[i].state == Failed
  {
  }

  lemma UnderwayIsSegment(n: Net, source: Source, k: nat, changed: seq<nat>, s0: Store)
    requires Underway(n, source, k, changed, s0)
    ensures Segment(s0, n.ledger, changed, n.store)
  {
  }

  /** A run touches no transaction that was in the ledger before it. */
  lemma {:induction false} ApplyStaysAbove(n: Net, io: Oracle, source: Source, ops: seq<Op>, k: nat, changed: seq<nat>)
    requires k <= |ops| && FreshFrom(n.ledger, source, k) && Sane(n.ledger)
    requires forall j :: 0 <= j < |changed| ==> changed[j] < |n.ledger|
    ensures var a := ApplyFrom(n, io, source, ops, k, changed);
            && (forall low: nat :: low <= |n.ledger| && Within(changed, low, |n.ledger|) ==>
                  SameBelow(n.ledger, a.net.ledger, low) && Within(a.changed, low, |a.net.ledger|))
    decreases |ops| - k
  {
    hide *;
    if k == |ops| {
      ApplyEnds(n, io, source, ops, changed);
      assert forall low: nat :: SameBelow(n.ledger, n.ledger, low) by { SameBelowSelf(n.ledger); }
    } else {
      ApplyUnfolds(n, io, source, ops, k, changed);
      ExecuteFresh(n, io, source, k, ops[k]);
      var r := Execute(n, io, OpOf(source, k + 1), ops[k]);
      var a := ApplyFrom(n, io, source, ops, k, changed);
      if r.tx.Some? {
        ApplyStaysAbove(r.net, io, source, ops, k + 1, Extended(r, changed));
      }
      forall low: nat | low <= |n.ledger| && Within(changed, low, |n.ledger|)
        ensures SameBelow(n.ledger, a.net.ledger, low) && Within(a.changed, low, |a.net.ledger|)
      {
        SameBelowOneMore(n.ledger, r.net.ledger, low);
        if r.tx.Some? {
          WithinExtended(r, changed, low, |n.ledger|);
        } else {
          UndoAllAddsUndos(r.net, io, changed);
          SameBelowUndone(r.net.ledger, a.net.ledger, changed, low, |n.ledger|);
        }
        SameBelowTrans(n.ledger, r.net.ledger, a.net.ledger, low);
      }
    }
  }

  lemma SameBelowSelf(a: seq<Tx>)
    ensures forall low: nat :: SameBelow(a, a, low)
  {
  }

  lemma SameBelowOneMore(a: seq<Tx>, b: seq<Tx>, low: nat)
    requires a <= b && |b| == |a| + 1 && b[|a|].ref.OpOf?
    ensures SameBelow(a, b, low)
  {
  }

  lemma SameBelowUndone(a: seq<Tx>, b: seq<Tx>, txs: seq<nat>, low: nat, high: nat)
    requires |a| <= |b| && Within(txs, low, high) && high <= |a|
    requires forall i :: 0 <= i < |a| ==> b[i].ref == a[i].ref && (i !in txs ==> b[i] == a[i])
    requires forall i :: |a| <= i < |b| ==> b[i].ref.UndoOf? && b[i].ref.tx in txs
    ensures SameBelow(a, b, low) && Within(txs, low, |b|)
  {
  }

  lemma SameBelowTrans(a: seq<Tx>, b: seq<Tx>, c: seq<Tx>, low: nat)
    requires SameBelow(a, b, low) && SameBelow(b, c, low)
    ensures SameBelow(a, c, low)
  {
  }

  lemma WithinExtended(r: Ran, changed: seq<nat>, low: nat, high: nat)
    requires r.tx == Some(high) && |r.net.ledger| == high + 1 && low <= high && Within(changed, low, high)
    ensures Within(Extended(r, changed), low, |r.net.ledger|)
  {
  }

  /** Every run of the wave that fails is compensated on its own device. */
  predicate CleanFailures(f: Fleet, w: World, todo: seq<nat>, k: nat)
    requires k <= |todo| && forall j :: 0 <= j < |todo| ==> todo[j] < |f.targets|
    decreases |todo| - k
  {
    k == |todo| || (CleanFailure(f, w, todo[k]) && CleanFailures(RunTarget(f, w, todo[k]), w, todo, k + 1))
  }

  lemma {:induction false} SegmentsOnly(ts: seq<Target>, rs: seq<Target>, todo: seq<nat>, k: nat)
    requires k <= |todo| && |rs| == |ts| && forall j :: 0 <= j < |todo| ==> todo[j] < |ts|
    requires forall j :: 0 <= j < k ==> rs[todo[j]] == ts[todo[j]]
    ensures Segments(rs, todo, k) == Segments(ts, todo, k)
  {
    if k > 0 {
      SegmentsOnly(ts, rs, todo, k - 1);
    }
  }

  /** After any part of the wave, the configuration is the one before the wave plus the transactions
      of the targets that have succeeded. */
  lemma {:induction false} WaveStacks(f: Fleet, w: World, todo: seq<nat>, k: nat, s0: Store)
    requires k <= |todo| && forall j :: 0 <= j < |todo| ==> todo[j] < |f.targets|
    requires forall i, j :: 0 <= i < j < |todo| ==> todo[i] < todo[j]
    requires AttemptsCounted(f) && CleanFailures(f, w, todo, k)
    requires Stacked(s0, f.net.ledger, Segments(f.targets, todo, k), f.net.store, |f.net.ledger|)
    ensures var r := RunFrom(f, w, todo, k);
            && AttemptsCounted(r)
            && Stacked(s0, r.net.ledger, Segments(r.targets, todo, |todo|), r.net.store, |r.net.ledger|)
    decreases |todo| - k
  {
    hide *;
    WaveUnfolds(f, w, todo, k);
    if k < |todo| {
      var g := RunTarget(f, w, todo[k]);
      RunTargetCounts(f, w, todo[k]);
      TargetStacks(f, w, todo[k], Segments(f.targets, todo, k), s0);
      WaveStacks(g, w, todo, k + 1, s0);
    }
  }

  lemma WaveUnfolds(f: Fleet, w: World, todo: seq<nat>, k: nat)
    requires k <= |todo| && forall j :: 0 <= j < |todo| ==> todo[j] < |f.targets|
    requires forall i, j :: 0 <= i < j < |todo| ==> todo[i] < todo[j]
    ensures k == |todo| ==> RunFrom(f, w, todo, k) == f
    ensures k < |todo| ==>
              var g := RunTarget(f, w, todo[k]);
              && RunFrom(f, w, todo, k) == RunFrom(g, w, todo, k + 1)
              && (CleanFailures(f, w, todo, k) <==> CleanFailure(f, w, todo[k]) && CleanFailures(g, w, todo, k + 1))
              && Segments(g.targets, todo, k + 1) ==
                 Segments(f.targets, todo, k) + if g.targets[todo[k]].state == Succeeded then [g.targets[todo[k]].txs]
                   else []
  {
    if k < |todo| {
      var g := RunTarget(f, w, todo[k]);
      RunTargetEffects(f, w, todo[k]);
      hide RunTarget;
      hide FailedOutcomes;
      SegmentsOnly(f.targets, g.targets, todo, k);
    }
  }

  lemma UndoneTargetUnstacks(f: Fleet, w: World, i: nat, segs: seq<seq<nat>>, s0: Store)
    requires i < |f.targets| && TxsKnown(f.targets, f.net.ledger) && f.targets[i].state == Succeeded
    requires Stacked(s0, f.net.ledger, segs + [f.targets[i].txs], f.net.store, |f.net.ledger|)
    requires RollbackTarget(f, w, i).targets[i].state == RolledBack
    ensures var r := RollbackTarget(f, w, i);
            Stacked(s0, r.net.ledger, segs, r.net.store, |r.net.ledger|)
  {
    var n, txs, ledger := f.net, f.targets[i].txs, f.net.ledger;
    var all := segs + [txs];
    assert all[..|all| - 1] == segs && all[|all| - 1] == txs;
    var s, low: nat :| low <= |ledger| && Stacked(s0, ledger, segs, s, low)
      && Segment(s, ledger, txs, n.store) && Within(txs, low, |ledger|);
    UndoAllRestores(n, w.io, txs, s);
    UndoAllAddsUndos(n, w.io, txs);
    hide UndoAll;
    hide Segment;
    hide Stacked;
    var u := UndoAll(n, w.io, txs);
    SameBelowUndone(ledger, u.net.ledger, txs, low, |ledger|);
    StackCarries(s0, ledger, u.net.ledger, segs, s, low);
    StackRaise(s0, u.net.ledger, segs, s, low, |u.net.ledger|);
  }

  /** Compensating the wave, last target first, undoes its stack. */
  lemma {:induction false} RollbackUnstacks(f: Fleet, w: World, todo: seq<nat>, s0: Store)
    requires TxsKnown(f.targets, f.net.ledger) && forall j :: 0 <= j < |todo| ==> todo[j] < |f.targets|
    requires forall i, j :: 0 <= i < j < |todo| ==> todo[i] < todo[j]
    requires Stacked(s0, f.net.ledger, Segments(f.targets, todo, |todo|), f.net.store, |f.net.ledger|)
    requires forall j :: 0 <= j < |todo| ==> RollbackWave(f, w, todo).targets[todo[j]].state != RollbackFailed
    ensures RollbackWave(f, w, todo).net.store == s0
    decreases |todo|
  {
    if todo == [] {
      assert Segments(f.targets, todo, |todo|) == [];
    } else {
      hide *;
      var last, front := todo[|todo| - 1], todo[..|todo| - 1];
      var g := RollbackTarget(f, w, last);
      var segs := Segments(f.targets, todo, |todo| - 1);
      RollbackUnfolds(f, w, todo);
      RollbackTargetEffects(f, w, last);
      if f.targets[last].state == Succeeded {
        UndoneTargetUnstacks(f, w, last, segs, s0);
      } else {
        assert segs + [] == segs;
      }
      RollbackUnstacks(g, w, front, s0);
    }
  }

  lemma RollbackUnfolds(f: Fleet, w: World, todo: seq<nat>)
    requires todo != []
    requires TxsKnown(f.targets, f.net.ledger) && forall j :: 0 <= j < |todo| ==> todo[j] < |f.targets|
    requires forall i, j :: 0 <= i < j < |todo| ==> todo[i] < todo[j]
    ensures var last, front := todo[|todo| - 1], todo[..|todo| - 1];
            var g := RollbackTarget(f, w, last);
            && RollbackWave(f, w, todo) == RollbackWave(g, w, front)
            && RollbackWave(f, w, todo).targets[last].state == g.targets[last].state
            && Segments(g.targets, front, |front|) == Segments(f.targets, todo, |todo| - 1)
            && Segments(f.targets, todo, |todo|) ==
               Segments(f.targets, todo, |todo| - 1) +
                 (if f.targets[last].state == Succeeded then [f.targets[last].txs] else [])
            && (forall j :: 0 <= j < |front| ==> front[j] == todo[j])
  {
    var last, front := todo[|todo| - 1], todo[..|todo| - 1];
    var g := RollbackTarget(f, w, last);
    RollbackTargetEffects(f, w, last);
    hide RollbackTarget;
    hide TxsKnown;
    RollbackWaveEffects(g, w, front);
    SegmentsFront(f.targets, todo, |todo| - 1);
    assert last !in front;
    SegmentsOnly(f.targets, g.targets, front, |front|);
  }

  lemma RollbackTargetEffects(f: Fleet, w: World, i: nat)
    requires i < |f.targets| && TxsKnown(f.targets, f.net.ledger)
    ensures var r := RollbackTarget(f, w, i);
            && (forall j :: 0 <= j < |f.targets| && j != i ==> r.targets[j] == f.targets[j])
            && (f.targets[i].state != Succeeded ==> r == f)
            && (f.targets[i].state == Succeeded ==> r.targets[i].state in {RolledBack, RollbackFailed})
  {
  }

  lemma {:induction false} SegmentsFront(ts: seq<Target>, todo: seq<nat>, k: nat)
    requires k < |todo| && forall j :: 0 <= j < |todo| ==> todo[j] < |ts|
    ensures Segments(ts, todo[..|todo| - 1], k) == Segments(ts, todo, k)
  {
    if k > 0 {
      SegmentsFront(ts, todo, k - 1);
    }
  }

  /** The saga: an over-threshold wave of a campaign with rollback leaves the configuration of all
      its devices as it was before the wave, whenever every compensation it called for succeeded,
      those of the failed runs on their devices and those of the targets that had succeeded. */
  lemma FailedWaveIsUndone(f: Fleet, w: World, wave: nat)
    requires Settled(f) && AttemptsCounted(f) && f.c.state == Active && f.c.rollbackOnFailure
    requires NextWave(f.targets, 0) == Some(wave)
    requires CleanFailures(f, w, PendingIn(f.targets, wave, 0), 0)
    requires RunWave(f, w, wave).c.state == Paused
    requires forall i :: 0 <= i < |f.targets| ==> RunWave(f, w, wave).targets[i].state != RollbackFailed
    ensures RunWave(f, w, wave).net.store == f.net.store
  {
    var todo := PendingIn(f.targets, wave, 0);
    var ran := RunFrom(f, w, todo, 0);
    assert TxsKnown(f.targets, f.net.ledger);
    RunFromKeepsTxs(f, w, todo, 0);
    assert Stacked(f.net.store, f.net.ledger, Segments(f.targets, todo, 0), f.net.store, |f.net.ledger|);
    WaveStacks(f, w, todo, 0, f.net.store);
    PausedWaveIsRolledBack(f, w, wave);
    hide *;
    RollbackUnstacks(ran, w, todo, f.net.store);
  }

  lemma PausedWaveIsRolledBack(f: Fleet, w: World, wave: nat)
    requires TxsKnown(f.targets, f.net.ledger) && f.c.rollbackOnFailure && RunWave(f, w, wave).c.state == Paused
    ensures var todo := PendingIn(f.targets, wave, 0);
            var ran := RunFrom(f, w, todo, 0);
            && TxsKnown(ran.targets, ran.net.ledger)
            && RunWave(f, w, wave).targets == RollbackWave(ran, w, todo).targets
            && RunWave(f, w, wave).net == RollbackWave(ran, w, todo).net
  {
    RunFromKeepsTxs(f, w, PendingIn(f.targets, wave, 0), 0);
    hide RunFrom;
    hide RollbackWave;
    hide PendingIn;
  }
}
