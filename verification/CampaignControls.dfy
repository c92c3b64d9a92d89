/** What each call of a campaign achieves, told by the rows before and after it: the operator's
    calls (start, pause, resume, retry, abort), and one wave. */
module CampaignControls {
  import opened Common
  import opened Saga
  import opened Campaigns

  /** Nothing was sent and nothing run. */
  predicate SentNothing(f: Fleet, g: Fleet) {
    g.net == f.net && g.log == f.log
  }

  /** A target that an abort takes out, and any other. */
  predicate AbortedFrom(t: Target, u: Target) {
    && u.wave == t.wave && u.attempts == t.attempts && u.txs == t.txs
    && (t.state == Pending || t.state == Running ==> u.state == Skipped)
    && (t.state != Pending && t.state != Running ==> u.state == t.state)
  }

  // ---- The end of a campaign ----

  /** A call changes nothing once the campaign is over and no target is running. */
  lemma OverMeansOver(f: Fleet, w: World, call: Call)
    requires Settled(f) && f.c.state in {Aborted, Done}
    ensures Next(f, w, call) == f
  {
    hide TxsKnown;
    hide Unmixed;
    hide Tolerable;
    hide FailedOutcomes;
    hide RunWave;
    hide RetryWave;
    hide NextWave;
    if call.ExecuteNextWave? {
      assert RecoverInterrupted(f).targets == f.targets;
    }
  }

  lemma {:induction false} EndIsFinal(f: Fleet, w: World, calls: seq<Call>)
    requires Settled(f) && f.c.state in {Aborted, Done}
    ensures Run(f, w, calls) == f
    decreases |calls|
  {
    if calls != [] {
      hide Settled;
      hide Next;
      OverMeansOver(f, w, calls[0]);
      EndIsFinal(f, w, calls[1..]);
    }
  }

  lemma AbortEffects(f: Fleet, w: World)
    requires TxsKnown(f.targets, f.net.ledger) && f.c.state in {Draft, Active, Paused}
    ensures var g := Next(f, w, Abort);
            && g.c == f.c.(state := Aborted) && SentNothing(f, g) && |g.targets| == |f.targets|
            && forall i :: 0 <= i < |f.targets| ==> AbortedFrom(f.targets[i], g.targets[i])
  {
    hide TxsKnown;
  }

  /** An accepted abort is for good: the campaign is aborted, no target waits or runs, the others keep
      their state, and whatever calls follow, nothing changes and nothing is sent any more. */
  lemma AbortIsFinal(f: Fleet, w: World, calls: seq<Call>)
    requires Settled(f) && f.c.state in {Draft, Active, Paused}
    ensures var g := Next(f, w, Abort);
            && g.c == f.c.(state := Aborted) && SentNothing(f, g) && |g.targets| == |f.targets|
            && (forall i :: 0 <= i < |f.targets| ==> AbortedFrom(f.targets[i], g.targets[i]))
            && (forall i :: 0 <= i < |g.targets| ==> g.targets[i].state != Pending && g.targets[i].state != Running)
            && Settled(g) && Run(g, w, calls) == g
  {
    hide *;
    SettledGives(f);
    AbortEffects(f, w);
    var g := Next(f, w, Abort);
    forall i | 0 <= i < |g.targets| ensures g.targets[i].state != Pending && g.targets[i].state != Running {
      AbortedStands(f.targets[i], g.targets[i]);
    }
    NextKeepsSettled(f, w, Abort);
    EndIsFinal(g, w, calls);
  }

  lemma AbortedStands(t: Target, u: Target)
    requires AbortedFrom(t, u)
    ensures u.state != Pending && u.state != Running
  {
  }

  /** A campaign that is over is not aborted again. */
  lemma AbortRefused(f: Fleet, w: World)
    requires TxsKnown(f.targets, f.net.ledger)
    ensures f.c.state == Done ==> Next(f, w, Abort) == f
    ensures Next(f, w, Abort).c.state == Aborted <==> f.c.state != Done
  {
    hide TxsKnown;
  }

  /** Recovery puts back what a dead process left running, its attempt uncounted, and nothing else. */
  lemma RecoverEffects(f: Fleet, i: nat)
    requires i < |f.targets|
    ensures var g := RecoverInterrupted(f);
            && g.c == f.c && SentNothing(f, g) && |g.targets| == |f.targets|
            && (f.targets[i].state != Running ==> g.targets[i] == f.targets[i])
            && (f.targets[i].state == Running ==>
                  && g.targets[i].state == Pending && g.targets[i].wave == f.targets[i].wave
                  && g.targets[i].txs == f.targets[i].txs
                  && (f.targets[i].attempts > 0 ==> g.targets[i].attempts + 1 == f.targets[i].attempts)
                  && (f.targets[i].attempts == 0 ==> g.targets[i].attempts == 0))
  {
  }

  // ---- Start, pause, resume ----

  lemma StartEffects(f: Fleet, w: World)
    requires TxsKnown(f.targets, f.net.ledger)
    ensures var g := Next(f, w, Start);
            && SentNothing(f, g) && g.targets == f.targets && (f.c.state != Draft ==> g == f)
            && (f.c.state == Draft ==>
                  g.c.state == Active && g.c.failureCount == 0 && g.c.currentWave == 0
                  && g.c.id == f.c.id && g.c.maxFailures == f.c.maxFailures
                  && g.c.rollbackOnFailure == f.c.rollbackOnFailure)
  {
    hide TxsKnown;
  }

  /** Pausing a running campaign and resuming it gives it back exactly when no target is unresolved;
      otherwise it stays paused. Nothing else can be paused or resumed. */
  lemma PauseThenResume(f: Fleet, w: World)
    requires TxsKnown(f.targets, f.net.ledger)
    ensures Next(f, w, Pause) == if f.c.state == Active then f.(c := f.c.(state := Paused)) else f
    ensures TxsKnown(Next(f, w, Pause).targets, Next(f, w, Pause).net.ledger)
    ensures f.c.state == Active ==>
              (Next(Next(f, w, Pause), w, Resume) == f
               <==> forall i :: 0 <= i < |f.targets| ==> f.targets[i].state !in {Failed, RolledBack, RollbackFailed})
    ensures Next(f, w, Resume) == f || (f.c.state == Paused && Next(f, w, Resume) == f.(c := f.c.(state := Active)))
    ensures f.c.state == Paused ==>
              (Next(f, w, Resume).c.state == Active
               <==> forall i :: 0 <= i < |f.targets| ==> f.targets[i].state !in {Failed, RolledBack, RollbackFailed})
  {
    hide TxsKnown;
  }

  /** A paused or aborted campaign runs nothing until it is resumed. */
  lemma PausedStep(f: Fleet, w: World, call: Call)
    requires Settled(f) && f.c.state in {Paused, Aborted} && !call.Resume?
    ensures var g := Next(f, w, call); g.c.state in {Paused, Aborted} && SentNothing(f, g)
  {
    hide TxsKnown;
    hide Unmixed;
    hide Tolerable;
    hide FailedOutcomes;
    hide RunWave;
    hide RetryWave;
    hide NextWave;
    if call.ExecuteNextWave? {
      assert RecoverInterrupted(f).targets == f.targets;
    }
  }

  lemma {:induction false} PauseHolds(f: Fleet, w: World, calls: seq<Call>)
    requires Settled(f) && f.c.state in {Paused, Aborted}
    requires forall k :: 0 <= k < |calls| ==> !calls[k].Resume?
    ensures Run(f, w, calls).c.state in {Paused, Aborted} && SentNothing(f, Run(f, w, calls))
    decreases |calls|
  {
    if calls != [] {
      hide Settled;
      hide Next;
      PausedStep(f, w, calls[0]);
      NextKeepsSettled(f, w, calls[0]);
      PauseHolds(Next(f, w, calls[0]), w, calls[1..]);
    }
  }

  // ---- Retry ----

  /** `v` is the wave that a retry takes: the one named, or the only one with unresolved targets. */
  ghost predicate Retries(ts: seq<Target>, wave: Option<int>, v: nat) {
    && (exists i :: 0 <= i < |ts| && ts[i].wave == v && ts[i].state in {Failed, RolledBack, RollbackFailed})
    && (if wave.Some? then wave.value == v >= 1
        else forall i :: 0 <= i < |ts| && ts[i].state in {Failed, RolledBack, RollbackFailed} ==> ts[i].wave == v)
  }

  /** A target whose failure, or whose clean compensation, a retry forgets. */
  predicate RetriedFrom(t: Target, u: Target, v: nat) {
    if t.wave == v && (t.state == Failed || t.state == RolledBack) then u == Target(v, Pending, t.attempts, [])
    else u == t
  }

  lemma RetryWaveIs(f: Fleet, wave: Option<int>, v: nat)
    requires Retries(f.targets, wave, v)
    ensures RetryWave(f, wave) == Some(v)
  {
  }

  lemma RetryWaveMeans(f: Fleet, wave: Option<int>)
    requires RetryWave(f, wave).Some?
    requires exists i :: 0 <= i < |f.targets| && f.targets[i].wave == RetryWave(f, wave).value
                         && Unresolved(f.targets[i])
    ensures Retries(f.targets, wave, RetryWave(f, wave).value)
  {
  }

  /** A retry of a paused campaign puts the failed and the cleanly compensated targets of its wave back
      to pending, unless a compensation has failed in that wave. */
  lemma RetryEffects(f: Fleet, w: World, wave: Option<int>, v: nat)
    requires TxsKnown(f.targets, f.net.ledger) && f.c.state == Paused && Retries(f.targets, wave, v)
    requires forall i :: 0 <= i < |f.targets| && f.targets[i].wave == v ==> f.targets[i].state != RollbackFailed
    ensures Retryable(f, wave)
    ensures var g := Next(f, w, Retry(wave));
            && g.c == f.c && SentNothing(f, g) && |g.targets| == |f.targets|
            && forall i :: 0 <= i < |f.targets| ==> RetriedFrom(f.targets[i], g.targets[i], v)
  {
    hide TxsKnown;
    RetryWaveIs(f, wave, v);
    hide RetryWave;
    var i :| 0 <= i < |f.targets| && f.targets[i].wave == v
             && f.targets[i].state in {Failed, RolledBack, RollbackFailed};
    assert Unresolved(f.targets[i]);
  }

  lemma RetryRefused(f: Fleet, w: World, wave: Option<int>)
    requires TxsKnown(f.targets, f.net.ledger)
    requires f.c.state == Paused ==>
               forall v: nat | Retries(f.targets, wave, v) ::
                 exists i :: 0 <= i < |f.targets| && f.targets[i].wave == v && f.targets[i].state == RollbackFailed
    ensures !Retryable(f, wave) && Next(f, w, Retry(wave)) == f
  {
    hide TxsKnown;
    if Retryable(f, wave) {
      RetryWaveMeans(f, wave);
      assert false;
    }
    hide RetryWave;
  }

  // ---- One wave ----

  /** The lowest wave with a target still to run. */
  ghost predicate IsNextWave(ts: seq<Target>, v: nat) {
    && (exists i :: 0 <= i < |ts| && ts[i].state == Pending && ts[i].wave == v)
    && forall i :: 0 <= i < |ts| && ts[i].state == Pending ==> v <= ts[i].wave
  }

  /** What an approved call makes of one target when `v` is the next wave and the campaign ends up
      `undone`, that is paused with compensation, or not. */
  predicate RanFrom(t: Target, u: Target, v: nat, undone: bool) {
    if t.wave == v && t.state == Pending then
      && u.wave == v && u.attempts == t.attempts + 1
      && (u.state == Failed || if undone then u.state == RolledBack || u.state == RollbackFailed
                               else u.state == Succeeded)
    else u == t
  }

  lemma NextWaveIs(ts: seq<Target>, v: nat)
    requires IsNextWave(ts, v)
    ensures NextWave(ts, 0) == Some(v)
  {
  }

  lemma NextWaveNone(ts: seq<Target>)
    ensures NextWave(ts, 0).None? <==> forall i :: 0 <= i < |ts| ==> ts[i].state != Pending
  {
  }

  lemma ExecuteIsRunWave(f: Fleet, w: World, v: nat)
    requires Settled(f) && f.c.state == Active && IsNextWave(f.targets, v)
    ensures TxsKnown(f.targets, f.net.ledger) && NextWave(f.targets, 0) == Some(v)
    ensures Next(f, w, ExecuteNextWave(true)) == RunWave(f, w, v)
  {
    NextWaveIs(f.targets, v);
    assert RecoverInterrupted(f).targets == f.targets;
    hide TxsKnown;
    hide Unmixed;
    hide Tolerable;
    hide FailedOutcomes;
    hide RunWave;
    hide NextWave;
  }

  lemma RunWaveRow(f: Fleet, w: World, v: nat)
    requires TxsKnown(f.targets, f.net.ledger)
    ensures RunWave(f, w, v).c ==
            f.c.(state := RunWave(f, w, v).c.state, currentWave := v, failureCount := RunWave(f, w, v).c.failureCount)
  {
    RunFromKeepsTxs(f, w, PendingIn(f.targets, v, 0), 0);
    hide RunFrom;
    hide RollbackWave;
    hide FailedAmong;
    hide TxsKnown;
    hide NextWave;
  }

  /** Compensation does not touch the failures. */
  lemma FailuresStay(rs: seq<Target>, ss: seq<Target>, todo: seq<nat>, v: nat)
    requires Compensated(rs, ss, todo)
    ensures FailedIn(ss, v) == FailedIn(rs, v)
  {
  }

  lemma RanTargets(ts: seq<Target>, rs: seq<Target>, ss: seq<Target>, todo: seq<nat>, v: nat, undone: bool)
    requires WaveRan(ts, rs, todo, v) && (if undone then Compensated(rs, ss, todo) else ss == rs)
    requires forall i :: 0 <= i < |ts| && ts[i].state == Pending && ts[i].wave == v ==> i in todo
    ensures |ss| == |ts| && forall i :: 0 <= i < |ts| ==> RanFrom(ts[i], ss[i], v, undone)
  {
    forall i | 0 <= i < |ts| ensures RanFrom(ts[i], ss[i], v, undone) {
      assert i in todo || i !in todo;
    }
  }

  /** An approved call on a running campaign runs exactly its next wave, every pending target of it once.
      The campaign is paused exactly when more targets of the wave failed than it tolerates, and then,
      if so configured, the targets that had succeeded in this call are compensated; otherwise it has
      succeeded exactly when nothing is left to run. */
  lemma ExecuteEffects(f: Fleet, w: World, v: nat)
    requires Settled(f) && f.c.state == Active && IsNextWave(f.targets, v)
    ensures var g := Next(f, w, ExecuteNextWave(true));
            var failed := |FailedIn(g.targets, v)|;
            && g.c == f.c.(state := g.c.state, currentWave := v, failureCount := f.c.failureCount + failed)
            && |g.targets| == |f.targets|
            && (forall i :: 0 <= i < |f.targets| ==>
                  RanFrom(f.targets[i], g.targets[i], v, failed > f.c.maxFailures && f.c.rollbackOnFailure))
            && (failed > f.c.maxFailures ==> g.c.state == Paused)
            && (failed <= f.c.maxFailures ==>
                  g.c.state == if exists i :: 0 <= i < |g.targets| && g.targets[i].state == Pending then Active
                               else Done)
  {
    hide *;
    ExecuteIsRunWave(f, w, v);
    SettledGives(f);
    var todo := PendingIn(f.targets, v, 0);
    var ran, g := RunFrom(f, w, todo, 0), RunWave(f, w, v);
    RunWaveRow(f, w, v);
    RunWaveResult(f, w, v);
    WaveRuns(f, w, v);
    WaveCounts(f, w, v);
    NextWaveNone(g.targets);
    if FailedAmong(ran.targets, todo, 0) > f.c.maxFailures && f.c.rollbackOnFailure {
      RollbackWaveEffects(ran, w, todo);
      FailuresStay(ran.targets, g.targets, todo, v);
      RanTargets(f.targets, ran.targets, g.targets, todo, v, true);
    } else {
      RanTargets(f.targets, ran.targets, g.targets, todo, v, false);
    }
  }

  /** Without approval nothing happens; with nothing left to run a running campaign has succeeded. */
  lemma ExecuteOtherwise(f: Fleet, w: World, approved: bool)
    requires Settled(f)
    ensures !approved || f.c.state != Active ==> Next(f, w, ExecuteNextWave(approved)) == f
    ensures approved && f.c.state == Active && (forall i :: 0 <= i < |f.targets| ==> f.targets[i].state != Pending) ==>
              Next(f, w, ExecuteNextWave(approved)) == f.(c := f.c.(state := Done))
  {
    assert RecoverInterrupted(f).targets == f.targets;
    NextWaveNone(f.targets);
    hide TxsKnown;
    hide Unmixed;
    hide Tolerable;
    hide FailedOutcomes;
    hide RunWave;
    hide NextWave;
  }
}
