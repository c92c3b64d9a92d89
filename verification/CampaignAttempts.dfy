/** Attempt numbers when the executing process may die between any two steps.

    One target row is followed through single statements: a start, the writing of an outcome, the
    death of the process, the recovery that opens the next execution, compensation, retry and abort.
    The campaign lock admits one executor, so recovery runs only when none is alive. */
module CampaignAttempts {
  import opened Campaigns

  datatype Event = Began(attempt: nat) | Recorded(attempt: nat)

  /** The row, whether a live process has it in hand, and what has happened to it. */
  datatype Row = Row(t: Target, live: bool, log: seq<Event>)

  datatype Step = Begin | Record(ok: bool) | Crash | Recover | Compensate(ok: bool) | Reset | Skip

  function Take(r: Row, s: Step): Row {
    match s
    case Begin =>
      if r.live || r.t.state != Pending then r
      else Row(r.t.(state := Running, attempts := r.t.attempts + 1), true, r.log + [Began(r.t.attempts + 1)])
    case Record(ok) =>
      if !r.live then r
      else Row(r.t.(state := if ok then Succeeded else Failed), false, r.log + [Recorded(r.t.attempts)])
    case Crash => r.(live := false)
    case Recover => if r.live then r else r.(t := Recovered(r.t))
    case Compensate(ok) =>
      if r.live || r.t.state != Succeeded then r else r.(t := r.t.(state := if ok then RolledBack else RollbackFailed))
    case Reset => if r.live then r else r.(t := ResetFor(r.t, r.t.wave))
    case Skip => if r.live || r.t.state !in {Pending, Running} then r else r.(t := r.t.(state := Skipped))
  }

  function Steps(wave: nat, ss: seq<Step>): Row {
    if ss == [] then Row(Target(wave, Pending, 0, []), false, [])
    else Take(Steps(wave, ss[..|ss| - 1]), ss[|ss| - 1])
  }

  /** The last start has no outcome yet. */
  predicate Interrupted(log: seq<Event>) {
    log != [] && log[|log| - 1].Began?
  }

  /** No event of the log has an attempt above `a`. */
  predicate UpTo(log: seq<Event>, a: nat) {
    forall i :: 0 <= i < |log| ==> log[i].attempt <= a
  }

  /** Events of attempt `a` stand at the end of the log only. */
  predicate NoOutcomeOf(log: seq<Event>, a: nat) {
    Recorded(a) !in log
  }

  predicate Counts(r: Row) {
    var a, n := r.t.attempts, |r.log|;
    match r.t.state
    case Running => a > 0 && Interrupted(r.log) && r.log[n - 1] == Began(a) && UpTo(r.log, a) && NoOutcomeOf(r.log, a)
    case Pending =>
      && !r.live
      && if Interrupted(r.log) then r.log[n - 1] == Began(a + 1) && UpTo(r.log, a + 1) && NoOutcomeOf(r.log, a + 1)
         else UpTo(r.log, a)
    case Skipped => !r.live
    case _ => !r.live && !Interrupted(r.log) && UpTo(r.log, a)
  }

  lemma TakeKeepsCounts(r: Row, s: Step)
    requires Counts(r)
    ensures Counts(Take(r, s))
  {
    var q := Take(r, s);
    if q.log != r.log {
      assert q.log[..|r.log|] == r.log;
      assert forall e :: e in q.log <==> e in r.log || e == q.log[|r.log|];
      assert forall i :: 0 <= i < |r.log| ==> r.log[i] in r.log;
    }
  }

  lemma {:induction false} StepsCount(wave: nat, ss: seq<Step>)
    ensures Counts(Steps(wave, ss))
  {
    if ss != [] {
      StepsCount(wave, ss[..|ss| - 1]);
      TakeKeepsCounts(Steps(wave, ss[..|ss| - 1]), ss[|ss| - 1]);
    }
  }

  /** With a crash allowed between any two steps: a start takes the number of the start before it
      exactly when that one was interrupted, and otherwise a number above all used so far; in either
      case no outcome was ever recorded under it. */
  lemma StartsAreIdentified(wave: nat, ss: seq<Step>)
    requires var r := Steps(wave, ss); !r.live && r.t.state == Pending
    ensures var before, after := Steps(wave, ss).log, Take(Steps(wave, ss), Begin).log;
            && |after| == |before| + 1 && after[|before|].Began?
            && var a := after[|before|].attempt;
               && NoOutcomeOf(before, a)
               && (Interrupted(before) ==> before[|before| - 1].attempt == a)
               && (!Interrupted(before) ==> forall i :: 0 <= i < |before| ==> before[i].attempt < a)
  {
    StepsCount(wave, ss);
  }

  /** A target that was reset for a retry has its last outcome recorded, so its next start is fresh. */
  lemma RetryIsFresh(wave: nat, ss: seq<Step>)
    requires var r := Steps(wave, ss); !r.live && r.t.state in {Failed, RolledBack}
    ensures var r := Take(Steps(wave, ss), Reset);
            && r.t.state == Pending && !Interrupted(r.log)
            && forall i :: 0 <= i < |r.log| ==> r.log[i].attempt < Take(r, Begin).t.attempts
  {
    StepsCount(wave, ss);
  }
}
