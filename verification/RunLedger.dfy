/** The ledger of correlation runs (correlation_hardening.py): every run is recorded with what went in
    and what came out, and a run that contradicts an earlier one is found out.

    Runs of one incident are serialized by `incident_guard`; a run in progress is the handle its caller
    holds. Fingerprints are numbers, and 0 is the empty text, which no digest is. */
module RunLedger {
  import opened Common

  datatype State = Running | Completed | NonDeterministic | Failed | Interrupted

  /** What a run was asked: equal questions must have equal answers. */
  datatype Question = Question(incident: nat, mode: nat, rule: nat, input: nat)

  datatype Run = Run(question: Question, state: State, result: nat, replayOf: Option<nat>, started: int, finished: int)

  /** A run in progress: its row, and the answer found for the same question when it began. */
  datatype Handle = Handle(id: nat, question: Question, previous: nat, judged: bool)

  datatype Ledger = Ledger(rows: map<nat, Run>, nextId: nat, inProgress: map<nat, Handle>)

  datatype Step =
    | Begin(question: Question, now: int)
    | Complete(incident: nat, result: nat, now: int)
    | Fail(incident: nat, now: int)
    | Crash(incident: nat)
    | Recover(now: int)
    | Prune(cutoff: int)

  const EMPTY := Ledger(map[], 1, map[])

  predicate Answers(rows: map<nat, Run>, id: nat, q: Question) {
    id in rows && rows[id].state == Completed && rows[id].question == q
  }

  /** The last completed run of a question below `n`: latest end first, then highest id. */
  function Latest(rows: map<nat, Run>, q: Question, n: nat): (r: Option<nat>)
    ensures r.Some? ==> Answers(rows, r.value, q)
  {
    if n == 0 then None
    else
      var before := Latest(rows, q, n - 1);
      if Answers(rows, n - 1, q)
        && (before.None? || rows[before.value].finished <= rows[n - 1].finished) then Some(n - 1)
      else before
  }

  function Verdict(previous: nat, result: nat): State {
    if previous == 0 || previous == result then Completed else NonDeterministic
  }

  function Interrupt(r: Run, now: int): Run {
    if r.state == Running then r.(state := Interrupted, finished := now) else r
  }

  predicate Prunable(r: Run, cutoff: int) {
    r.state != Running && 0 < r.finished < cutoff
  }

  function Next(l: Ledger, s: Step): Ledger {
    match s
    case Begin(q, now) =>
      if q.incident in l.inProgress then l
      else
        var previous := Latest(l.rows, q, l.nextId);
        var run := Run(q, Running, 0, previous, now, 0);
        var answer := if previous.Some? then l.rows[previous.value].result else 0;
        Ledger(l.rows[l.nextId := run], l.nextId + 1, l.inProgress[q.incident := Handle(l.nextId, q, answer, false)])
    case Complete(i, result, now) =>
      if i !in l.inProgress || l.inProgress[i].judged then l
      else
        var h := l.inProgress[i];
        var verdict := Verdict(h.previous, result);
        var rows := if h.id in l.rows
          then l.rows[h.id := l.rows[h.id].(state := verdict, result := result, finished := now)]
                    else l.rows;
        l.(rows := rows,
           inProgress := if verdict == Completed then l.inProgress - {i} else l.inProgress[i := h.(judged := true)])
    case Fail(i, now) =>
      if i !in l.inProgress then l
      else
        var h := l.inProgress[i];
        var rows := if h.id in l.rows && l.rows[h.id].state == Running
                    then l.rows[h.id := l.rows[h.id].(state := Failed, finished := now)] else l.rows;
        l.(rows := rows, inProgress := l.inProgress - {i})
    case Crash(i) => l.(inProgress := l.inProgress - {i})
    case Recover(now) => l.(rows := map id | id in l.rows :: Interrupt(l.rows[id], now))
    case Prune(cutoff) => l.(rows := map id | id in l.rows && !Prunable(l.rows[id], cutoff) :: l.rows[id])
  }

  // ---- Equal questions have equal answers ----

  /** Two completed runs of one question. */
  predicate SameAsked(a: Run, b: Run) {
    a.state == Completed && b.state == Completed && a.question == b.question
  }

  /** Completed runs of one question agree, and their answer is not empty. */
  ghost predicate Deterministic(rows: map<nat, Run>) {
    && (forall a :: a in rows && rows[a].state == Completed ==> rows[a].result > 0)
    && forall a, b :: a in rows && b in rows && SameAsked(rows[a], rows[b]) ==> rows[a].result == rows[b].result
  }

  /** A handle knows the answer to its question, if there is one, and its own row has not been judged
      without it. */
  ghost predicate Informed(l: Ledger, i: nat) {
    i in l.inProgress ==>
      var h := l.inProgress[i];
      && h.question.incident == i && h.id < l.nextId
      && (forall id :: Answers(l.rows, id, h.question) ==> h.previous != 0 && l.rows[id].result == h.previous)
      && (h.id in l.rows ==> l.rows[h.id].question == h.question && l.rows[h.id].state != Completed
                             && (!h.judged ==> l.rows[h.id].state != NonDeterministic))
  }

  ghost predicate Sound(l: Ledger) {
    && (forall id :: id in l.rows ==> id < l.nextId)
    && Deterministic(l.rows)
    && forall i :: Informed(l, i)
  }

  lemma {:induction false} LatestIs(rows: map<nat, Run>, q: Question, n: nat)
    ensures Latest(rows, q, n).None? ==> forall id :: 0 <= id < n ==> !Answers(rows, id, q)
    ensures Latest(rows, q, n).Some? ==>
              var best := Latest(rows, q, n).value;
              best < n && forall id :: 0 <= id < n && Answers(rows, id, q) ==>
                rows[id].finished < rows[best].finished
                || (rows[id].finished == rows[best].finished && id <= best)
    decreases n
  {
    if n > 0 {
      LatestIs(rows, q, n - 1);
    }
  }

  lemma BeginKeeps(l: Ledger, q: Question, now: int)
    requires Sound(l)
    ensures Sound(Next(l, Begin(q, now)))
  {
    var n := Next(l, Begin(q, now));
    if q.incident !in l.inProgress {
      assert l.nextId !in l.rows;
      BeginInforms(l, q, now);
      hide Latest;
      forall i | i != q.incident ensures Informed(n, i) {
        assert Informed(l, i);
      }
    }
  }

  lemma BeginInforms(l: Ledger, q: Question, now: int)
    requires Sound(l) && q.incident !in l.inProgress
    ensures Informed(Next(l, Begin(q, now)), q.incident)
  {
    LatestIs(l.rows, q, l.nextId);
    var previous := Latest(l.rows, q, l.nextId);
    hide Latest;
    var n := Next(l, Begin(q, now));
    var h := n.inProgress[q.incident];
    assert l.nextId !in l.rows;
    forall id: nat | Answers(n.rows, id, q) ensures h.previous != 0 && n.rows[id].result == h.previous {
      assert id in l.rows && id < l.nextId && n.rows[id] == l.rows[id];
      assert Answers(l.rows, id, q);
      assert SameAsked(l.rows[id], l.rows[previous.value]);
    }
  }

  lemma CompleteKeeps(l: Ledger, i: nat, result: nat, now: int)
    requires Sound(l) && result > 0
    ensures Sound(Next(l, Complete(i, result, now)))
  {
    assert Informed(l, i);
    if i in l.inProgress && !l.inProgress[i].judged && l.inProgress[i].id in l.rows {
      JudgedRowFits(l, i, result, now);
    }
    forall j ensures Informed(Next(l, Complete(i, result, now)), j) {
      CompleteInforms(l, i, result, now, j);
    }
    hide Informed;
  }

  lemma JudgedRowFits(l: Ledger, i: nat, result: nat, now: int)
    requires Sound(l) && result > 0 && i in l.inProgress && !l.inProgress[i].judged && l.inProgress[i].id in l.rows
    ensures Deterministic(Next(l, Complete(i, result, now)).rows)
  {
    assert Informed(l, i);
    var h := l.inProgress[i];
    var n := Next(l, Complete(i, result, now));
    forall a, b | a in n.rows && b in n.rows && SameAsked(n.rows[a], n.rows[b])
      ensures n.rows[a].result == n.rows[b].result {
      if a != h.id && b != h.id {
        assert SameAsked(l.rows[a], l.rows[b]);
      } else {
        assert a != h.id ==> Answers(l.rows, a, h.question);
        assert b != h.id ==> Answers(l.rows, b, h.question);
      }
    }
  }

  lemma CompleteInforms(l: Ledger, i: nat, result: nat, now: int, j: nat)
    requires Sound(l)
    ensures Informed(Next(l, Complete(i, result, now)), j)
  {
    hide Deterministic;
    assert Informed(l, i);
    assert Informed(l, j);
  }

  lemma FailKeeps(l: Ledger, i: nat, now: int)
    requires Sound(l)
    ensures Sound(Next(l, Fail(i, now))) && Sound(Next(l, Crash(i)))
  {
    forall j ensures Informed(Next(l, Fail(i, now)), j) && Informed(Next(l, Crash(i)), j) {
      assert Informed(l, i);
      assert Informed(l, j);
    }
  }

  lemma RecoverKeeps(l: Ledger, now: int)
    requires Sound(l)
    ensures Sound(Next(l, Recover(now)))
  {
    var n := Next(l, Recover(now));
    forall j ensures Informed(n, j) {
      assert Informed(l, j);
    }
  }

  lemma PruneKeeps(l: Ledger, cutoff: int)
    requires Sound(l)
    ensures Sound(Next(l, Prune(cutoff)))
  {
    var n := Next(l, Prune(cutoff));
    forall j ensures Informed(n, j) {
      assert Informed(l, j);
    }
  }

  predicate Proper(s: Step) {
    s.Complete? ==> s.result > 0
  }

  lemma StepKeeps(l: Ledger, s: Step)
    requires Sound(l) && Proper(s)
    ensures Sound(Next(l, s))
  {
    hide Next;
    hide Sound;
    match s {
      case Begin(q, now) => BeginKeeps(l, q, now);
      case Complete(i, result, now) => CompleteKeeps(l, i, result, now);
      case Fail(i, now) => FailKeeps(l, i, now);
      case Crash(i) => FailKeeps(l, i, 0);
      case Recover(now) => RecoverKeeps(l, now);
      case Prune(cutoff) => PruneKeeps(l, cutoff);
    }
  }

  function After(steps: seq<Step>): Ledger {
    if steps == [] then EMPTY else Next(After(steps[..|steps| - 1]), steps[|steps| - 1])
  }

  /** In every reachable ledger, whatever failed, crashed, was recovered or pruned in between: completed
      runs of the same question have the same answer. */
  lemma {:induction false} LedgerIsDeterministic(steps: seq<Step>)
    requires forall k :: 0 <= k < |steps| ==> Proper(steps[k])
    ensures Sound(After(steps)) && Deterministic(After(steps).rows)
    decreases |steps|
  {
    hide Next;
    if steps != [] {
      LedgerIsDeterministic(steps[..|steps| - 1]);
      StepKeeps(After(steps[..|steps| - 1]), steps[|steps| - 1]);
    }
  }

  // ---- Verdicts ----

  /** A run that contradicts a completed one is never recorded as completed. */
  lemma ContradictionIsCaught(l: Ledger, i: nat, result: nat, now: int, id: nat)
    requires Sound(l) && i in l.inProgress && !l.inProgress[i].judged && l.inProgress[i].id in l.rows
    requires Answers(l.rows, id, l.inProgress[i].question)
    ensures var h := l.inProgress[i];
            Next(l, Complete(i, result, now)).rows[h.id].state ==
            if result == l.rows[id].result then Completed else NonDeterministic
  {
    assert Informed(l, i);
  }

  /** Once a run is found to be non-deterministic the finding stands until its row is pruned: neither
      the failure path, nor a restart, nor a second completion touches it. */
  lemma VerdictStands(l: Ledger, s: Step, id: nat)
    requires Sound(l) && id in l.rows && l.rows[id].state == NonDeterministic
    ensures var n := Next(l, s);
            if id in n.rows then n.rows[id] == l.rows[id] else s.Prune?
  {
    match s {
      case Begin(q, now) => assert id < l.nextId;
      case Complete(i, result, now) => assert Informed(l, i);
      case _ =>
    }
  }

  /** A restart leaves no run in the running state. */
  lemma RecoverEndsRuns(l: Ledger, now: int, id: nat)
    requires id in l.rows
    ensures var n := Next(l, Recover(now));
            && id in n.rows && n.rows[id].state != Running
            && (l.rows[id].state != Running ==> n.rows[id] == l.rows[id])
            && (l.rows[id].state == Running ==>
                n.rows[id] == l.rows[id].(state := Interrupted, finished := now))
  {
  }

  // ---- What each step does to the rows ----

  /** Pruning removes exactly the runs that are no longer running and ended before the cutoff; a run
      without an end stays, whatever its state. */
  lemma PruneRemoves(l: Ledger, cutoff: int)
    ensures var n := Next(l, Prune(cutoff));
            && n.nextId == l.nextId && n.inProgress == l.inProgress
            && (forall id :: id in n.rows <==>
                  id in l.rows && (l.rows[id].state == Running || l.rows[id].finished <= 0
                                   || l.rows[id].finished >= cutoff))
            && (forall id :: id in n.rows ==> n.rows[id] == l.rows[id])
  {
  }

  /** A question never answered before: its first answer is completed, and recorded with its time. */
  lemma FirstAnswerCompletes(l: Ledger, q: Question, result: nat, start: int, end: int)
    requires Sound(l) && q.incident !in l.inProgress && forall id :: !Answers(l.rows, id, q)
    ensures var n := Next(Next(l, Begin(q, start)), Complete(q.incident, result, end));
            && n.rows == l.rows[l.nextId := Run(q, Completed, result, None, start, end)]
            && n.nextId == l.nextId + 1 && q.incident !in n.inProgress
  {
    LatestIs(l.rows, q, l.nextId);
    hide Latest;
    assert l.nextId !in l.rows;
  }

  /** A run is begun beside the others, points to the latest answer to its question, and one incident has
      one run at a time. */
  lemma BeginAdds(l: Ledger, q: Question, now: int)
    requires Sound(l)
    ensures var n := Next(l, Begin(q, now));
            && (q.incident in l.inProgress ==> n == l)
            && (q.incident !in l.inProgress ==>
                  && l.nextId !in l.rows && n.rows.Keys == l.rows.Keys + {l.nextId}
                  && (forall id :: id in l.rows ==> n.rows[id] == l.rows[id])
                  && n.rows[l.nextId] == Run(q, Running, 0, n.rows[l.nextId].replayOf, now, 0)
                  && (n.rows[l.nextId].replayOf.Some? <==> exists id :: Answers(l.rows, id, q))
                  && (n.rows[l.nextId].replayOf.Some? ==> Answers(l.rows, n.rows[l.nextId].replayOf.value, q)))
  {
    LatestIs(l.rows, q, l.nextId);
    hide Latest;
    assert l.nextId !in l.rows;
  }

  /** A completion writes the result and the end of its own run and touches no other row. */
  lemma CompleteWrites(l: Ledger, i: nat, result: nat, now: int)
    requires Sound(l) && i in l.inProgress && !l.inProgress[i].judged && l.inProgress[i].id in l.rows
    ensures var n, h := Next(l, Complete(i, result, now)), l.inProgress[i];
            && n.rows.Keys == l.rows.Keys
            && (forall id :: id in l.rows && id != h.id ==> n.rows[id] == l.rows[id])
            && n.rows[h.id].result == result && n.rows[h.id].finished == now
            && n.rows[h.id].question == l.rows[h.id].question && n.rows[h.id].replayOf == l.rows[h.id].replayOf
            && (n.rows[h.id].state == Completed || n.rows[h.id].state == NonDeterministic)
            && (i in n.inProgress <==> n.rows[h.id].state == NonDeterministic)
            && (forall j :: j != i ==> (j in n.inProgress <==> j in l.inProgress)
                                       && (j in l.inProgress ==> n.inProgress[j] == l.inProgress[j]))
  {
  }

  /** A failure ends a run that is still running, gives the incident free, and touches no other row. */
  lemma FailEnds(l: Ledger, i: nat, now: int)
    requires i in l.inProgress && l.inProgress[i].id in l.rows
    ensures var n, h := Next(l, Fail(i, now)), l.inProgress[i];
            && n.rows.Keys == l.rows.Keys
            && (forall id :: id in l.rows && id != h.id ==> n.rows[id] == l.rows[id])
            && (l.rows[h.id].state != Running ==> n.rows[h.id] == l.rows[h.id])
            && (l.rows[h.id].state == Running ==> n.rows[h.id] == l.rows[h.id].(state := Failed, finished := now))
            && i !in n.inProgress && forall j :: j != i ==> (j in n.inProgress <==> j in l.inProgress)
  {
  }

  // ---- The table ----

  const MAX_RETENTION_DAYS := 3650
  const DAY := 86400

  class RunTable {
    var rows: map<nat, Run>
    var nextId: nat
    var inProgress: map<nat, Handle>

    function View(): Ledger
      reads this
    {
      Ledger(rows, nextId, inProgress)
    }

    constructor ()
      ensures View() == EMPTY
    {
      rows, nextId, inProgress := map[], 1, map[];
    }

    /** `begin_run` behind `incident_guard`; `None` when the incident is busy. */
    method BeginRun(q: Question, now: int) returns (h: Option<Handle>)
      modifies this
      ensures View() == old(Next(View(), Begin(q, now)))
      ensures h.None? <==> old(q.incident in inProgress)
      ensures h.Some? ==> q.incident in inProgress && h.value == inProgress[q.incident]
    {
      if q.incident in inProgress {
        return None;
      }
      var id := 0;
      var best: Option<nat> := None;
      while id < nextId
        invariant id <= nextId && best == Latest(rows, q, id)
      {
        if Answers(rows, id, q) && (best.None? || rows[best.value].finished <= rows[id].finished) {
          best := Some(id);
        }
        id := id + 1;
      }
      var handle := Handle(nextId, q, if best.Some? then rows[best.value].result else 0, false);
      rows := rows[nextId := Run(q, Running, 0, best, now, 0)];
      nextId := nextId + 1;
      inProgress := inProgress[q.incident := handle];
      return Some(handle);
    }

    /** `complete_run`; false stands for the exception it raises on a contradiction. */
    method CompleteRun(incident: nat, result: nat, now: int) returns (ok: bool)
      requires incident in inProgress && !inProgress[incident].judged
      modifies this
      ensures View() == old(Next(View(), Complete(incident, result, now)))
      ensures ok <==> old(inProgress[incident].previous) == 0 || old(inProgress[incident].previous) == result
    {
      var h := inProgress[incident];
      ok := h.previous == 0 || h.previous == result;
      var state := if ok then Completed else NonDeterministic;
      if h.id in rows {
        rows := rows[h.id := rows[h.id].(state := state, result := result, finished := now)];
      }
      if ok {
        inProgress := inProgress - {incident};
      } else {
        inProgress := inProgress[incident := h.(judged := true)];
      }
    }

    /** `fail_run`, and the release of the guard that follows it. */
    method FailRun(incident: nat, now: int)
      requires incident in inProgress
      modifies this
      ensures View() == old(Next(View(), Fail(incident, now)))
    {
      var h := inProgress[incident];
      if h.id in rows && rows[h.id].state == Running {
        rows := rows[h.id := rows[h.id].(state := Failed, finished := now)];
      }
      inProgress := inProgress - {incident};
    }

    /** `_recover_interrupted_runs` */
    method RecoverInterruptedRuns(now: int)
      modifies this
      ensures View() == old(Next(View(), Recover(now)))
    {
      rows := map id | id in rows :: Interrupt(rows[id], now);
    }

    /** `prune_runs`; `None` stands for the exception about the number of days. */
    method PruneRuns(days: int, now: int) returns (deleted: Option<nat>)
      modifies this
      ensures deleted.Some? <==> 1 <= days <= MAX_RETENTION_DAYS
      ensures deleted.None? ==> View() == old(View())
      ensures deleted.Some? ==> View() == old(Next(View(), Prune(now - days * DAY)))
      ensures deleted.Some? ==> deleted.value == |old(rows)| - |rows|
    {
      if days < 1 || days > MAX_RETENTION_DAYS {
        return None;
      }
      var cutoff := now - days * DAY;
      var kept := map id | id in rows && !Prunable(rows[id], cutoff) :: rows[id];
      KeysShrink(rows, kept);
      deleted := Some(|rows| - |kept|);
      rows := kept;
    }
  }

  lemma KeysShrink(a: map<nat, Run>, b: map<nat, Run>)
    requires b.Keys <= a.Keys
    ensures |b| <= |a|
  {
    assert a.Keys == b.Keys + (a.Keys - b.Keys);
    assert |a| == |a.Keys| && |b| == |b.Keys|;
  }
}
