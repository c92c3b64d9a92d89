/** The fenced distributed task queue of db.py.

    Workers with clocks of their own claim, renew and finish tasks of one table; a janitor parks
    tasks whose lease ran out and an operator may put a replay-safe one back. `Table` is the state,
    `Next` one call, `Run` any interleaving of calls; every call that takes effect leaves an event
    in the log. `Advance` is the independent account of what may happen to one task. */
module TaskQueue {
  import opened Common

  datatype TaskState = PENDING | CLAIMED | RECOVERY_REQUIRED | DONE | FAILED

  datatype Task = Task(
    queue: string, kind: string, payload: string, replaySafe: bool,
    state: TaskState, availableTs: real,
    claimedBy: string, claimedInstance: string, claimTs: Option<real>, leaseUntil: Option<real>,
    attempts: nat, generation: nat, token: string,
    outcome: string, error: string, recoveryReason: string, updatedTs: real)

  datatype Event =
    | Enqueued(id: nat, safe: bool)
    | Claimed(id: nat, worker: string, generation: int, token: string, lease: real)
    | Renewed(id: nat, worker: string, generation: int, token: string, now: real, lease: real)
    | Finished(id: nat, worker: string, generation: int, token: string, now: real, ok: bool)
    | Recovered(id: nat, generation: int, now: real)
    | Requeued(id: nat)

  datatype Table = Table(tasks: map<nat, Task>, nextId: nat, log: seq<Event>)

  /** One call, with everything its caller and the surroundings choose: the clock reading, the
      random token, the arguments. */
  datatype Call =
    | Enqueue(queue: string, kind: string, payload: string, now: real, available: Option<real>, safe: bool)
    | Claim(queue: string, worker: string, instance: string, now: real, leaseSeconds: int, token: string)
    | Renew(id: int, worker: string, token: string, generation: int, now: real, leaseSeconds: int)
    | Finish(id: int, worker: string, now: real, ok: bool, outcome: string, error: string,
             token: string, holds: Option<int>)
    | Recover(now: real, limit: int)
    | Requeue(id: int, now: real, reason: string)

  // ---- Rows ----

  function OrElse(s: string, other: string): string {
    if s == "" then other else s
  }

  function Lease(now: real, seconds: int): real {
    now + (if seconds < 5 then 5 else seconds) as real
  }

  function Cut(s: string, n: nat): string {
    if |s| <= n then s else s[..n]
  }

  predicate Claimable(t: Task, queue: string, now: real) {
    t.queue == OrElse(queue, "default") && t.availableTs <= now && t.state == PENDING
  }

  /** The `WHERE` clause that fences renewals and results. */
  predicate Holds(t: Task, worker: string, token: string, generation: int, now: real) {
    && t.state == CLAIMED && t.claimedBy == worker && t.token == token
    && t.generation == generation && t.leaseUntil.Some? && t.leaseUntil.value >= now
  }

  predicate Expired(t: Task, now: real) {
    t.state == CLAIMED && t.leaseUntil.Some? && t.leaseUntil.value < now
  }

  function NewRow(c: Call): Task
    requires c.Enqueue?
  {
    Task(OrElse(c.queue, "default"), c.kind, OrElse(c.payload, "{}"), c.safe, PENDING,
         if c.available.Some? then c.available.value else c.now,
         "", "", None, None, 0, 0, "", "", "", "", c.now)
  }

  function ClaimedRow(t: Task, c: Call): Task
    requires c.Claim?
  {
    t.(state := CLAIMED, claimedBy := c.worker, claimedInstance := Cut(c.instance, 128), claimTs := Some(c.now),
       leaseUntil := Some(Lease(c.now, c.leaseSeconds)), attempts := t.attempts + 1,
       generation := t.generation + 1, token := c.token, recoveryReason := "", updatedTs := c.now)
  }

  function RenewedRow(t: Task, c: Call): Task
    requires c.Renew?
  {
    t.(leaseUntil := Some(Lease(c.now, c.leaseSeconds)), updatedTs := c.now)
  }

  function FinishedRow(t: Task, c: Call): Task
    requires c.Finish?
  {
    t.(state := if c.ok then DONE else FAILED, outcome := c.outcome, error := c.error,
       leaseUntil := None, updatedTs := c.now)
  }

  function RecoveredRow(t: Task, now: real): Task {
    t.(state := RECOVERY_REQUIRED, leaseUntil := None,
       recoveryReason := "worker lease expired; automatic replay disabled", updatedTs := now)
  }

  function RequeuedRow(t: Task, c: Call): Task
    requires c.Requeue?
  {
    t.(state := PENDING, claimedBy := "", claimedInstance := "", claimTs := None, leaseUntil := None,
       token := "", availableTs := c.now, recoveryReason := Cut(OrElse(c.reason, "explicit replay approved"), 500),
       updatedTs := c.now)
  }

  // ---- One call on the whole table ----

  /** `ORDER BY id LIMIT 1`: the smallest claimable id from `id` on. */
  function FirstClaimable(t: Table, queue: string, now: real, id: nat): (r: Option<nat>)
    ensures r.Some? ==> id <= r.value && r.value in t.tasks && Claimable(t.tasks[r.value], queue, now)
    ensures forall k :: id <= k < (if r.Some? then r.value else t.nextId) && k in t.tasks ==>
              !Claimable(t.tasks[k], queue, now)
    decreases t.nextId - id
  {
    if id >= t.nextId then None
    else if id in t.tasks && Claimable(t.tasks[id], queue, now) then Some(id)
    else FirstClaimable(t, queue, now, id + 1)
  }

  /** `ORDER BY id LIMIT limit`: the expired claims from `id` on. */
  function ExpiredIds(t: Table, now: real, limit: nat, id: nat): (ids: seq<nat>)
    ensures forall k :: 0 <= k < |ids| ==> id <= ids[k] && ids[k] in t.tasks && Expired(t.tasks[ids[k]], now)
    ensures forall j, k :: 0 <= j < k < |ids| ==> ids[j] < ids[k]
    decreases t.nextId - id
  {
    if id >= t.nextId || limit == 0 then []
    else if id in t.tasks && Expired(t.tasks[id], now) then [id] + ExpiredIds(t, now, limit - 1, id + 1)
    else ExpiredIds(t, now, limit, id + 1)
  }

  function Put(t: Table, id: nat, row: Task, e: Event): Table {
    t.(tasks := t.tasks[id := row], log := t.log + [e])
  }

  function RecoverAll(t: Table, ids: seq<nat>, now: real): (r: Table)
    ensures r.nextId == t.nextId
    ensures forall id :: id !in ids ==>
            (id in r.tasks <==> id in t.tasks) && (id in t.tasks ==> r.tasks[id] == t.tasks[id])
    decreases |ids|
  {
    if ids == [] then t
    else
      var head := if ids[0] in t.tasks && Expired(t.tasks[ids[0]], now)
                  then Put(t, ids[0], RecoveredRow(t.tasks[ids[0]], now),
                           Recovered(ids[0], t.tasks[ids[0]].generation, now))
                  else t;
      RecoverAll(head, ids[1..], now)
  }

  function Bounded(limit: int): nat {
    if limit < 1 then 1 else if limit > 5000 then 5000 else limit
  }

  /** A call that is refused, or finds nothing to do, leaves the table as it was. */
  function Next(t: Table, c: Call): Table {
    match c
    case Enqueue(_, _, _, _, _, safe) =>
      Put(t, t.nextId, NewRow(c), Enqueued(t.nextId, safe)).(nextId := t.nextId + 1)
    case Claim(queue, worker, _, now, seconds, token) =>
      var first := FirstClaimable(t, queue, now, 1);
      if first.None? then t
      else
        var row := t.tasks[first.value];
        Put(t, first.value, ClaimedRow(row, c),
            Claimed(first.value, worker, row.generation + 1, token, Lease(now, seconds)))
    case Renew(id, worker, token, generation, now, seconds) =>
      if id < 0 || id !in t.tasks || !Holds(t.tasks[id], worker, token, generation, now) then t
      else Put(t, id, RenewedRow(t.tasks[id], c), Renewed(id, worker, generation, token, now, Lease(now, seconds)))
    case Finish(id, worker, now, ok, _, _, token, holds) =>
      if token == "" || holds.None? || id < 0 || id !in t.tasks
         || !Holds(t.tasks[id], worker, token, holds.value, now) then t
      else Put(t, id, FinishedRow(t.tasks[id], c), Finished(id, worker, holds.value, token, now, ok))
    case Recover(now, limit) => RecoverAll(t, ExpiredIds(t, now, Bounded(limit), 1), now)
    case Requeue(id, now, _) =>
      if id < 0 || id !in t.tasks || t.tasks[id].state != RECOVERY_REQUIRED || !t.tasks[id].replaySafe then t
      else Put(t, id, RequeuedRow(t.tasks[id], c), Requeued(id))
  }

  const EMPTY := Table(map[], 1, [])

  function Run(calls: seq<Call>): Table {
    if calls == [] then EMPTY else Next(Run(calls[..|calls| - 1]), calls[|calls| - 1])
  }

  // ---- What may happen to one task ----

  /** A task waits, is held under one generation by one worker until a lease, is lost when the lease
      ran out, or is over. */
  datatype Life =
    | Absent
    | Waiting(generation: nat, safe: bool)
    | Held(generation: nat, safe: bool, worker: string, token: string, lease: real)
    | Lost(generation: nat, safe: bool)
    | Over(generation: nat, safe: bool)

  /** The protocol: nothing else may happen. */
  function Advance(l: Life, e: Event): Option<Life> {
    match e
    case Enqueued(_, safe) => if l.Absent? then Some(Waiting(0, safe)) else None
    case Claimed(_, worker, generation, token, lease) =>
      if l.Waiting? && generation == l.generation + 1
      then Some(Held(l.generation + 1, l.safe, worker, token, lease)) else None
    case Renewed(_, worker, generation, token, now, lease) =>
      if l.Held? && l.worker == worker && l.token == token && l.generation == generation && now <= l.lease
      then Some(l.(lease := lease)) else None
    case Finished(_, worker, generation, token, now, _) =>
      if l.Held? && l.worker == worker && l.token == token && l.generation == generation && now <= l.lease
      then Some(Over(l.generation, l.safe)) else None
    case Recovered(_, generation, now) =>
      if l.Held? && l.generation == generation && l.lease < now then Some(Lost(l.generation, l.safe)) else None
    case Requeued(_) => if l.Lost? && l.safe then Some(Waiting(l.generation, true)) else None
  }

  /** The life of a task after its events; `None` as soon as one of them breaks the protocol. */
  function Story(log: seq<Event>): Option<Life> {
    if log == [] then Some(Absent)
    else
      var before := Story(log[..|log| - 1]);
      if before.None? then None else Advance(before.value, log[|log| - 1])
  }

  /** The events of one task, in order. */
  function Of(log: seq<Event>, id: nat): (r: seq<Event>)
    ensures forall k :: 0 <= k < |r| ==> r[k].id == id && r[k] in log
  {
    if log == [] then []
    else Of(log[..|log| - 1], id) + if log[|log| - 1].id == id then [log[|log| - 1]] else []
  }

  /** The life a row stands for. A claimed row always carries its lease. */
  function LifeOf(t: Table, id: nat): Option<Life> {
    if id !in t.tasks then Some(Absent)
    else
      var r := t.tasks[id];
      match r.state
      case PENDING => Some(Waiting(r.generation, r.replaySafe))
      case CLAIMED =>
        if r.leaseUntil.None? then None
        else Some(Held(r.generation, r.replaySafe, r.claimedBy, r.token, r.leaseUntil.value))
      case RECOVERY_REQUIRED => Some(Lost(r.generation, r.replaySafe))
      case _ => Some(Over(r.generation, r.replaySafe))
  }

  ghost predicate ToldOf(t: Table, id: nat) {
    LifeOf(t, id).Some? && Story(Of(t.log, id)) == LifeOf(t, id)
  }

  /** The table tells, for every task, where its log has led under the protocol. */
  ghost predicate Told(t: Table) {
    && (forall id :: id in t.tasks ==> 0 < id < t.nextId && t.tasks[id].attempts == t.tasks[id].generation)
    && t.nextId > 0
    && (forall id: nat :: ToldOf(t, id))
  }

  lemma OfSnoc(log: seq<Event>, e: Event, id: nat)
    ensures Of(log + [e], id) == Of(log, id) + if e.id == id then [e] else []
  {
    assert (log + [e])[..|log|] == log;
  }

  lemma StorySnoc(log: seq<Event>, e: Event)
    ensures Story(log + [e]) == if Story(log).None? then None else Advance(Story(log).value, e)
  {
    assert (log + [e])[..|log|] == log;
  }

  /** A row change that is one protocol step keeps the table telling. */
  lemma PutTells(t: Table, id: nat, row: Task, e: Event)
    requires Told(t) && 0 < id && e.id == id && row.attempts == row.generation
    requires LifeOf(t, id).Some? && LifeOf(Put(t, id, row, e), id).Some?
    requires Advance(LifeOf(t, id).value, e) == LifeOf(Put(t, id, row, e), id)
    ensures Told(Put(t, id, row, e).(nextId := if id < t.nextId then t.nextId else id + 1))
  {
    var next := Put(t, id, row, e).(nextId := if id < t.nextId then t.nextId else id + 1);
    forall k: nat ensures ToldOf(next, k) {
      assert ToldOf(t, k);
      if k == id {
        ToldAfterStep(t, next, id, e);
      } else {
        ToldOfOther(t, next, k, e);
      }
    }
  }

  lemma ToldAfterStep(t: Table, next: Table, id: nat, e: Event)
    requires ToldOf(t, id) && e.id == id && next.log == t.log + [e]
    requires LifeOf(next, id).Some? && Advance(LifeOf(t, id).value, e) == LifeOf(next, id)
    ensures ToldOf(next, id)
  {
    hide LifeOf;
    hide Advance;
    OfSnoc(t.log, e, id);
    StorySnoc(Of(t.log, id), e);
  }

  lemma ToldOfOther(t: Table, next: Table, k: nat, e: Event)
    requires ToldOf(t, k) && e.id != k && next.log == t.log + [e]
    requires (k in next.tasks <==> k in t.tasks) && (k in t.tasks ==> next.tasks[k] == t.tasks[k])
    ensures ToldOf(next, k)
  {
    hide Story;
    OfSnoc(t.log, e, k);
    assert Of(t.log, k) + [] == Of(t.log, k);
  }

  lemma {:induction false} RecoverAllTells(t: Table, ids: seq<nat>, now: real)
    requires Told(t)
    ensures Told(RecoverAll(t, ids, now))
    decreases |ids|
  {
    if ids != [] {
      var id := ids[0];
      if id in t.tasks && Expired(t.tasks[id], now) {
        var e := Recovered(id, t.tasks[id].generation, now);
        PutTells(t, id, RecoveredRow(t.tasks[id], now), e);
        RecoverAllTells(Put(t, id, RecoveredRow(t.tasks[id], now), e), ids[1..], now);
      } else {
        RecoverAllTells(t, ids[1..], now);
      }
    }
  }

  /** Every call keeps the table telling. */
  lemma NextTells(t: Table, c: Call)
    requires Told(t)
    ensures Told(Next(t, c))
  {
    match c
    case Enqueue(_, _, _, _, _, safe) =>
      PutTells(t, t.nextId, NewRow(c), Enqueued(t.nextId, safe));
    case Claim(queue, worker, _, now, seconds, token) =>
      var first := FirstClaimable(t, queue, now, 1);
      if first.Some? {
        var id := first.value;
        PutTells(t, id, ClaimedRow(t.tasks[id], c),
                 Claimed(id, worker, t.tasks[id].generation + 1, token, Lease(now, seconds)));
      }
    case Renew(id, worker, token, generation, now, seconds) =>
      if Next(t, c) != t {
        PutTells(t, id, RenewedRow(t.tasks[id], c), Renewed(id, worker, generation, token, now, Lease(now, seconds)));
      }
    case Finish(id, worker, now, ok, _, _, token, holds) =>
      if Next(t, c) != t {
        PutTells(t, id, FinishedRow(t.tasks[id], c), Finished(id, worker, holds.value, token, now, ok));
      }
    case Recover(now, limit) =>
      RecoverAllTells(t, ExpiredIds(t, now, Bounded(limit), 1), now);
    case Requeue(id, now, _) =>
      if Next(t, c) != t {
        PutTells(t, id, RequeuedRow(t.tasks[id], c), Requeued(id));
      }
  }

  /** In every interleaving of calls, by any workers with any clocks, each task's log follows the
      protocol and its row says where the log has led. */
  lemma {:induction false} RunTells(calls: seq<Call>)
    ensures Told(Run(calls))
    decreases |calls|
  {
    if calls != [] {
      RunTells(calls[..|calls| - 1]);
      NextTells(Run(calls[..|calls| - 1]), calls[|calls| - 1]);
    } else {
      assert forall id: nat :: Of([], id) == [];
    }
  }

  // ---- What the protocol means ----

  function Claims(log: seq<Event>): nat {
    if log == [] then 0 else Claims(log[..|log| - 1]) + if log[|log| - 1].Claimed? then 1 else 0
  }

  function Requeues(log: seq<Event>): nat {
    if log == [] then 0 else Requeues(log[..|log| - 1]) + if log[|log| - 1].Requeued? then 1 else 0
  }

  lemma {:induction false} StoryPrefix(log: seq<Event>, k: nat)
    requires Story(log).Some? && k <= |log|
    ensures Story(log[..k]).Some?
    decreases |log|
  {
    if k < |log| {
      StoryPrefix(log[..|log| - 1], k);
      assert log[..|log| - 1][..k] == log[..k];
    } else {
      assert log[..k] == log;
    }
  }

  /** The result is final: nothing follows it, so there is at most one. */
  lemma {:induction false} FinishIsLast(log: seq<Event>, k: nat)
    requires Story(log).Some? && k < |log| && log[k].Finished?
    ensures k == |log| - 1
    decreases |log|
  {
    if k < |log| - 1 {
      FinishIsLast(log[..|log| - 1], k);
    }
  }

  /** A task is held under generation g only since some claim of that generation by that worker with
      that token, with nothing but renewals in between. */
  lemma {:induction false} HeldSinceClaim(log: seq<Event>) returns (j: nat)
    requires Story(log).Some? && Story(log).value.Held?
    ensures var h := Story(log).value;
            && j < |log| && log[j].Claimed? && log[j].worker == h.worker && log[j].token == h.token
            && log[j].generation == h.generation
            && forall i :: j < i < |log| ==> log[i].Renewed?
    decreases |log|
  {
    var last := |log| - 1;
    if log[last].Claimed? {
      j := last;
    } else {
      j := HeldSinceClaim(log[..last]);
    }
  }

  /** Fencing: a result is accepted only from the worker, token and generation of the latest claim,
      within its lease, and that claim was not recovered before. */
  lemma FinishIsFenced(log: seq<Event>, k: nat) returns (j: nat)
    requires Story(log).Some? && k < |log| && log[k].Finished?
    ensures j < k && log[j].Claimed? && log[j].worker == log[k].worker && log[j].token == log[k].token
    ensures log[j].generation == log[k].generation
    ensures forall i :: j < i < k ==> log[i].Renewed?
    ensures log[if k == j + 1 then j else k - 1].lease >= log[k].now
  {
    StoryPrefix(log, k + 1);
    assert log[..k + 1][..k] == log[..k];
    j := HeldSinceClaim(log[..k]);
    assert forall i :: 0 <= i < k ==> log[..k][i] == log[i];
    LeaseIsLatest(log[..k]);
  }

  lemma LeaseIsLatest(log: seq<Event>)
    requires Story(log).Some? && Story(log).value.Held? && log != []
    requires log[|log| - 1].Claimed? || log[|log| - 1].Renewed?
    ensures Story(log).value.lease == log[|log| - 1].lease
  {
  }

  function GenerationOf(l: Life): nat {
    if l.Absent? then 0 else l.generation
  }

  /** Generations count the claims; every claim but the first was bought by a requeue; a task that
      is not replay-safe is claimed at most once. */
  lemma {:induction false} ClaimsAreCounted(log: seq<Event>)
    requires Story(log).Some?
    ensures var l := Story(log).value;
            var claims, requeues := Claims(log), Requeues(log);
            && claims == GenerationOf(l)
            && claims + (if l.Waiting? then 1 else 0) <= requeues + 1
            && (l.Absent? ==> requeues == 0)
            && (!l.Absent? && !l.safe ==> requeues == 0)
    decreases |log|
  {
    if log != [] {
      ClaimsAreCounted(log[..|log| - 1]);
    }
  }

  /** Claims carry the generations 1, 2, 3, … in this order: no two claims share one. */
  lemma {:induction false} GenerationsRise(log: seq<Event>, i: nat, k: nat)
    requires Story(log).Some? && i < k < |log| && log[i].Claimed? && log[k].Claimed?
    ensures log[i].generation < log[k].generation
  {
    StoryPrefix(log, k + 1);
    assert log[..k + 1][..k] == log[..k];
    ClaimBelow(log[..k], i);
  }

  lemma {:induction false} ClaimBelow(log: seq<Event>, i: nat)
    requires Story(log).Some? && i < |log| && log[i].Claimed?
    ensures log[i].generation <= GenerationOf(Story(log).value)
    decreases |log|
  {
    if i < |log| - 1 {
      ClaimBelow(log[..|log| - 1], i);
    }
  }

  /** A claim that was recovered never delivers a result, however late its worker wakes up and even
      if the same worker has claimed it again. */
  lemma RecoveredNeverFinishes(log: seq<Event>, r: nat, k: nat)
    requires Story(log).Some? && r < |log| && k < |log| && log[r].Recovered? && log[k].Finished?
    ensures r < k && log[r].generation < log[k].generation
  {
    FinishIsLast(log, k);
    StoryPrefix(log, r + 1);
    assert log[..r + 1][..r] == log[..r];
    var i := HeldSinceClaim(log[..r]);
    var j := FinishIsFenced(log, k);
    assert log[..r][i] == log[i];
    GenerationsRise(log, i, j);
  }

  /** A finished task's log ends with the result, and the row stays in its final state. */
  lemma OverAfterFinish(log: seq<Event>, k: nat)
    requires Story(log).Some? && k < |log| && log[k].Finished?
    ensures Story(log).value.Over?
    ensures forall r :: 0 <= r < |log| && log[r].Recovered? ==> log[r].generation < log[k].generation
  {
    FinishIsLast(log, k);
    forall r | 0 <= r < |log| && log[r].Recovered? ensures log[r].generation < log[k].generation {
      RecoveredNeverFinishes(log, r, k);
    }
  }

  /** A claim carries the number it has among the claims of its task. */
  lemma ClaimsAreNumbered(log: seq<Event>, i: nat)
    requires Story(log).Some? && i < |log| && log[i].Claimed?
    ensures log[i].generation == Claims(log[..i]) + 1
  {
    StoryPrefix(log, i + 1);
    StoryPrefix(log, i);
    assert log[..i + 1][..i] == log[..i] && log[..i + 1][i] == log[i];
    ClaimsAreCounted(log[..i]);
    hide Claims;
  }

  /** The claim at `j` is still the holder's before event `k`: only renewals in between. */
  predicate SinceClaim(log: seq<Event>, j: nat, k: nat, worker: string, token: string, generation: int) {
    && j < k <= |log| && log[j].Claimed? && log[j].worker == worker && log[j].token == token
    && log[j].generation == generation
    && forall i :: j < i < k ==> log[i].Renewed?
  }

  /** The result at `k` comes from the claim at `j`, within the lease given last. */
  predicate FencedBy(log: seq<Event>, j: nat, k: nat) {
    && k < |log| && log[k].Finished? && SinceClaim(log, j, k, log[k].worker, log[k].token, log[k].generation)
    && (log[k - 1].Claimed? || log[k - 1].Renewed?) && log[k - 1].lease >= log[k].now
  }

  /** The result at `k` is the last event, from the latest claim, and from no recovered one. */
  ghost predicate Final(log: seq<Event>, k: nat)
    requires k < |log| && log[k].Finished?
  {
    && k == |log| - 1 && (exists j :: FencedBy(log, j, k))
    && forall r :: 0 <= r < |log| && log[r].Recovered? ==> log[r].generation < log[k].generation
  }

  lemma FinishIsFinal(log: seq<Event>, k: nat)
    requires Story(log).Some? && k < |log| && log[k].Finished?
    ensures Final(log, k)
  {
    hide Story;
    FinishIsLast(log, k);
    OverAfterFinish(log, k);
    var j := FinishIsFenced(log, k);
    assert FencedBy(log, j, k);
  }

  /** The guarantees for every task after any interleaving of calls. */
  lemma EveryRunIsFenced(calls: seq<Call>, id: nat)
    requires id in Run(calls).tasks
    ensures var row, log := Run(calls).tasks[id], Of(Run(calls).log, id);
            && row.attempts == row.generation == Claims(log) <= Requeues(log) + 1
            && (!row.replaySafe ==> Claims(log) <= 1)
            && (forall i :: 0 <= i < |log| && log[i].Claimed? ==> log[i].generation == Claims(log[..i]) + 1)
            && (forall i, k :: 0 <= i < k < |log| && log[i].Claimed? && log[k].Claimed? ==>
                log[i].generation < log[k].generation)
            && (row.state == CLAIMED ==>
                exists j :: SinceClaim(log, j, |log|, row.claimedBy, row.token, row.generation))
            && (forall k :: 0 <= k < |log| && log[k].Finished? ==> row.state in {DONE, FAILED} && Final(log, k))
  {
    RunTells(calls);
    var t := Run(calls);
    var log := Of(t.log, id);
    assert ToldOf(t, id);
    hide *;
    ClaimsAreCounted(log);
    RowOfLife(t, id);
    forall i | 0 <= i < |log| && log[i].Claimed? ensures log[i].generation == Claims(log[..i]) + 1 {
      ClaimsAreNumbered(log, i);
    }
    forall i, k | 0 <= i < k < |log| && log[i].Claimed? && log[k].Claimed?
      ensures log[i].generation < log[k].generation {
      GenerationsRise(log, i, k);
    }
    if t.tasks[id].state == CLAIMED {
      var j := HeldIsSinceClaim(t, id);
      assert SinceClaim(log, j, |log|, t.tasks[id].claimedBy, t.tasks[id].token, t.tasks[id].generation);
    }
    forall k | 0 <= k < |log| && log[k].Finished? ensures t.tasks[id].state in {DONE, FAILED} && Final(log, k) {
      FinishIsFinal(log, k);
      OverAfterFinish(log, k);
    }
  }

  lemma HeldIsSinceClaim(t: Table, id: nat) returns (j: nat)
    requires id in t.tasks && Told(t) && t.tasks[id].state == CLAIMED
    ensures var row, log := t.tasks[id], Of(t.log, id);
            SinceClaim(log, j, |log|, row.claimedBy, row.token, row.generation)
  {
    hide Story;
    hide Of;
    assert ToldOf(t, id);
    j := HeldSinceClaim(Of(t.log, id));
  }

  lemma RowOfLife(t: Table, id: nat)
    requires id in t.tasks && Told(t)
    ensures var row, life := t.tasks[id], Story(Of(t.log, id));
            && life.Some? && !life.value.Absent? && life.value.safe == row.replaySafe
            && GenerationOf(life.value) == row.generation == row.attempts
            && (life.value.Over? ==> row.state in {DONE, FAILED})
  {
    hide Story;
    hide Of;
    assert ToldOf(t, id);
  }

  // ---- The table as it is updated in place ----

  lemma ExpiredStep(t: Table, now: real, limit: nat, ids: seq<nat>, id: nat)
    requires id < t.nextId && |ids| < limit
    ensures ids + ExpiredIds(t, now, limit - |ids|, id) ==
            if id in t.tasks && Expired(t.tasks[id], now)
            then (ids + [id]) + ExpiredIds(t, now, limit - |ids| - 1, id + 1)
            else ids + ExpiredIds(t, now, limit - |ids|, id + 1)
  {
    if id in t.tasks && Expired(t.tasks[id], now) {
      var rest := ExpiredIds(t, now, limit - |ids| - 1, id + 1);
      assert ids + ([id] + rest) == (ids + [id]) + rest;
    }
  }

  lemma ExpiredEnd(t: Table, now: real, limit: nat, ids: seq<nat>, id: nat)
    requires id >= t.nextId || limit == 0
    ensures ids + ExpiredIds(t, now, limit, id) == ids
  {
  }

  lemma RecoverStep(t: Table, ids: seq<nat>, k: nat, now: real)
    requires k < |ids|
    ensures RecoverAll(t, ids[k..], now) ==
            RecoverAll(if ids[k] in t.tasks && Expired(t.tasks[ids[k]], now)
                       then Put(t, ids[k], RecoveredRow(t.tasks[ids[k]], now),
                                Recovered(ids[k], t.tasks[ids[k]].generation, now))
                       else t, ids[k + 1..], now)
  {
    assert ids[k..][1..] == ids[k + 1..];
  }

  lemma RecoverDone(t: Table, now: real)
    ensures RecoverAll(t, [], now) == t
  {
  }

  lemma NextRecovers(t: Table, now: real, limit: int)
    ensures Next(t, Recover(now, limit)) == RecoverAll(t, ExpiredIds(t, now, Bounded(limit), 1), now)
  {
    hide RecoverAll;
    hide ExpiredIds;
  }

  class TaskTable {
    var tasks: map<nat, Task>
    var nextId: nat
    ghost var log: seq<Event>

    ghost function View(): Table
      reads this
    {
      Table(tasks, nextId, log)
    }

    constructor ()
      ensures View() == EMPTY
    {
      tasks, nextId, log := map[], 1, [];
    }

    method EnqueueTask(queue: string, kind: string, payload: string, now: real, available: Option<real>, safe: bool)
      returns (row: Task)
      modifies this
      ensures View() == old(Next(View(), Enqueue(queue, kind, payload, now, available, safe)))
      ensures row == tasks[old(nextId)]
    {
      row := NewRow(Enqueue(queue, kind, payload, now, available, safe));
      tasks := tasks[nextId := row];
      log := log + [Enqueued(nextId, safe)];
      nextId := nextId + 1;
    }

    method ClaimTask(queue: string, worker: string, now: real, leaseSeconds: int, instance: string, token: string)
      returns (row: Option<Task>)
      modifies this
      ensures View() == old(Next(View(), Claim(queue, worker, instance, now, leaseSeconds, token)))
      ensures row.Some? <==> old(FirstClaimable(View(), queue, now, 1)).Some?
      ensures row.Some? ==> row.value == tasks[old(FirstClaimable(View(), queue, now, 1)).value]
    {
      ghost var call := Claim(queue, worker, instance, now, leaseSeconds, token);
      var id := 1;
      while id < nextId && !(id in tasks && Claimable(tasks[id], queue, now))
        invariant 1 <= id
        invariant FirstClaimable(View(), queue, now, 1) == FirstClaimable(View(), queue, now, id)
        decreases nextId - id
      {
        id := id + 1;
      }
      if id >= nextId {
        return None;
      }
      var found := tasks[id];
      var claimed := found.(
        state := CLAIMED, claimedBy := worker, claimedInstance := Cut(instance, 128), claimTs := Some(now),
        leaseUntil := Some(Lease(now, leaseSeconds)), attempts := found.attempts + 1,
        generation := found.generation + 1, token := token, recoveryReason := "", updatedTs := now);
      tasks := tasks[id := claimed];
      log := log + [Claimed(id, worker, found.generation + 1, token, Lease(now, leaseSeconds))];
      row := Some(tasks[id]);
    }

    method RenewTask(id: int, worker: string, token: string, generation: int, now: real, leaseSeconds: int)
      returns (r: Result<Task, string>)
      modifies this
      ensures View() == old(Next(View(), Renew(id, worker, token, generation, now, leaseSeconds)))
      ensures r.Ok? <==> id >= 0 && id in old(tasks) && Holds(old(tasks)[id], worker, token, generation, now)
      ensures r.Ok? ==> r.value == tasks[id]
    {
      if id < 0 || id !in tasks || !Holds(tasks[id], worker, token, generation, now) {
        return Err("distributed task lease is stale or no longer owned by this worker");
      }
      tasks := tasks[id := tasks[id].(leaseUntil := Some(Lease(now, leaseSeconds)), updatedTs := now)];
      log := log + [Renewed(id, worker, generation, token, now, Lease(now, leaseSeconds))];
      r := Ok(tasks[id]);
    }

    method FinishTask(id: int, worker: string, now: real, ok: bool, outcome: string, error: string,
                      token: string, holds: Option<int>)
      returns (r: Result<Task, string>)
      modifies this
      ensures View() == old(Next(View(), Finish(id, worker, now, ok, outcome, error, token, holds)))
      ensures r.Ok? <==> token != "" && holds.Some? && id >= 0 && id in old(tasks)
                         && Holds(old(tasks)[id], worker, token, holds.value, now)
      ensures r.Ok? ==> r.value == tasks[id] && r.value.state == if ok then DONE else FAILED
    {
      if token == "" || holds.None? {
        return Err("claim_token and claim_generation are required to finish a distributed task");
      }
      if id < 0 || id !in tasks || !Holds(tasks[id], worker, token, holds.value, now) {
        return Err("distributed task finish rejected: stale/expired fencing token");
      }
      tasks := tasks[id := tasks[id].(state := if ok then DONE else FAILED, outcome := outcome, error := error,
                                      leaseUntil := None, updatedTs := now)];
      log := log + [Finished(id, worker, holds.value, token, now, ok)];
      r := Ok(tasks[id]);
    }

    /** The expired claims in id order, at most `limit`. */
    method SelectExpired(now: real, limit: nat) returns (ids: seq<nat>)
      ensures ids == ExpiredIds(View(), now, limit, 1)
    {
      hide ExpiredIds;
      ids := [];
      var id := 1;
      ghost var t := View();
      assert [] + ExpiredIds(t, now, limit, 1) == ExpiredIds(t, now, limit, 1);
      while id < nextId && |ids| < limit
        invariant 1 <= id && |ids| <= limit
        invariant ids + ExpiredIds(t, now, limit - |ids|, id) == ExpiredIds(t, now, limit, 1)
        decreases nextId - id
      {
        ExpiredStep(t, now, limit, ids, id);
        if id in tasks && Expired(tasks[id], now) {
          ids := ids + [id];
        }
        id := id + 1;
      }
      ExpiredEnd(t, now, limit - |ids|, ids, id);
    }

    method RecoverExpired(now: real, limit: int) returns (rows: seq<Task>)
      modifies this
      ensures View() == old(Next(View(), Recover(now, limit)))
      ensures var ids := old(ExpiredIds(View(), now, Bounded(limit), 1));
              |rows| == |ids| && forall k :: 0 <= k < |ids| ==> ids[k] in tasks && rows[k] == tasks[ids[k]]
    {
      hide Next;
      hide ExpiredIds;
      hide RecoverAll;
      hide Bounded;
      NextRecovers(View(), now, limit);
      var ids := SelectExpired(now, Bounded(limit));
      RecoverRows(now, ids);
      rows := seq(|ids|, k requires 0 <= k < |ids| && ids[k] in tasks reads this => tasks[ids[k]]);
    }

    method RecoverRows(now: real, ids: seq<nat>)
      requires forall k :: 0 <= k < |ids| ==> ids[k] in tasks
      modifies this
      ensures View() == old(RecoverAll(View(), ids, now)) && tasks.Keys == old(tasks.Keys)
    {
      hide RecoverAll;
      ghost var start := View();
      assert ids[0..] == ids;
      for k := 0 to |ids|
        invariant RecoverAll(View(), ids[k..], now) == RecoverAll(start, ids, now)
        invariant tasks.Keys == start.tasks.Keys
      {
        RecoverStep(View(), ids, k, now);
        var id := ids[k];
        if Expired(tasks[id], now) {
          log := log + [Recovered(id, tasks[id].generation, now)];
          tasks := tasks[id := RecoveredRow(tasks[id], now)];
        }
      }
      assert ids[|ids|..] == [];
      RecoverDone(View(), now);
    }

    method RequeueTask(id: int, now: real, reason: string) returns (r: Result<Task, string>)
      modifies this
      ensures View() == old(Next(View(), Requeue(id, now, reason)))
      ensures r.Ok? <==>
              id >= 0 && id in old(tasks) && old(tasks)[id].state == RECOVERY_REQUIRED && old(tasks)[id].replaySafe
      ensures r.Ok? ==> r.value == tasks[id] && r.value.state == PENDING && r.value.token == ""
    {
      if id < 0 || id !in tasks {
        return Err("unknown distributed task");
      }
      if tasks[id].state != RECOVERY_REQUIRED {
        return Err("only RECOVERY_REQUIRED distributed tasks can be requeued");
      }
      if !tasks[id].replaySafe {
        return Err("distributed task is not declared replay-safe; manual recovery is required");
      }
      tasks := tasks[id := tasks[id].(
        state := PENDING, claimedBy := "", claimedInstance := "", claimTs := None, leaseUntil := None, token := "",
        availableTs := now, recoveryReason := Cut(OrElse(reason, "explicit replay approved"), 500), updatedTs := now)];
      log := log + [Requeued(id)];
      r := Ok(tasks[id]);
    }
  }
}
