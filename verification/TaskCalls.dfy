/** What each call of the queue does to the rows, told by the table before and after it. */
module TaskCalls {
  import opened Common
  import opened TaskQueue

  /** Only the row `id` differs. */
  predicate OnlyRow(a: Table, b: Table, id: nat) {
    b.nextId == a.nextId && b.tasks.Keys == a.tasks.Keys
    && forall k :: k in a.tasks && k != id ==> b.tasks[k] == a.tasks[k]
  }

  /** What the sender of a task wrote is not touched by any later call. */
  predicate SameOrder(a: Task, b: Task) {
    && b.queue == a.queue && b.kind == a.kind && b.payload == a.payload && b.replaySafe == a.replaySafe
  }

  /** A waiting task of the queue whose time has come; no queue named means `default`. */
  predicate Due(t: Table, id: nat, queue: string, now: real) {
    id in t.tasks && t.tasks[id].state == PENDING && t.tasks[id].availableTs <= now
    && t.tasks[id].queue == (if |queue| == 0 then "default" else queue)
  }

  lemma EnqueueEffects(t: Table, queue: string, kind: string, payload: string, now: real, available: Option<real>,
                       safe: bool)
    requires Told(t)
    ensures var n := Next(t, Enqueue(queue, kind, payload, now, available, safe));
            && t.nextId !in t.tasks && n.nextId == t.nextId + 1 && n.tasks.Keys == t.tasks.Keys + {t.nextId}
            && (forall k :: k in t.tasks ==> n.tasks[k] == t.tasks[k])
            && var row := n.tasks[t.nextId];
               && row.queue == (if |queue| == 0 then "default" else queue) && row.kind == kind
               && row.payload == (if |payload| == 0 then "{}" else payload) && row.replaySafe == safe
               && row.state == PENDING && row.availableTs == (if available.Some? then available.value else now)
               && row.attempts == 0 && row.generation == 0 && row.token == "" && row.claimedBy == ""
               && row.leaseUntil == None && row.updatedTs == now
  {
  }

  /** The first due task goes to the worker, under a new generation, for at least five seconds; no task
      due, nothing changes. */
  lemma ClaimEffects(t: Table, queue: string, worker: string, instance: string, now: real, seconds: int, token: string)
    requires Told(t)
    ensures var n := Next(t, Claim(queue, worker, instance, now, seconds, token));
            && ((forall id :: !Due(t, id, queue, now)) ==> n == t)
            && forall id :: Due(t, id, queue, now) && (forall k :: k < id ==> !Due(t, k, queue, now)) ==>
                 && OnlyRow(t, n, id)
                 && var row := n.tasks[id];
                    && SameOrder(t.tasks[id], row) && row.state == CLAIMED && row.claimedBy == worker
                    && row.token == token && row.generation == t.tasks[id].generation + 1
                    && row.attempts == t.tasks[id].attempts + 1 && row.claimTs == Some(now)
                    && row.updatedTs == now && row.recoveryReason == ""
                    && row.claimedInstance == (if |instance| <= 128 then instance else instance[..128])
                    && row.leaseUntil.Some? && row.leaseUntil.value >= now + 5.0
                    && (seconds >= 5 ==> row.leaseUntil.value == now + seconds as real)
                    && (seconds < 5 ==> row.leaseUntil.value == now + 5.0)
  {
    DueIsClaimable(t, queue, now);
    var first := FirstClaimable(t, queue, now, 1);
    hide FirstClaimable;
    hide Claimable;
    forall id | Due(t, id, queue, now) && (forall k :: k < id ==> !Due(t, k, queue, now)) ensures first == Some(id) {
      KnownIds(t, id);
      if first.Some? {
        assert Due(t, first.value, queue, now);
      }
    }
  }

  lemma KnownIds(t: Table, id: nat)
    requires Told(t) && id in t.tasks
    ensures 1 <= id < t.nextId
  {
    hide ToldOf;
  }

  lemma DueIsClaimable(t: Table, queue: string, now: real)
    ensures forall id :: Due(t, id, queue, now) <==> id in t.tasks && Claimable(t.tasks[id], queue, now)
  {
  }

  /** The worker may still speak for a task: same claim, same generation, lease not run out. */
  predicate Speaks(t: Table, id: int, worker: string, token: string, generation: int, now: real) {
    && id >= 0 && id in t.tasks && t.tasks[id].state == CLAIMED && t.tasks[id].claimedBy == worker
    && t.tasks[id].token == token && t.tasks[id].generation == generation
    && t.tasks[id].leaseUntil.Some? && now <= t.tasks[id].leaseUntil.value
  }

  lemma RenewEffects(t: Table, id: int, worker: string, token: string, generation: int, now: real, seconds: int)
    ensures var n := Next(t, Renew(id, worker, token, generation, now, seconds));
            && (!Speaks(t, id, worker, token, generation, now) ==> n == t)
            && (Speaks(t, id, worker, token, generation, now) ==>
                  && OnlyRow(t, n, id)
                  && n.tasks[id] == t.tasks[id].(leaseUntil := n.tasks[id].leaseUntil, updatedTs := now)
                  && n.tasks[id].leaseUntil == Some(if seconds >= 5 then now + seconds as real else now + 5.0))
  {
  }

  lemma FinishEffects(t: Table, id: int, worker: string, now: real, ok: bool, outcome: string, error: string,
                      token: string, holds: Option<int>)
    ensures var n := Next(t, Finish(id, worker, now, ok, outcome, error, token, holds));
            var accepted := token != "" && holds.Some? && Speaks(t, id, worker, token, holds.value, now);
            && (!accepted ==> n == t)
            && (accepted ==>
                  && OnlyRow(t, n, id)
                  && n.tasks[id] == t.tasks[id].(state := n.tasks[id].state, outcome := outcome, error := error,
                                                 leaseUntil := None, updatedTs := now)
                  && n.tasks[id].state == if ok then DONE else FAILED)
  {
  }

  lemma RequeueEffects(t: Table, id: int, now: real, reason: string)
    ensures var n := Next(t, Requeue(id, now, reason));
            var accepted := id >= 0 && id in t.tasks && t.tasks[id].state == RECOVERY_REQUIRED
                            && t.tasks[id].replaySafe;
            && (!accepted ==> n == t)
            && (accepted ==>
                  && OnlyRow(t, n, id)
                  && var row := n.tasks[id];
                     && SameOrder(t.tasks[id], row) && row.state == PENDING && row.availableTs == now
                     && row.claimedBy == "" && row.claimedInstance == "" && row.token == "" && row.claimTs == None
                     && row.leaseUntil == None && row.generation == t.tasks[id].generation
                     && row.attempts == t.tasks[id].attempts && row.updatedTs == now
                     && (0 < |reason| <= 500 ==> row.recoveryReason == reason)
                     && (|reason| > 500 ==> row.recoveryReason == reason[..500]) && row.recoveryReason != "")
  {
  }

  // ---- Recovery ----

  /** A claim whose lease has run out. */
  predicate RanOut(t: Table, id: nat, now: real) {
    id in t.tasks && t.tasks[id].state == CLAIMED && t.tasks[id].leaseUntil.Some? && t.tasks[id].leaseUntil.value < now
  }

  /** No claim that ran out is passed over, unless the list is full and it comes later. */
  lemma {:induction false} ExpiredIdsComplete(t: Table, now: real, limit: nat, id: nat, k: nat)
    requires id <= k < t.nextId && RanOut(t, k, now)
    ensures var ids := ExpiredIds(t, now, limit, id);
            k in ids || (|ids| == limit && forall j :: 0 <= j < limit ==> ids[j] < k)
    decreases t.nextId - id
  {
    if limit > 0 && id < k {
      ExpiredIdsComplete(t, now, if id in t.tasks && Expired(t.tasks[id], now) then limit - 1 else limit, id + 1, k);
    }
  }

  lemma {:induction false} ExpiredIdsFew(t: Table, now: real, limit: nat, id: nat)
    ensures |ExpiredIds(t, now, limit, id)| <= limit
    decreases t.nextId - id
  {
    if id < t.nextId && limit > 0 {
      ExpiredIdsFew(t, now, if id in t.tasks && Expired(t.tasks[id], now) then limit - 1 else limit, id + 1);
    }
  }

  /** A quarantined row: the claim is kept for the record, its lease is gone. */
  predicate Quarantined(a: Task, b: Task, now: real) {
    b == a.(state := RECOVERY_REQUIRED, leaseUntil := None, recoveryReason := b.recoveryReason, updatedTs := now)
    && b.recoveryReason != ""
  }

  lemma {:induction false} RecoverAllIs(t: Table, ids: seq<nat>, now: real, k: nat)
    requires k in t.tasks && forall i, j :: 0 <= i < j < |ids| ==> ids[i] < ids[j]
    requires k in ids ==> RanOut(t, k, now)
    ensures k in RecoverAll(t, ids, now).tasks
    ensures k in ids ==> Quarantined(t.tasks[k], RecoverAll(t, ids, now).tasks[k], now)
    ensures k !in ids ==> RecoverAll(t, ids, now).tasks[k] == t.tasks[k]
    decreases |ids|
  {
    if ids != [] && k != ids[0] {
      var head := if ids[0] in t.tasks && Expired(t.tasks[ids[0]], now)
                  then Put(t, ids[0], RecoveredRow(t.tasks[ids[0]], now),
                           Recovered(ids[0], t.tasks[ids[0]].generation, now))
                  else t;
      RecoverAllIs(head, ids[1..], now, k);
      assert k in ids <==> k in ids[1..];
    } else if ids != [] {
      assert ids[0] !in ids[1..];
    }
  }

  /** Recovery quarantines the first claims that ran out, as many as allowed (between 1 and 5000), passes
      over none of them, and touches nothing else. */
  lemma RecoverEffects(t: Table, now: real, limit: int) returns (ids: seq<nat>)
    requires Told(t)
    ensures var most := if limit < 1 then 1 else if limit > 5000 then 5000 else limit;
            && |ids| <= most && (forall i, j :: 0 <= i < j < |ids| ==> ids[i] < ids[j])
            && (forall k: nat :: k in ids ==> RanOut(t, k, now))
            && (forall k: nat :: RanOut(t, k, now) && k !in ids ==>
                  |ids| == most && forall j :: 0 <= j < |ids| ==> ids[j] < k)
    ensures var n := Next(t, Recover(now, limit));
            && n.nextId == t.nextId
            && (forall k: nat :: k in n.tasks <==> k in t.tasks)
            && forall k: nat :: k in t.tasks ==>
                 if k in ids then Quarantined(t.tasks[k], n.tasks[k], now) else n.tasks[k] == t.tasks[k]
  {
    hide Told;
    ids := ExpiredIds(t, now, Bounded(limit), 1);
    ExpiredIdsFew(t, now, Bounded(limit), 1);
    hide ExpiredIds;
    hide RecoverAll;
    forall k: nat | RanOut(t, k, now)
      ensures k in ids || (|ids| == Bounded(limit) && forall j :: 0 <= j < |ids| ==> ids[j] < k)
    {
      KnownIds(t, k);
      ExpiredIdsComplete(t, now, Bounded(limit), 1, k);
    }
    forall k: nat | k in ids ensures RanOut(t, k, now) {
      var j :| 0 <= j < |ids| && ids[j] == k;
    }
    forall k: nat | k in t.tasks
      ensures k in RecoverAll(t, ids, now).tasks
              && if k in ids then Quarantined(t.tasks[k], RecoverAll(t, ids, now).tasks[k], now)
                 else RecoverAll(t, ids, now).tasks[k] == t.tasks[k]
    {
      RecoverAllIs(t, ids, now, k);
    }
  }
}
