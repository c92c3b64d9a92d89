/** What becomes of a run that is started again under its own source (campaigns.py:296-308) after the
    process died while the run was being compensated.

    A rollback does not touch the state of the transaction it undoes (structured_changes.py:415-448),
    so the engine still takes a rolled-back operation for done (structured_changes.py:127-136). */
module SagaReentry {
  import opened Common
  import opened Saga

  // ---- Where the process may die ----

  /** The network and the effective transactions of a run after its first operations. */
  datatype Point = Point(net: Net, changed: seq<nat>)

  function After(n: Net, io: Oracle, source: Source, ops: seq<Op>, m: nat): (r: Option<Point>)
    requires m <= |ops|
    ensures r.Some? ==> forall j :: 0 <= j < |r.value.changed| ==> r.value.changed[j] < |r.value.net.ledger|
    decreases m
  {
    if m == 0 then Some(Point(n, []))
    else
      var p := After(n, io, source, ops, m - 1);
      if p.None? then None
      else
        ExecuteGrows(p.value.net, io, OpOf(source, m), ops[m - 1]);
        var r := Execute(p.value.net, io, OpOf(source, m), ops[m - 1]);
        if r.tx.None? then None
        else Some(Point(r.net,
                        if r.net.ledger[r.tx.value].changed then p.value.changed + [r.tx.value] else p.value.changed))
  }

  /** The last `j` of the transactions handled by compensation, the others not yet. */
  function UndoLast(n: Net, io: Oracle, txs: seq<nat>, j: nat): (c: Net)
    requires j <= |txs| && forall k :: 0 <= k < |txs| ==> txs[k] < |n.ledger|
    ensures |n.ledger| <= |c.ledger|
    decreases j
  {
    if j == 0 then n
    else
      UndoGrows(n, io, txs[|txs| - 1]);
      UndoLast(Undo(n, io, txs[|txs| - 1]).net, io, txs[..|txs| - 1], j - 1)
  }

  /** A rollback that is written but not yet noted at the transaction it undoes. */
  function Torn(n: Net, io: Oracle, tx: nat): Net
    requires tx < |n.ledger|
  {
    var t := n.ledger[tx];
    if t.state != SUCCEEDED || !t.changed || t.pre.None? || Read(n.store, t.key) != Some(t.value) then n
    else Execute(n, io, UndoOf(tx), Op(t.key, t.pre.value)).net
  }

  /** The network when the process dies after operation `m` has failed and `j` compensations are done,
      or in the middle of the next one. `j` may be all of them. */
  function Crashed(n: Net, io: Oracle, source: Source, ops: seq<Op>, m: nat, j: nat, torn: bool): Option<Net>
    requires m < |ops|
  {
    var p := After(n, io, source, ops, m);
    if p.None? then None
    else
      ExecuteGrows(p.value.net, io, OpOf(source, m + 1), ops[m]);
      var r := Execute(p.value.net, io, OpOf(source, m + 1), ops[m]);
      var changed := p.value.changed;
      if r.tx.Some? || j > |changed| || (torn && j == |changed|) then None
      else
        var c := UndoLast(r.net, io, changed, j);
        Some(if torn then Torn(c, io, changed[|changed| - 1 - j]) else c)
  }

  /** Dying after the last compensation is the end of the failed run itself. */
  lemma {:induction false} UndoLastIsUndoAll(n: Net, io: Oracle, txs: seq<nat>)
    requires forall k :: 0 <= k < |txs| ==> txs[k] < |n.ledger|
    ensures UndoLast(n, io, txs, |txs|) == UndoAll(n, io, txs).net
    decreases |txs|
  {
    if txs != [] {
      UndoGrows(n, io, txs[|txs| - 1]);
      UndoLastIsUndoAll(Undo(n, io, txs[|txs| - 1]).net, io, txs[..|txs| - 1]);
    }
  }

  lemma {:induction false} AfterIsOnTheWay(n: Net, io: Oracle, source: Source, ops: seq<Op>, m: nat)
    requires m <= |ops| && After(n, io, source, ops, m).Some?
    ensures var p := After(n, io, source, ops, m).value;
            Apply(n, io, source, ops) == ApplyFrom(p.net, io, source, ops, m, p.changed)
    decreases m
  {
    hide Execute;
    hide UndoAll;
    if m > 0 {
      AfterIsOnTheWay(n, io, source, ops, m - 1);
    }
  }

  lemma EndOfFailedRun(n: Net, io: Oracle, source: Source, ops: seq<Op>, m: nat)
    requires m < |ops| && After(n, io, source, ops, m).Some?
    requires Execute(After(n, io, source, ops, m).value.net, io, OpOf(source, m + 1), ops[m]).tx.None?
    ensures var j := |After(n, io, source, ops, m).value.changed|;
            Crashed(n, io, source, ops, m, j, false) == Some(Apply(n, io, source, ops).net)
  {
    var p := After(n, io, source, ops, m).value;
    AfterIsOnTheWay(n, io, source, ops, m);
    ExecuteGrows(p.net, io, OpOf(source, m + 1), ops[m]);
    UndoLastIsUndoAll(Execute(p.net, io, OpOf(source, m + 1), ops[m]).net, io, p.changed);
    hide Execute;
    hide UndoAll;
    hide UndoLast;
    hide After;
  }

  // ---- What the restarted run passes over ----

  /** Operations from `m` on have no finished transaction in the ledger. */
  predicate Unsettled(ledger: seq<Tx>, source: Source, ops: seq<Op>, m: nat) {
    forall j :: m <= j < |ops| ==>
      var l := Latest(ledger, OpOf(source, j + 1), ops[j].key);
      l.Some? ==> ledger[l.value].state != SUCCEEDED
  }

  /** Compensation has only added rollbacks and noted them. */
  predicate Compensates(a: seq<Tx>, b: seq<Tx>) {
    && |a| <= |b|
    && (forall i :: 0 <= i < |a| ==> b[i] == a[i].(undoneBy := b[i].undoneBy))
    && (forall i :: |a| <= i < |b| ==> b[i].ref.UndoOf?)
  }

  lemma {:induction false} LatestStays(a: seq<Tx>, b: seq<Tx>, ref: Ref, key: Key)
    requires Compensates(a, b) && ref.OpOf?
    ensures Latest(b, ref, key) == Latest(a, ref, key)
  {
    var x, y := Latest(a, ref, key), Latest(b, ref, key);
    hide Latest;
    if x.Some? {
      assert b[x.value].ref == ref && b[x.value].key == key;
    }
    if y.Some? {
      assert y.value < |a|;
      assert a[y.value].ref == ref && a[y.value].key == key;
    }
  }

  lemma KnownStays(a: seq<Tx>, b: seq<Tx>, source: Source, ops: seq<Op>, m: nat)
    requires Compensates(a, b) && m <= |ops|
    ensures Known(a, source, ops, 0, m) ==> Known(b, source, ops, 0, m)
    ensures Unsettled(a, source, ops, m) ==> Unsettled(b, source, ops, m)
  {
    forall j | 0 <= j < |ops|
      ensures Latest(b, OpOf(source, j + 1), ops[j].key) == Latest(a, OpOf(source, j + 1), ops[j].key) {
      LatestStays(a, b, OpOf(source, j + 1), ops[j].key);
    }
    hide Latest;
  }

  /** A restarted run that succeeds adds to the device as it stands the operations that were not done. */
  lemma {:induction false} SuccessFrom(n: Net, io: Oracle, source: Source, ops: seq<Op>, k: nat, changed: seq<nat>)
    requires k <= |ops| && Unsettled(n.ledger, source, ops, k)
    requires forall j :: 0 <= j < |changed| ==> changed[j] < |n.ledger|
    requires ApplyFrom(n, io, source, ops, k, changed).ok
    ensures ApplyFrom(n, io, source, ops, k, changed).net.store == Wanted(n.store, ops[k..])
    decreases |ops| - k
  {
    if k < |ops| {
      var r := Execute(n, io, OpOf(source, k + 1), ops[k]);
      ExecuteUnsettled(n, io, source, ops, k);
      ExecuteGrows(n, io, OpOf(source, k + 1), ops[k]);
      assert ops[k..][0] == ops[k] && ops[k..][1..] == ops[k + 1..];
      hide Execute;
      hide Unsettled;
      if r.tx.Some? {
        SuccessFrom(r.net, io, source, ops, k + 1,
                    if r.net.ledger[r.tx.value].changed then changed + [r.tx.value] else changed);
      }
    }
  }

  /** A write that is not answered from the ledger adds one row under its own reference. */
  lemma ExecuteAppends(n: Net, io: Oracle, ref: Ref, op: Op)
    requires Latest(n.ledger, ref, op.key).Some? ==> n.ledger[Latest(n.ledger, ref, op.key).value].state != SUCCEEDED
    ensures var r := Execute(n, io, ref, op);
            && (r.tx.None? ==> r.net == n || (Appended(n, r.net, ref, op) && r.net.ledger[|n.ledger|].state == FAILED))
            && (r.tx.Some? ==> r.tx == Some(|n.ledger|) && r.net.store == n.store[op.key := op.value]
                               && Appended(n, r.net, ref, op) && r.net.ledger[|n.ledger|].state == SUCCEEDED)
  {
    hide Latest;
  }

  predicate Appended(n: Net, r: Net, ref: Ref, op: Op) {
    && |r.ledger| == |n.ledger| + 1 && r.ledger[..|n.ledger|] == n.ledger
    && var row := r.ledger[|n.ledger|]; row.ref == ref && row.key == op.key && row.value == op.value
  }

  lemma ExecuteUnsettled(n: Net, io: Oracle, source: Source, ops: seq<Op>, k: nat)
    requires k < |ops| && Unsettled(n.ledger, source, ops, k)
    ensures var r := Execute(n, io, OpOf(source, k + 1), ops[k]);
            r.tx.Some? ==>
              r.net.store == n.store[ops[k].key := ops[k].value] && Unsettled(r.net.ledger, source, ops, k + 1)
  {
    ExecuteAppends(n, io, OpOf(source, k + 1), ops[k]);
    var r := Execute(n, io, OpOf(source, k + 1), ops[k]);
    hide Execute;
    if r.tx.Some? {
      UnsettledStays(n, r.net, source, ops, k);
    }
  }

  lemma UnsettledStays(n: Net, r: Net, source: Source, ops: seq<Op>, k: nat)
    requires k < |ops| && Unsettled(n.ledger, source, ops, k) && Appended(n, r, OpOf(source, k + 1), ops[k])
    ensures Unsettled(r.ledger, source, ops, k + 1)
  {
    forall j | k + 1 <= j < |ops|
      ensures Latest(r.ledger, OpOf(source, j + 1), ops[j].key) == Latest(n.ledger, OpOf(source, j + 1), ops[j].key)
    {
    }
  }

  lemma ReenteredStore(c: Net, io: Oracle, source: Source, ops: seq<Op>, m: nat)
    requires m <= |ops| && Known(c.ledger, source, ops, 0, m) && Unsettled(c.ledger, source, ops, m)
    requires Apply(c, io, source, ops).ok
    ensures Apply(c, io, source, ops).net.store == Wanted(c.store, ops[m..])
  {
    KnownArePassed(c, io, source, ops, 0, m, []);
    hide ApplyFrom;
    hide Known;
    hide Unsettled;
    SuccessFrom(c, io, source, ops, m, [] + KnownChanges(c.ledger, source, ops, 0, m));
  }

  // ---- Operations and the values they leave ----

  /** The last operation on a resource. */
  function LastOp(ops: seq<Op>, key: Key): (r: Option<nat>)
    ensures r.Some? ==> r.value < |ops| && ops[r.value].key == key
  {
    if ops == [] then None
    else if ops[|ops| - 1].key == key then Some(|ops| - 1)
    else LastOp(ops[..|ops| - 1], key)
  }

  predicate IsLast(ops: seq<Op>, i: nat) {
    i < |ops| && forall j :: i < j < |ops| ==> ops[j].key != ops[i].key
  }

  lemma {:induction false} LastOpIs(ops: seq<Op>, key: Key)
    ensures LastOp(ops, key).None? ==> forall i :: 0 <= i < |ops| ==> ops[i].key != key
    ensures LastOp(ops, key).Some? ==> IsLast(ops, LastOp(ops, key).value)
    decreases |ops|
  {
    if ops != [] {
      LastOpIs(ops[..|ops| - 1], key);
    }
  }

  lemma {:induction false} WantedSnoc(s: Store, ops: seq<Op>, op: Op)
    ensures Wanted(s, ops + [op]) == Wanted(s, ops)[op.key := op.value]
    decreases |ops|
  {
    if ops == [] {
      assert ops + [op] == [op];
    } else {
      assert (ops + [op])[1..] == ops[1..] + [op];
      WantedSnoc(s[ops[0].key := ops[0].value], ops[1..], op);
    }
  }

  lemma {:induction false} WantedAt(s: Store, ops: seq<Op>, key: Key)
    ensures var last := LastOp(ops, key);
            Read(Wanted(s, ops), key) == if last.Some? then Some(ops[last.value].value) else Read(s, key)
    decreases |ops|
  {
    if ops != [] {
      var front, op := ops[..|ops| - 1], ops[|ops| - 1];
      assert ops == front + [op];
      WantedSnoc(s, front, op);
      WantedAt(s, front, key);
    }
  }

  lemma SameReads(a: Store, b: Store)
    requires forall k :: Read(a, k) == Read(b, k)
    ensures a == b
  {
    forall k ensures k in a <==> k in b {
      assert Read(a, k) == Read(b, k);
    }
    forall k | k in a ensures a[k] == b[k] {
      assert Read(a, k) == Read(b, k);
    }
  }

  /** What was passed over is still on the device: every operation below `m` that is the last on its
      resource. */
  predicate Intact(s: Store, ops: seq<Op>, m: nat) {
    forall i :: 0 <= i < m && IsLast(ops, i) ==> Read(s, ops[i].key) == Some(ops[i].value)
  }

  /** Two configurations differ only where an operation was sent. */
  ghost predicate SameElsewhere(a: Store, b: Store, ops: seq<Op>) {
    forall k :: (forall i :: 0 <= i < |ops| ==> ops[i].key != k) ==> Read(a, k) == Read(b, k)
  }

  lemma LastOfTail(ops: seq<Op>, m: nat, key: Key)
    requires m <= |ops|
    ensures var all, tail := LastOp(ops, key), LastOp(ops[m..], key);
            && (tail.Some? <==> all.Some? && all.value >= m)
            && (tail.Some? ==> ops[m..][tail.value].value == ops[all.value].value)
  {
    LastOpIs(ops, key);
    LastOpIs(ops[m..], key);
    var all, tail := LastOp(ops, key), LastOp(ops[m..], key);
    hide LastOp;
    assert forall i :: 0 <= i < |ops| - m ==> ops[m..][i] == ops[m + i];
    if all.Some? && all.value >= m {
      assert ops[m..][all.value - m].key == key;
    }
    if tail.Some? {
      assert ops[m + tail.value].key == key;
      assert all.Some? && all.value >= m + tail.value;
      assert ops[m..][all.value - m] == ops[all.value];
    }
  }

  lemma TailIsWantedIff(s0: Store, s: Store, ops: seq<Op>, m: nat)
    requires m <= |ops| && SameElsewhere(s0, s, ops)
    ensures Wanted(s, ops[m..]) == Wanted(s0, ops) <==> Intact(s, ops, m)
  {
    hide Wanted;
    hide LastOp;
    if Intact(s, ops, m) {
      forall k ensures Read(Wanted(s, ops[m..]), k) == Read(Wanted(s0, ops), k) {
        WantedAt(s, ops[m..], k);
        WantedAt(s0, ops, k);
        LastOpIs(ops, k);
        LastOfTail(ops, m, k);
      }
      SameReads(Wanted(s, ops[m..]), Wanted(s0, ops));
    }
    if Wanted(s, ops[m..]) == Wanted(s0, ops) {
      forall i | 0 <= i < m && IsLast(ops, i) ensures Read(s, ops[i].key) == Some(ops[i].value) {
        var k := ops[i].key;
        WantedAt(s, ops[m..], k);
        WantedAt(s0, ops, k);
        LastOpIs(ops, k);
        LastOfTail(ops, m, k);
      }
    }
  }

  // ---- What the ledger tells of the device ----

  /** The value of the newest successful transaction on a resource, operation or rollback, from row
      `start` on. */
  function NewestValue(ledger: seq<Tx>, start: nat, key: Key): Option<string> {
    if |ledger| <= start then None
    else
      var last := ledger[|ledger| - 1];
      if last.state == SUCCEEDED && last.key == key then Some(last.value)
      else NewestValue(ledger[..|ledger| - 1], start, key)
  }

  /** Outside `wild` the device shows what the ledger says was written last. */
  ghost predicate Tells(start: nat, c: Net, wild: set<Key>) {
    forall k :: k !in wild && NewestValue(c.ledger, start, k).Some? ==>
      Read(c.store, k) == NewestValue(c.ledger, start, k)
  }

  /** Since `n`, rows and values have changed on resources of `keys` only. */
  ghost predicate Trail(n: Net, c: Net, keys: set<Key>) {
    && |n.ledger| <= |c.ledger|
    && (forall i :: |n.ledger| <= i < |c.ledger| ==> c.ledger[i].key in keys)
    && (forall i :: 0 <= i < |n.ledger| ==> c.ledger[i].ref == n.ledger[i].ref)
    && (forall k :: k !in keys ==> Read(c.store, k) == Read(n.store, k))
  }

  /** At most one write to one resource, and one row for it. */
  ghost predicate Moved(a: Net, b: Net, io: Oracle, key: Key) {
    && |a.ledger| <= |b.ledger| <= |a.ledger| + 1
    && (forall i :: 0 <= i < |a.ledger| ==> b.ledger[i] == a.ledger[i].(undoneBy := b.ledger[i].undoneBy))
    && (forall k :: k != key ==> Read(b.store, k) == Read(a.store, k))
    && (|b.ledger| == |a.ledger| ==> b.store == a.store)
    && (|b.ledger| == |a.ledger| + 1 ==>
          var row := b.ledger[|a.ledger|];
          && row.key == key
          && (row.state == SUCCEEDED ==> Read(b.store, key) == Some(row.value))
          && (row.state != SUCCEEDED && !io(|a.ledger|).Mangled? ==> b.store == a.store))
  }

  lemma ExecuteMoves(n: Net, io: Oracle, ref: Ref, op: Op)
    ensures Moved(n, Execute(n, io, ref, op).net, io, op.key)
  {
    WriteMoves(n, io, ref, op);
    NothingMoves(n, io, op.key);
    hide Moved;
    hide Latest;
    hide Write;
  }

  lemma NothingMoves(n: Net, io: Oracle, key: Key)
    ensures Moved(n, n, io, key)
  {
  }

  lemma WriteMoves(n: Net, io: Oracle, ref: Ref, op: Op)
    ensures Moved(n, Write(n, io, ref, op).net, io, op.key)
  {
  }

  /** What a write leaves in the ledger. */
  lemma ExecuteState(n: Net, io: Oracle, ref: Ref, op: Op)
    ensures var r := Execute(n, io, ref, op);
            && |n.ledger| <= |r.net.ledger|
            && (r.net == n || Appended(n, r.net, ref, op))
            && (|r.net.ledger| > |n.ledger| ==>
                r.net.ledger[|n.ledger|].state == if r.tx.Some? then SUCCEEDED else FAILED)
  {
    hide Latest;
  }

  lemma UndoMoves(n: Net, io: Oracle, tx: nat)
    requires tx < |n.ledger|
    ensures Moved(n, Undo(n, io, tx).net, io, n.ledger[tx].key) && Compensates(n.ledger, Undo(n, io, tx).net.ledger)
    ensures Moved(n, Torn(n, io, tx), io, n.ledger[tx].key) && Compensates(n.ledger, Torn(n, io, tx).ledger)
  {
    var t := n.ledger[tx];
    NothingMoves(n, io, t.key);
    NothingCompensates(n.ledger);
    if t.pre.Some? {
      var r := Execute(n, io, UndoOf(tx), Op(t.key, t.pre.value));
      ExecuteMoves(n, io, UndoOf(tx), Op(t.key, t.pre.value));
      ExecuteState(n, io, UndoOf(tx), Op(t.key, t.pre.value));
      hide Execute;
      RollbackCompensates(n, r.net, tx);
      if r.tx.Some? {
        NotingMoves(n, r.net, io, t.key, tx, r.tx);
      }
    }
    hide Execute;
    hide Moved;
    hide Compensates;
    hide Read;
  }

  lemma NothingCompensates(ledger: seq<Tx>)
    ensures Compensates(ledger, ledger)
  {
  }

  lemma RollbackCompensates(n: Net, r: Net, tx: nat)
    requires tx < |n.ledger| && n.ledger[tx].pre.Some?
    requires r == n || Appended(n, r, UndoOf(tx), Op(n.ledger[tx].key, n.ledger[tx].pre.value))
    ensures Compensates(n.ledger, r.ledger) && tx < |r.ledger|
  {
    assert r != n ==> forall i :: 0 <= i < |n.ledger| ==> r.ledger[i] == r.ledger[..|n.ledger|][i];
  }

  /** Noting the rollback at the transaction makes no difference. */
  lemma NotingMoves(n: Net, r: Net, io: Oracle, key: Key, tx: nat, undo: Option<nat>)
    requires Moved(n, r, io, key) && Compensates(n.ledger, r.ledger) && tx < |n.ledger| && tx < |r.ledger|
    ensures var u := r.(ledger := r.ledger[tx := r.ledger[tx].(undoneBy := undo)]);
            Moved(n, u, io, key) && Compensates(n.ledger, u.ledger)
  {
    hide Read;
  }

  lemma {:induction false} NewestSame(a: seq<Tx>, b: seq<Tx>, start: nat, key: Key)
    requires |a| == |b| && forall i :: 0 <= i < |a| ==> b[i] == a[i].(undoneBy := b[i].undoneBy)
    ensures NewestValue(b, start, key) == NewestValue(a, start, key)
    decreases |a|
  {
    if |a| > start {
      NewestSame(a[..|a| - 1], b[..|b| - 1], start, key);
    }
  }

  lemma NewestMoved(a: Net, b: Net, io: Oracle, key: Key, start: nat, k: Key)
    requires Moved(a, b, io, key) && start <= |a.ledger|
    ensures NewestValue(b.ledger, start, k) ==
            if |b.ledger| > |a.ledger| && b.ledger[|a.ledger|].state == SUCCEEDED && k == key
            then Some(b.ledger[|a.ledger|].value) else NewestValue(a.ledger, start, k)
  {
    NewestSame(a.ledger, b.ledger[..|a.ledger|], start, k);
    if |b.ledger| == |a.ledger| {
      assert b.ledger[..|a.ledger|] == b.ledger;
    }
  }

  lemma TellsMoved(a: Net, b: Net, io: Oracle, key: Key, start: nat, wild: set<Key>)
    requires Moved(a, b, io, key) && start <= |a.ledger| && Tells(start, a, wild)
    requires |b.ledger| > |a.ledger| && b.ledger[|a.ledger|].state != SUCCEEDED && io(|a.ledger|).Mangled? ==>
             key in wild
    ensures Tells(start, b, wild)
  {
    hide NewestValue;
    forall k | k !in wild && NewestValue(b.ledger, start, k).Some?
      ensures Read(b.store, k) == NewestValue(b.ledger, start, k) {
      NewestMoved(a, b, io, key, start, k);
    }
  }

  lemma TrailMoved(n: Net, a: Net, b: Net, io: Oracle, key: Key, keys: set<Key>)
    requires Trail(n, a, keys) && Moved(a, b, io, key) && key in keys
    ensures Trail(n, b, keys)
  {
    hide Read;
    forall i | |n.ledger| <= i < |b.ledger| ensures b.ledger[i].key in keys {
      if i < |a.ledger| {
        assert b.ledger[i].key == a.ledger[i].key;
      }
    }
  }

  function OpKeys(ops: seq<Op>, m: nat): set<Key>
    requires m <= |ops|
  {
    set i | 0 <= i < m :: ops[i].key
  }

  /** On the way: the ledger tells of the device, and only resources of the operations are touched. */
  lemma {:induction false} AfterLeavesTrail(n: Net, io: Oracle, source: Source, ops: seq<Op>, m: nat)
    requires m <= |ops| && After(n, io, source, ops, m).Some? && FreshFrom(n.ledger, source, 0) && Sane(n.ledger)
    ensures var p := After(n, io, source, ops, m).value;
            && Reached(n, io, source, ops, m) == Some(p.net)
            && Trail(n, p.net, OpKeys(ops, m)) && Tells(|n.ledger|, p.net, {})
            && forall j :: 0 <= j < |p.changed| ==> |n.ledger| <= p.changed[j] < |p.net.ledger|
    decreases m
  {
    hide *;
    if m == 0 {
      AfterNothing(n, io, source, ops);
      NothingNewer(n);
    } else {
      AfterOneMore(n, io, source, ops, m);
      AfterLeavesTrail(n, io, source, ops, m - 1);
      var p := After(n, io, source, ops, m - 1).value;
      ReachedIsKnown(n, io, source, ops, m - 1);
      TrailIsLonger(n, p.net, OpKeys(ops, m - 1));
      OneMoreOnTrail(n, p.net, io, source, ops, m - 1);
      TrailIsLonger(n, Execute(p.net, io, OpOf(source, m), ops[m - 1]).net, OpKeys(ops, m));
      ChangedOneMore(n, io, source, ops, m);
    }
  }

  lemma AfterNothing(n: Net, io: Oracle, source: Source, ops: seq<Op>)
    ensures After(n, io, source, ops, 0) == Some(Point(n, [])) && Reached(n, io, source, ops, 0) == Some(n)
    ensures OpKeys(ops, 0) == {}
  {
  }

  lemma AfterOneMore(n: Net, io: Oracle, source: Source, ops: seq<Op>, m: nat)
    requires 0 < m <= |ops| && After(n, io, source, ops, m).Some?
    ensures After(n, io, source, ops, m - 1).Some?
    ensures var r := Execute(After(n, io, source, ops, m - 1).value.net, io, OpOf(source, m), ops[m - 1]);
            r.tx.Some? && After(n, io, source, ops, m).value.net == r.net
    ensures Reached(n, io, source, ops, m - 1) == Some(After(n, io, source, ops, m - 1).value.net) ==>
            Reached(n, io, source, ops, m) == Some(After(n, io, source, ops, m).value.net)
  {
    hide Execute;
  }

  lemma ChangedOneMore(n: Net, io: Oracle, source: Source, ops: seq<Op>, m: nat)
    requires 0 < m <= |ops| && After(n, io, source, ops, m).Some? && After(n, io, source, ops, m - 1).Some?
    requires var p := After(n, io, source, ops, m - 1).value;
             && FreshFrom(p.net.ledger, source, m - 1) && Sane(p.net.ledger) && |n.ledger| <= |p.net.ledger|
             && forall j :: 0 <= j < |p.changed| ==> |n.ledger| <= p.changed[j] < |p.net.ledger|
    ensures var q := After(n, io, source, ops, m).value;
            forall j :: 0 <= j < |q.changed| ==> |n.ledger| <= q.changed[j] < |q.net.ledger|
  {
    var p := After(n, io, source, ops, m - 1).value;
    ExecuteFresh(p.net, io, source, m - 1, ops[m - 1]);
    hide Execute;
  }

  lemma OneMoreOnTrail(n: Net, b: Net, io: Oracle, source: Source, ops: seq<Op>, m: nat)
    requires m < |ops| && Trail(n, b, OpKeys(ops, m)) && Tells(|n.ledger|, b, {}) && |n.ledger| <= |b.ledger|
    requires Execute(b, io, OpOf(source, m + 1), ops[m]).tx.Some?
    ensures var r := Execute(b, io, OpOf(source, m + 1), ops[m]);
            Trail(n, r.net, OpKeys(ops, m + 1)) && Tells(|n.ledger|, r.net, {})
  {
    hide *;
    var r := Execute(b, io, OpOf(source, m + 1), ops[m]);
    ExecuteMoves(b, io, OpOf(source, m + 1), ops[m]);
    TrailWidens(n, b, ops, m);
    KeyIsIn(ops, m);
    TrailMoved(n, b, r.net, io, ops[m].key, OpKeys(ops, m + 1));
    ExecuteState(b, io, OpOf(source, m + 1), ops[m]);
    TellsMoved(b, r.net, io, ops[m].key, |n.ledger|, {});
  }

  lemma NothingNewer(n: Net)
    ensures Trail(n, n, {}) && Tells(|n.ledger|, n, {})
  {
  }

  lemma TrailIsLonger(n: Net, c: Net, keys: set<Key>)
    requires Trail(n, c, keys)
    ensures |n.ledger| <= |c.ledger|
  {
  }

  lemma TrailWidens(n: Net, c: Net, ops: seq<Op>, m: nat)
    requires m < |ops| && Trail(n, c, OpKeys(ops, m))
    ensures Trail(n, c, OpKeys(ops, m + 1))
  {
    hide Read;
    assert OpKeys(ops, m) <= OpKeys(ops, m + 1);
  }

  lemma TrailKey(n: Net, c: Net, keys: set<Key>, tx: nat)
    requires Trail(n, c, keys) && |n.ledger| <= tx < |c.ledger|
    ensures c.ledger[tx].key in keys
  {
  }

  lemma CompensatesTrans(a: seq<Tx>, b: seq<Tx>, c: seq<Tx>)
    requires Compensates(a, b) && Compensates(b, c)
    ensures Compensates(a, c)
  {
    forall i | |a| <= i < |c| ensures c[i].ref.UndoOf? {
      if i < |b| {
        assert c[i].ref == b[i].ref;
      }
    }
  }

  lemma {:induction false} UndoLastLeavesTrail(n: Net, c: Net, io: Oracle, txs: seq<nat>, j: nat, keys: set<Key>,
                                               wild: set<Key>)
    requires j <= |txs| && (forall k :: 0 <= k < |txs| ==> |n.ledger| <= txs[k] < |c.ledger|)
    requires Trail(n, c, keys)
    ensures var d := UndoLast(c, io, txs, j);
            && Trail(n, d, keys) && Compensates(c.ledger, d.ledger)
            && (Tells(|n.ledger|, c, wild) && NeverMangles(io, |c.ledger|, |d.ledger|) ==> Tells(|n.ledger|, d, wild))
    decreases j
  {
    hide *;
    if j == 0 {
      UndoNothing(c, io, txs);
    } else {
      var tx := txs[|txs| - 1];
      UndoOne(c, io, txs, j);
      TrailKey(n, c, keys, tx);
      UndoMoves(c, io, tx);
      var u := Undo(c, io, tx).net;
      TrailMoved(n, c, u, io, c.ledger[tx].key, keys);
      CompensatesGrows(c.ledger, u.ledger);
      UndoLastLeavesTrail(n, u, io, txs[..|txs| - 1], j - 1, keys, wild);
      var d := UndoLast(u, io, txs[..|txs| - 1], j - 1);
      CompensatesTrans(c.ledger, u.ledger, d.ledger);
      CompensatesGrows(u.ledger, d.ledger);
      TrailIsLonger(n, c, keys);
      if Tells(|n.ledger|, c, wild) && NeverMangles(io, |c.ledger|, |d.ledger|) {
        NeverManglesParts(io, |c.ledger|, |u.ledger|, |d.ledger|);
        TellsMoved(c, u, io, c.ledger[tx].key, |n.ledger|, wild);
      }
    }
  }

  lemma UndoNothing(c: Net, io: Oracle, txs: seq<nat>)
    requires forall k :: 0 <= k < |txs| ==> txs[k] < |c.ledger|
    ensures UndoLast(c, io, txs, 0) == c && Compensates(c.ledger, c.ledger)
  {
  }

  lemma UndoOne(c: Net, io: Oracle, txs: seq<nat>, j: nat)
    requires 0 < j <= |txs| && forall k :: 0 <= k < |txs| ==> txs[k] < |c.ledger|
    ensures var u := Undo(c, io, txs[|txs| - 1]).net;
            |c.ledger| <= |u.ledger| && UndoLast(c, io, txs, j) == UndoLast(u, io, txs[..|txs| - 1], j - 1)
  {
    UndoGrows(c, io, txs[|txs| - 1]);
    hide Undo;
  }

  lemma CompensatesGrows(a: seq<Tx>, b: seq<Tx>)
    requires Compensates(a, b)
    ensures |a| <= |b|
  {
  }

  lemma NeverManglesParts(io: Oracle, from: nat, mid: nat, to: nat)
    requires NeverMangles(io, from, to) && from <= mid <= to
    ensures NeverMangles(io, mid, to) && (mid > from ==> !io(from).Mangled?)
  {
  }

  // ---- The network a dying compensation leaves ----

  /** The row of the failed operation, behind which the rollbacks stand. */
  function FailedRow(n: Net, io: Oracle, source: Source, ops: seq<Op>, m: nat): nat
    requires m < |ops| && After(n, io, source, ops, m).Some?
  {
    |After(n, io, source, ops, m).value.net.ledger|
  }

  lemma CrashedLeaves(n: Net, io: Oracle, source: Source, ops: seq<Op>, m: nat, j: nat, torn: bool)
    requires m < |ops| && FreshFrom(n.ledger, source, 0) && Sane(n.ledger)
    requires After(n, io, source, ops, m).Some? && Crashed(n, io, source, ops, m, j, torn).Some?
    ensures var c := Crashed(n, io, source, ops, m, j, torn).value;
            && Known(c.ledger, source, ops, 0, m) && Unsettled(c.ledger, source, ops, m)
            && Trail(n, c, OpKeys(ops, m + 1))
            && (NeverMangles(io, FailedRow(n, io, source, ops, m) + 1, |c.ledger|) ==>
                Tells(|n.ledger|, c, {ops[m].key}))
  {
    hide *;
    CrashedIs(n, io, source, ops, m, j, torn);
    AfterLeavesTrail(n, io, source, ops, m);
    var p := After(n, io, source, ops, m).value;
    var r := Execute(p.net, io, OpOf(source, m + 1), ops[m]);
    ReachedIsKnown(n, io, source, ops, m);
    FailsUnsettled(p.net, io, source, ops, m);
    TrailIsLonger(n, p.net, OpKeys(ops, m));
    FailureOnTrail(n, p.net, io, source, ops, m);
    var d := UndoLast(r.net, io, p.changed, j);
    UndoLastLeavesTrail(n, r.net, io, p.changed, j, OpKeys(ops, m + 1), {ops[m].key});
    CompensatesGrows(r.net.ledger, d.ledger);
    if torn {
      TornLeavesTrail(n, r.net, d, io, p.changed[|p.changed| - 1 - j], OpKeys(ops, m + 1), {ops[m].key});
    }
    KnownStays(r.net.ledger, Crashed(n, io, source, ops, m, j, torn).value.ledger, source, ops, m);
  }

  lemma FailureOnTrail(n: Net, b: Net, io: Oracle, source: Source, ops: seq<Op>, m: nat)
    requires m < |ops| && Trail(n, b, OpKeys(ops, m)) && Tells(|n.ledger|, b, {}) && |n.ledger| <= |b.ledger|
    ensures var r := Execute(b, io, OpOf(source, m + 1), ops[m]);
            Trail(n, r.net, OpKeys(ops, m + 1)) && Tells(|n.ledger|, r.net, {ops[m].key})
  {
    hide *;
    var r := Execute(b, io, OpOf(source, m + 1), ops[m]);
    ExecuteMoves(b, io, OpOf(source, m + 1), ops[m]);
    TrailWidens(n, b, ops, m);
    KeyIsIn(ops, m);
    TrailMoved(n, b, r.net, io, ops[m].key, OpKeys(ops, m + 1));
    TellsLess(|n.ledger|, b, {ops[m].key});
    ExecuteState(b, io, OpOf(source, m + 1), ops[m]);
    TellsMoved(b, r.net, io, ops[m].key, |n.ledger|, {ops[m].key});
  }

  lemma TornLeavesTrail(n: Net, r: Net, d: Net, io: Oracle, tx: nat, keys: set<Key>, wild: set<Key>)
    requires Trail(n, d, keys) && Compensates(r.ledger, d.ledger) && |r.ledger| <= |d.ledger|
             && |n.ledger| <= tx < |d.ledger|
    requires NeverMangles(io, |r.ledger|, |d.ledger|) ==> Tells(|n.ledger|, d, wild)
    ensures var c := Torn(d, io, tx);
            && Trail(n, c, keys) && Compensates(r.ledger, c.ledger)
            && (NeverMangles(io, |r.ledger|, |c.ledger|) ==> Tells(|n.ledger|, c, wild))
  {
    hide *;
    var c := Torn(d, io, tx);
    TrailKey(n, d, keys, tx);
    UndoMoves(d, io, tx);
    TrailMoved(n, d, c, io, d.ledger[tx].key, keys);
    CompensatesTrans(r.ledger, d.ledger, c.ledger);
    CompensatesGrows(d.ledger, c.ledger);
    if NeverMangles(io, |r.ledger|, |c.ledger|) {
      NeverManglesParts(io, |r.ledger|, |d.ledger|, |c.ledger|);
      NeverManglesFront(io, |r.ledger|, |d.ledger|, |c.ledger|);
      NeverManglesParts(io, |d.ledger|, |c.ledger|, |c.ledger|);
      TellsMoved(d, c, io, d.ledger[tx].key, |n.ledger|, wild);
    }
  }

  lemma NeverManglesFront(io: Oracle, from: nat, mid: nat, to: nat)
    requires NeverMangles(io, from, to) && from <= mid <= to
    ensures NeverMangles(io, from, mid)
  {
  }

  lemma KeyIsIn(ops: seq<Op>, m: nat)
    requires m < |ops|
    ensures ops[m].key in OpKeys(ops, m + 1)
  {
  }

  lemma TellsLess(start: nat, c: Net, wild: set<Key>)
    requires Tells(start, c, {})
    ensures Tells(start, c, wild)
  {
    hide NewestValue;
  }

  lemma CrashedIs(n: Net, io: Oracle, source: Source, ops: seq<Op>, m: nat, j: nat, torn: bool)
    requires m < |ops| && After(n, io, source, ops, m).Some? && Crashed(n, io, source, ops, m, j, torn).Some?
    ensures var p := After(n, io, source, ops, m).value;
            var r := Execute(p.net, io, OpOf(source, m + 1), ops[m]);
            && r.tx.None? && j <= |p.changed| && (torn ==> j < |p.changed|)
            && |p.net.ledger| <= |r.net.ledger| && FailedRow(n, io, source, ops, m) == |p.net.ledger|
            && (forall k :: 0 <= k < |p.changed| ==> p.changed[k] < |r.net.ledger|)
            && |r.net.ledger| <= |UndoLast(r.net, io, p.changed, j).ledger|
            && Crashed(n, io, source, ops, m, j, torn) ==
               Some(if torn then Torn(UndoLast(r.net, io, p.changed, j), io, p.changed[|p.changed| - 1 - j])
                    else UndoLast(r.net, io, p.changed, j))
  {
    hide *;
    var p := After(n, io, source, ops, m).value;
    ExecuteGrows(p.net, io, OpOf(source, m + 1), ops[m]);
    CrashedMeans(n, io, source, ops, m, j, torn, p, Execute(p.net, io, OpOf(source, m + 1), ops[m]));
  }

  lemma CrashedMeans(n: Net, io: Oracle, source: Source, ops: seq<Op>, m: nat, j: nat, torn: bool, p: Point, r: Ran)
    requires m < |ops| && After(n, io, source, ops, m) == Some(p) && Crashed(n, io, source, ops, m, j, torn).Some?
    requires r == Execute(p.net, io, OpOf(source, m + 1), ops[m]) && p.net.ledger <= r.net.ledger
    ensures r.tx.None? && j <= |p.changed| && (torn ==> j < |p.changed|)
            && FailedRow(n, io, source, ops, m) == |p.net.ledger|
    ensures forall k :: 0 <= k < |p.changed| ==> p.changed[k] < |r.net.ledger|
    ensures Crashed(n, io, source, ops, m, j, torn) ==
            Some(if torn then Torn(UndoLast(r.net, io, p.changed, j), io, p.changed[|p.changed| - 1 - j])
                 else UndoLast(r.net, io, p.changed, j))
  {
    hide Execute;
    hide UndoLast;
    hide Torn;
    hide After;
  }

  /** A failed operation leaves one failed row, so it will be sent again. */
  lemma FailsUnsettled(b: Net, io: Oracle, source: Source, ops: seq<Op>, m: nat)
    requires m < |ops| && Known(b.ledger, source, ops, 0, m) && FreshFrom(b.ledger, source, m) && Sane(b.ledger)
    requires Execute(b, io, OpOf(source, m + 1), ops[m]).tx.None?
    ensures var r := Execute(b, io, OpOf(source, m + 1), ops[m]);
            && Known(r.net.ledger, source, ops, 0, m) && Unsettled(r.net.ledger, source, ops, m)
            && |r.net.ledger| == |b.ledger| + 1
  {
    var r := Execute(b, io, OpOf(source, m + 1), ops[m]);
    ExecuteFresh(b, io, source, m, ops[m]);
    ExecuteState(b, io, OpOf(source, m + 1), ops[m]);
    hide Execute;
    StillKnown(b.ledger, r.net.ledger, source, ops, 0, m);
    FailedIsUnsettled(r.net.ledger, source, ops, m);
  }

  lemma FailedIsUnsettled(ledger: seq<Tx>, source: Source, ops: seq<Op>, m: nat)
    requires m < |ops| && FreshFrom(ledger, source, m + 1) && ledger != []
    requires var row := ledger[|ledger| - 1];
             row.ref == OpOf(source, m + 1) && row.key == ops[m].key && row.state == FAILED
    ensures Unsettled(ledger, source, ops, m)
  {
    assert Latest(ledger, OpOf(source, m + 1), ops[m].key) == Some(|ledger| - 1);
    hide Latest;
    forall j | m < j < |ops| ensures Latest(ledger, OpOf(source, j + 1), ops[j].key).None? {
      LaterIsUnknown(ledger, source, m, j, ops[j].key);
    }
  }

  lemma LaterIsUnknown(ledger: seq<Tx>, source: Source, m: nat, j: nat, key: Key)
    requires FreshFrom(ledger, source, m + 1) && m < j
    ensures Latest(ledger, OpOf(source, j + 1), key).None?
  {
  }

  // ---- When starting again is right ----

  /** A run that died while it was being compensated, started again under its source, and successful:
      it leaves the wanted configuration exactly when every operation it passed over, unless a later
      one on the same resource follows, still stood on the device when it was started. */
  lemma ReentryIsRightIffIntact(n: Net, io: Oracle, source: Source, ops: seq<Op>, m: nat, j: nat, torn: bool)
    requires m < |ops| && FreshFrom(n.ledger, source, 0) && Sane(n.ledger)
    requires After(n, io, source, ops, m).Some? && Crashed(n, io, source, ops, m, j, torn).Some?
    requires Apply(Crashed(n, io, source, ops, m, j, torn).value, io, source, ops).ok
    ensures var c := Crashed(n, io, source, ops, m, j, torn).value;
            Apply(c, io, source, ops).net.store == Wanted(n.store, ops) <==> Intact(c.store, ops, m)
  {
    hide *;
    var c := Crashed(n, io, source, ops, m, j, torn).value;
    CrashedLeaves(n, io, source, ops, m, j, torn);
    ReenteredStore(c, io, source, ops, m);
    TrailElsewhere(n, c, ops, m);
    TailIsWantedIff(n.store, c.store, ops, m);
  }

  lemma TrailElsewhere(n: Net, c: Net, ops: seq<Op>, m: nat)
    requires m < |ops| && Trail(n, c, OpKeys(ops, m + 1))
    ensures SameElsewhere(n.store, c.store, ops)
  {
    hide Read;
  }

  /** A failed run whose compensation went through leaves the device as it was found. Starting it again
      under its source is right exactly when the operations it passes over want what was there before
      the first start anyway. */
  lemma ReentryAfterFullCompensation(n: Net, io: Oracle, source: Source, ops: seq<Op>, m: nat)
    requires m < |ops| && FreshFrom(n.ledger, source, 0) && Sane(n.ledger) && After(n, io, source, ops, m).Some?
    requires Execute(After(n, io, source, ops, m).value.net, io, OpOf(source, m + 1), ops[m]).tx.None?
    requires var a := Apply(n, io, source, ops);
             a.compensated && NeverMangles(io, |n.ledger|, |a.net.ledger|) && Apply(a.net, io, source, ops).ok
    ensures var a := Apply(n, io, source, ops);
            a.net.store == n.store
            && (Apply(a.net, io, source, ops).net.store == Wanted(n.store, ops) <==> Intact(n.store, ops, m))
  {
    hide *;
    UnderwayAtStart(n, source);
    var p := After(n, io, source, ops, m).value;
    EndOfFailedRun(n, io, source, ops, m);
    ReentryIsRightIffIntact(n, io, source, ops, m, |p.changed|, false);
    WholeRun(n, io, source, ops);
    ApplyRestores(n, io, source, ops, 0, [], n.store);
    FailsHere(n, io, source, ops, m);
  }

  lemma FailsHere(n: Net, io: Oracle, source: Source, ops: seq<Op>, m: nat)
    requires m < |ops| && After(n, io, source, ops, m).Some?
    requires Execute(After(n, io, source, ops, m).value.net, io, OpOf(source, m + 1), ops[m]).tx.None?
    ensures !Apply(n, io, source, ops).ok
  {
    AfterIsOnTheWay(n, io, source, ops, m);
    hide Execute;
    hide After;
    hide UndoAll;
  }

  /** The ledger's side of it: on every resource the newest success, rollbacks included, wrote what the
      last of the operations passed over wants. */
  predicate IntactInLedger(ledger: seq<Tx>, start: nat, ops: seq<Op>, m: nat) {
    forall i :: 0 <= i < m && IsLast(ops, i) ==> NewestValue(ledger, start, ops[i].key) == Some(ops[i].value)
  }

  lemma {:induction false} SuccessIsNewest(ledger: seq<Tx>, start: nat, key: Key, i: nat)
    requires start <= i < |ledger| && ledger[i].state == SUCCEEDED && ledger[i].key == key
    ensures NewestValue(ledger, start, key).Some?
    decreases |ledger|
  {
    if i < |ledger| - 1 {
      SuccessIsNewest(ledger[..|ledger| - 1], start, key, i);
    }
  }

  /** As long as no rollback was garbled, the ledger alone tells before the restart whether it will be
      right. */
  lemma ReentryIsRightIffLedgerSaysSo(n: Net, io: Oracle, source: Source, ops: seq<Op>, m: nat, j: nat, torn: bool)
    requires m < |ops| && FreshFrom(n.ledger, source, 0) && Sane(n.ledger)
    requires After(n, io, source, ops, m).Some? && Crashed(n, io, source, ops, m, j, torn).Some?
    requires var c := Crashed(n, io, source, ops, m, j, torn).value;
             NeverMangles(io, FailedRow(n, io, source, ops, m) + 1, |c.ledger|) && Apply(c, io, source, ops).ok
    ensures var c := Crashed(n, io, source, ops, m, j, torn).value;
            Apply(c, io, source, ops).net.store == Wanted(n.store, ops) <==>
              IntactInLedger(c.ledger, |n.ledger|, ops, m)
  {
    hide *;
    var c := Crashed(n, io, source, ops, m, j, torn).value;
    ReentryIsRightIffIntact(n, io, source, ops, m, j, torn);
    CrashedLeaves(n, io, source, ops, m, j, torn);
    LedgerTells(n, c, source, ops, m);
  }

  lemma LedgerTells(n: Net, c: Net, source: Source, ops: seq<Op>, m: nat)
    requires m < |ops| && FreshFrom(n.ledger, source, 0) && Known(c.ledger, source, ops, 0, m)
    requires Trail(n, c, OpKeys(ops, m + 1)) && Tells(|n.ledger|, c, {ops[m].key})
    ensures Intact(c.store, ops, m) <==> IntactInLedger(c.ledger, |n.ledger|, ops, m)
  {
    forall i | 0 <= i < m && IsLast(ops, i)
      ensures Read(c.store, ops[i].key) == NewestValue(c.ledger, |n.ledger|, ops[i].key)
    {
      LedgerTellsOf(n, c, source, ops, m, i);
    }
    hide NewestValue;
    hide Read;
    hide Trail;
    hide Tells;
    hide Known;
    hide FreshFrom;
    hide IsLast;
  }

  lemma LedgerTellsOf(n: Net, c: Net, source: Source, ops: seq<Op>, m: nat, i: nat)
    requires m < |ops| && FreshFrom(n.ledger, source, 0) && Known(c.ledger, source, ops, 0, m)
    requires Trail(n, c, OpKeys(ops, m + 1)) && Tells(|n.ledger|, c, {ops[m].key})
    requires i < m && IsLast(ops, i)
    ensures Read(c.store, ops[i].key) == NewestValue(c.ledger, |n.ledger|, ops[i].key)
  {
    hide *;
    LastDiffers(ops, m, i);
    PassedIsNew(n, c, source, ops, m, i);
    var tx := Latest(c.ledger, OpOf(source, i + 1), ops[i].key).value;
    SuccessIsNewest(c.ledger, |n.ledger|, ops[i].key, tx);
    TellsAt(|n.ledger|, c, {ops[m].key}, ops[i].key);
  }

  lemma LastDiffers(ops: seq<Op>, m: nat, i: nat)
    requires i < m < |ops| && IsLast(ops, i)
    ensures ops[i].key !in {ops[m].key}
  {
  }

  lemma TellsAt(start: nat, c: Net, wild: set<Key>, k: Key)
    requires Tells(start, c, wild) && k !in wild && NewestValue(c.ledger, start, k).Some?
    ensures Read(c.store, k) == NewestValue(c.ledger, start, k)
  {
  }

  /** The transaction of an operation passed over is one of this run. */
  lemma PassedIsNew(n: Net, c: Net, source: Source, ops: seq<Op>, m: nat, i: nat)
    requires i < m < |ops| && FreshFrom(n.ledger, source, 0) && Known(c.ledger, source, ops, 0, m)
    requires Trail(n, c, OpKeys(ops, m + 1))
    ensures var l := Latest(c.ledger, OpOf(source, i + 1), ops[i].key);
            l.Some? && |n.ledger| <= l.value < |c.ledger| && c.ledger[l.value].state == SUCCEEDED
            && c.ledger[l.value].key == ops[i].key
  {
    var l := Latest(c.ledger, OpOf(source, i + 1), ops[i].key);
    hide Latest;
    hide OpKeys;
    hide Read;
    forall t | 0 <= t < |n.ledger| ensures c.ledger[t].ref != OpOf(source, i + 1) {
      assert c.ledger[t].ref == n.ledger[t].ref;
    }
  }
}
