/** Structured configuration transactions with compensation: the engine of structured_changes.py
    as desired_state.py uses it, device by device, operation by operation.

    `Net` is the live configuration and the durable ledger. What the network does with a write is
    given by an oracle over ledger positions, so that every statement holds for every pattern of
    failures. */
module Saga {
  import opened Common

  datatype Key = Key(device: string, resource: string)

  type Store = map<Key, string>

  /** The fate of a write: it works and is verified; it fails and the old value stays (a refused
      read or write, or a mismatch that was compensated on the spot); or it fails and leaves the
      resource in some other state. */
  datatype Fault = Good | Refused | Mangled(left: Option<string>)

  type Oracle = nat -> Fault

  /** Where a write comes from. An operation of a desired-state run carries the run's source and its
      own number, a rollback the transaction it undoes; each is an idempotency key. */
  datatype Ref = OpOf(source: Source, op: nat) | UndoOf(tx: nat)

  datatype Source = Attempt(campaign: nat, target: nat, attempt: nat)

  datatype TxState = SUCCEEDED | FAILED | RUNNING

  datatype Tx = Tx(ref: Ref, key: Key, value: string, state: TxState, pre: Option<string>, changed: bool,
                   undoneBy: Option<nat>)

  datatype Net = Net(store: Store, ledger: seq<Tx>)

  datatype Op = Op(key: Key, value: string)

  function Read(s: Store, k: Key): Option<string> {
    if k in s then Some(s[k]) else None
  }

  /** The newest transaction with this idempotency key. */
  function Latest(ledger: seq<Tx>, ref: Ref, key: Key): (r: Option<nat>)
    ensures r.Some? ==> r.value < |ledger| && ledger[r.value].ref == ref && ledger[r.value].key == key
    ensures r.None? ==> forall i :: 0 <= i < |ledger| ==> !(ledger[i].ref == ref && ledger[i].key == key)
    ensures forall i :: (if r.Some? then r.value else -1) < i < |ledger| ==>
            !(ledger[i].ref == ref && ledger[i].key == key)
  {
    if ledger == [] then None
    else
      var last := |ledger| - 1;
      if ledger[last].ref == ref && ledger[last].key == key then Some(last) else Latest(ledger[..last], ref, key)
  }

  /** A call of the engine: the network afterwards and the transaction, or none when it raised. */
  datatype Ran = Ran(net: Net, tx: Option<nat>)

  /** The live value is read before anything is written. A resource that is not there cannot be read
      (structured_protocols.py:517-562), so nothing is sent to it. */
  function Write(n: Net, io: Oracle, ref: Ref, op: Op): Ran {
    var id, pre := |n.ledger|, Read(n.store, op.key);
    var failed := Tx(ref, op.key, op.value, FAILED, pre, false, None);
    match io(id)
    case Refused => Ran(n.(ledger := n.ledger + [failed]), None)
    case fate =>
      if pre.None? then
        Ran(n.(ledger := n.ledger + [failed]), None)
      else if pre == Some(op.value) then
        Ran(n.(ledger := n.ledger + [failed.(state := SUCCEEDED)]), Some(id))
      else if fate.Mangled? then
        Ran(Net(if fate.left.Some? then n.store[op.key := fate.left.value] else n.store - {op.key},
                n.ledger + [failed]), None)
      else
        Ran(Net(n.store[op.key := op.value], n.ledger + [failed.(state := SUCCEEDED, changed := true)]), Some(id))
  }

  /** A finished transaction with the same key is returned as it is; one still running is in the way. */
  function Execute(n: Net, io: Oracle, ref: Ref, op: Op): (r: Ran)
    ensures r.tx.Some? ==> r.tx.value < |r.net.ledger| && r.net.ledger[r.tx.value].state == SUCCEEDED
  {
    var known := Latest(n.ledger, ref, op.key);
    if known.Some? && n.ledger[known.value].state == SUCCEEDED then Ran(n, known)
    else if known.Some? && n.ledger[known.value].state == RUNNING then Ran(n, None)
    else Write(n, io, ref, op)
  }

  datatype Undone = Undone(net: Net, ok: bool)

  /** A rollback is refused for a transaction that changed nothing or had nothing to go back to, and
      when the live value is no longer the one the transaction left. */
  function Undo(n: Net, io: Oracle, tx: nat): Undone
    requires tx < |n.ledger|
  {
    var t := n.ledger[tx];
    if t.state != SUCCEEDED || !t.changed || t.pre.None? then Undone(n, false)
    else if t.undoneBy.Some? && t.undoneBy.value < |n.ledger|
      && n.ledger[t.undoneBy.value].state == SUCCEEDED then Undone(n, true)
    else if Read(n.store, t.key) != Some(t.value) then Undone(n, false)
    else
      var r := Execute(n, io, UndoOf(tx), Op(t.key, t.pre.value));
      if r.tx.None? || tx >= |r.net.ledger| then Undone(r.net, false)
      else Undone(r.net.(ledger := r.net.ledger[tx := r.net.ledger[tx].(undoneBy := r.tx)]), true)
  }

  /** Compensation, last transaction first; a failed one does not stop the others. */
  function UndoAll(n: Net, io: Oracle, txs: seq<nat>): Undone
    requires forall k :: 0 <= k < |txs| ==> txs[k] < |n.ledger|
    decreases |txs|
  {
    if txs == [] then Undone(n, true)
    else
      UndoGrows(n, io, txs[|txs| - 1]);
      var last := Undo(n, io, txs[|txs| - 1]);
      var rest := UndoAll(last.net, io, txs[..|txs| - 1]);
      Undone(rest.net, last.ok && rest.ok)
  }

  lemma UndoGrows(n: Net, io: Oracle, tx: nat)
    requires tx < |n.ledger|
    ensures |Undo(n, io, tx).net.ledger| >= |n.ledger|
  {
  }

  /** The run of a device: `changed` are its effective transactions, `compensated` says that every
      rollback a failure called for succeeded. */
  datatype Applied = Applied(net: Net, ok: bool, changed: seq<nat>, compensated: bool)

  /** The operations of one device from number `k` on, after `changed` transactions of earlier ones. */
  function ApplyFrom(n: Net, io: Oracle, source: Source, ops: seq<Op>, k: nat, changed: seq<nat>): Applied
    requires k <= |ops| && forall j :: 0 <= j < |changed| ==> changed[j] < |n.ledger|
    decreases |ops| - k
  {
    if k == |ops| then Applied(n, true, changed, true)
    else
      ExecuteGrows(n, io, OpOf(source, k + 1), ops[k]);
      var r := Execute(n, io, OpOf(source, k + 1), ops[k]);
      if r.tx.None? then
        var u := UndoAll(r.net, io, changed);
        Applied(u.net, false, changed, u.ok)
      else ApplyFrom(r.net, io, source, ops, k + 1,
                     if r.net.ledger[r.tx.value].changed then changed + [r.tx.value] else changed)
  }

  lemma ExecuteGrows(n: Net, io: Oracle, ref: Ref, op: Op)
    ensures n.ledger <= Execute(n, io, ref, op).net.ledger
  {
  }

  function Apply(n: Net, io: Oracle, source: Source, ops: seq<Op>): Applied {
    ApplyFrom(n, io, source, ops, 0, [])
  }

  // ---- Chains of changes ----

  /** `txs` are effective transactions that lead from one configuration to another, each recording
      the value it found. */
  ghost predicate Chain(s0: Store, ledger: seq<Tx>, txs: seq<nat>, s1: Store)
    decreases |txs|
  {
    if txs == [] then s0 == s1
    else
      var last := txs[|txs| - 1];
      && last < |ledger| && Effective(ledger[last]) && s1.Keys >= {ledger[last].key}
      && s1[ledger[last].key] == ledger[last].value
      && exists s :: Chain(s0, ledger, txs[..|txs| - 1], s)
                     && Read(s, ledger[last].key) == ledger[last].pre && s1 == s[ledger[last].key := ledger[last].value]
  }

  predicate Effective(t: Tx) {
    t.state == SUCCEEDED && t.changed && t.undoneBy.None? && t.pre.Some? && t.pre != Some(t.value)
  }

  predicate Increasing(txs: seq<nat>) {
    forall i, j :: 0 <= i < j < |txs| ==> txs[i] < txs[j]
  }

  /** A ledger that agrees on the transactions of a chain carries the same chain. */
  lemma {:induction false} ChainOnly(s0: Store, a: seq<Tx>, b: seq<Tx>, txs: seq<nat>, s1: Store)
    requires Chain(s0, a, txs, s1)
    requires forall k :: 0 <= k < |txs| ==> txs[k] < |b| && (txs[k] < |a| ==> b[txs[k]] == a[txs[k]])
    ensures Chain(s0, b, txs, s1)
    decreases |txs|
  {
    if txs != [] {
      var last := txs[|txs| - 1];
      var s :| Chain(s0, a, txs[..|txs| - 1], s)
               && Read(s, a[last].key) == a[last].pre && s1 == s[a[last].key := a[last].value];
      ChainOnly(s0, a, b, txs[..|txs| - 1], s);
    }
  }

  lemma ChainSnoc(s0: Store, ledger: seq<Tx>, txs: seq<nat>, s: Store, tx: nat)
    requires Chain(s0, ledger, txs, s) && tx < |ledger| && Effective(ledger[tx])
    requires Read(s, ledger[tx].key) == ledger[tx].pre
    ensures Chain(s0, ledger, txs + [tx], s[ledger[tx].key := ledger[tx].value])
  {
    assert (txs + [tx])[..|txs|] == txs;
  }

  // ---- Compensation restores ----

  /** Rollbacks in the ledger point at earlier transactions. */
  predicate Sane(ledger: seq<Tx>) {
    forall i :: 0 <= i < |ledger| && ledger[i].ref.UndoOf? ==> ledger[i].ref.tx < i
  }

  predicate NeverUndone(ledger: seq<Tx>, txs: seq<nat>) {
    forall i, k :: 0 <= i < |ledger| && 0 <= k < |txs| ==> ledger[i].ref != UndoOf(txs[k])
  }

  predicate Agree(a: seq<Tx>, b: seq<Tx>, but: nat) {
    |a| <= |b| && forall i :: 0 <= i < |a| && i != but ==> b[i] == a[i]
  }

  /** Undoing the newest change of a chain: it succeeds exactly when the network takes the write, and
      then the configuration before that change is back. */
  lemma UndoNewest(n: Net, io: Oracle, tx: nat, s: Store)
    requires tx < |n.ledger| && Effective(n.ledger[tx]) && NeverUndone(n.ledger, [tx])
    requires Read(s, n.ledger[tx].key) == n.ledger[tx].pre
    requires n.store == s[n.ledger[tx].key := n.ledger[tx].value]
    ensures var u := Undo(n, io, tx);
            && (u.ok <==> io(|n.ledger|).Good?)
            && (u.ok ==> u.net.store == s && |u.net.ledger| == |n.ledger| + 1)
            && Agree(n.ledger, u.net.ledger, tx)
            && (forall i :: |n.ledger| <= i < |u.net.ledger| ==> u.net.ledger[i].ref == UndoOf(tx))
            && (Sane(n.ledger) ==> Sane(u.net.ledger))
  {
    var t := n.ledger[tx];
    assert [tx][0] == tx;
    assert Read(n.store, t.key) == Some(t.value);
    assert Latest(n.ledger, UndoOf(tx), t.key).None?;
    assert n.store[t.key := t.pre.value] == s;
  }

  /** One step of compensation: the last change of the chain is handled, the rest is still a chain. */
  lemma Peel(n: Net, io: Oracle, txs: seq<nat>, s0: Store) returns (s: Store)
    requires txs != [] && Increasing(txs) && Chain(s0, n.ledger, txs, n.store) && NeverUndone(n.ledger, txs)
    ensures var last, front := txs[|txs| - 1], txs[..|txs| - 1];
            && last < |n.ledger| && Effective(n.ledger[last]) && NeverUndone(n.ledger, [last])
            && Read(s, n.ledger[last].key) == n.ledger[last].pre
            && n.store == s[n.ledger[last].key := n.ledger[last].value]
            && Increasing(front) && Chain(s0, n.ledger, front, s)
            && var u := Undo(n, io, last);
               && Chain(s0, u.net.ledger, front, s) && NeverUndone(u.net.ledger, front)
               && Agree(n.ledger, u.net.ledger, last)
               && (forall k :: 0 <= k < |front| ==> front[k] < last && u.net.ledger[front[k]] == n.ledger[front[k]])
  {
    hide *;
    var last, front := txs[|txs| - 1], txs[..|txs| - 1];
    s := LastLink(s0, n.ledger, txs, n.store);
    FrontIsBelow(txs);
    NoneUndone(n.ledger, txs);
    UndoNewest(n, io, last, s);
    ChainIds(s0, n.ledger, front, s);
    var u := Undo(n, io, last);
    Agreed(n.ledger, u.net.ledger, last);
    ChainOnly(s0, n.ledger, u.net.ledger, front, s);
    UndoKeepsRefs(n, io, last);
    OthersNeverUndone(n.ledger, u.net.ledger, last, front);
  }

  lemma LastLink(s0: Store, ledger: seq<Tx>, txs: seq<nat>, s1: Store) returns (s: Store)
    requires txs != [] && Chain(s0, ledger, txs, s1)
    ensures var last := txs[|txs| - 1];
            && last < |ledger| && Effective(ledger[last]) && Chain(s0, ledger, txs[..|txs| - 1], s)
            && Read(s, ledger[last].key) == ledger[last].pre && s1 == s[ledger[last].key := ledger[last].value]
  {
    var last := txs[|txs| - 1];
    s :| Chain(s0, ledger, txs[..|txs| - 1], s)
         && Read(s, ledger[last].key) == ledger[last].pre && s1 == s[ledger[last].key := ledger[last].value];
  }

  lemma FrontIsBelow(txs: seq<nat>)
    requires txs != [] && Increasing(txs)
    ensures var last, front := txs[|txs| - 1], txs[..|txs| - 1];
            Increasing(front) && last !in front && forall k :: 0 <= k < |front| ==> front[k] < last
  {
  }

  lemma NoneUndone(ledger: seq<Tx>, txs: seq<nat>)
    requires txs != [] && NeverUndone(ledger, txs)
    ensures NeverUndone(ledger, [txs[|txs| - 1]]) && NeverUndone(ledger, txs[..|txs| - 1])
  {
  }

  lemma Agreed(a: seq<Tx>, b: seq<Tx>, but: nat)
    requires Agree(a, b, but)
    ensures |a| <= |b| && forall i :: 0 <= i < |a| && i != but ==> b[i] == a[i]
  {
  }

  lemma OthersNeverUndone(a: seq<Tx>, b: seq<Tx>, tx: nat, others: seq<nat>)
    requires NeverUndone(a, others) && Agree(a, b, tx) && tx < |a| && b[tx].ref == a[tx].ref
    requires forall i :: |a| <= i < |b| ==> b[i].ref == UndoOf(tx)
    requires tx !in others
    ensures NeverUndone(b, others)
  {
  }

  lemma {:induction false} ChainIds(s0: Store, ledger: seq<Tx>, txs: seq<nat>, s1: Store)
    requires Chain(s0, ledger, txs, s1)
    ensures forall k :: 0 <= k < |txs| ==> txs[k] < |ledger|
    decreases |txs|
  {
    if txs != [] {
      var last := txs[|txs| - 1];
      var s :| Chain(s0, ledger, txs[..|txs| - 1], s)
               && Read(s, ledger[last].key) == ledger[last].pre && s1 == s[ledger[last].key := ledger[last].value];
      ChainIds(s0, ledger, txs[..|txs| - 1], s);
    }
  }

  lemma UndoKeepsRefs(n: Net, io: Oracle, tx: nat)
    requires tx < |n.ledger|
    ensures tx < |Undo(n, io, tx).net.ledger| && Undo(n, io, tx).net.ledger[tx].ref == n.ledger[tx].ref
    ensures Undo(n, io, tx).net.ledger[tx].key == n.ledger[tx].key
  {
  }

  /** Compensation that succeeds throughout restores the configuration before the chain. */
  lemma {:induction false} UndoAllRestores(n: Net, io: Oracle, txs: seq<nat>, s0: Store)
    requires Increasing(txs) && Chain(s0, n.ledger, txs, n.store) && NeverUndone(n.ledger, txs)
    requires forall k :: 0 <= k < |txs| ==> txs[k] < |n.ledger|
    requires UndoAll(n, io, txs).ok
    ensures UndoAll(n, io, txs).net.store == s0
    decreases |txs|
  {
    if txs != [] {
      var last, front := txs[|txs| - 1], txs[..|txs| - 1];
      var s := Peel(n, io, txs, s0);
      UndoNewest(n, io, last, s);
      UndoGrows(n, io, last);
      UndoAllUnfolds(n, io, txs);
      hide *;
      var u := Undo(n, io, last);
      UndoAllRestores(u.net, io, front, s0);
    }
  }

  lemma UndoAllUnfolds(n: Net, io: Oracle, txs: seq<nat>)
    requires txs != [] && forall k :: 0 <= k < |txs| ==> txs[k] < |n.ledger|
    ensures var u := Undo(n, io, txs[|txs| - 1]);
            && |u.net.ledger| >= |n.ledger|
            && UndoAll(n, io, txs) == Undone(UndoAll(u.net, io, txs[..|txs| - 1]).net,
                                             u.ok && UndoAll(u.net, io, txs[..|txs| - 1]).ok)
  {
    UndoGrows(n, io, txs[|txs| - 1]);
  }

  /** The network takes `count` writes from a ledger position on. */
  predicate Taken(io: Oracle, from: nat, count: nat) {
    forall k: nat :: from <= k < from + count ==> io(k).Good?
  }

  lemma TakenFirst(io: Oracle, from: nat, count: nat)
    requires count > 0
    ensures Taken(io, from, count) <==> io(from).Good? && Taken(io, from + 1, count - 1)
  {
  }

  /** Compensation works exactly when the network takes its writes, one for each transaction. */
  lemma {:induction false} UndoAllIffTaken(n: Net, io: Oracle, txs: seq<nat>, s0: Store)
    requires Increasing(txs) && Chain(s0, n.ledger, txs, n.store) && NeverUndone(n.ledger, txs)
    requires forall k :: 0 <= k < |txs| ==> txs[k] < |n.ledger|
    ensures UndoAll(n, io, txs).ok <==> Taken(io, |n.ledger|, |txs|)
    decreases |txs|
  {
    if txs != [] {
      var last, front := txs[|txs| - 1], txs[..|txs| - 1];
      var s := Peel(n, io, txs, s0);
      UndoNewest(n, io, last, s);
      UndoGrows(n, io, last);
      UndoAllUnfolds(n, io, txs);
      hide *;
      var u := Undo(n, io, last);
      TakenFirst(io, |n.ledger|, |txs|);
      if u.ok {
        UndoAllIffTaken(u.net, io, front, s0);
      }
    }
  }

  // ---- One device of a desired-state run ----

  /** No transaction of this run beyond its operation `k` is in the ledger. */
  predicate FreshFrom(ledger: seq<Tx>, source: Source, k: nat) {
    forall i :: 0 <= i < |ledger| && ledger[i].ref.OpOf? && ledger[i].ref.source == source ==> ledger[i].ref.op <= k
  }

  /** The configuration that carrying out the operations in order leads to. */
  function Wanted(s: Store, ops: seq<Op>): Store
    decreases |ops|
  {
    if ops == [] then s else Wanted(s[ops[0].key := ops[0].value], ops[1..])
  }

  /** An operation fails when its resource is not there, when the network refuses it, or when a write
      that is needed goes wrong. */
  predicate Fails(s: Store, fate: Fault, op: Op) {
    op.key !in s || fate.Refused? || (fate.Mangled? && s[op.key] != op.value)
  }

  lemma ExecuteFresh(n: Net, io: Oracle, source: Source, k: nat, op: Op)
    requires FreshFrom(n.ledger, source, k) && Sane(n.ledger)
    ensures var r := Execute(n, io, OpOf(source, k + 1), op);
            && |r.net.ledger| == |n.ledger| + 1 && n.ledger <= r.net.ledger
            && r.net.ledger[|n.ledger|].ref == OpOf(source, k + 1) && r.net.ledger[|n.ledger|].key == op.key
            && FreshFrom(r.net.ledger, source, k + 1) && Sane(r.net.ledger)
            && (r.tx.None? <==> Fails(n.store, io(|n.ledger|), op))
            && (!io(|n.ledger|).Mangled? && r.tx.None? ==> r.net.store == n.store)
            && (r.tx.Some? ==>
                  && r.tx == Some(|n.ledger|) && r.net.store == n.store[op.key := op.value]
                  && var t := r.net.ledger[|n.ledger|];
                     t.changed == (Read(n.store, op.key) != Some(op.value)) &&
                     if t.changed then Effective(t) && t.key == op.key && t.value == op.value
                       && t.pre == Read(n.store, op.key)
                     else r.net.store == n.store)
  {
    assert Latest(n.ledger, OpOf(source, k + 1), op.key).None?;
  }

  lemma NewIsNeverUndone(ledger: seq<Tx>, grown: seq<Tx>, txs: seq<nat>)
    requires Sane(grown) && ledger <= grown && |grown| == |ledger| + 1 && !grown[|ledger|].ref.UndoOf?
    requires NeverUndone(ledger, txs) && forall k :: 0 <= k < |txs| ==> txs[k] < |ledger|
    ensures NeverUndone(grown, txs) && NeverUndone(grown, txs + [|ledger|])
  {
  }

  /** What holds between two operations of a run on a device that started as `s0`. */
  ghost predicate Underway(n: Net, source: Source, k: nat, changed: seq<nat>, s0: Store) {
    && Chain(s0, n.ledger, changed, n.store) && Increasing(changed)
    && (forall j :: 0 <= j < |changed| ==> changed[j] < |n.ledger|)
    && NeverUndone(n.ledger, changed) && Sane(n.ledger) && FreshFrom(n.ledger, source, k)
  }

  /** An operation that works keeps the run underway; one that is refused leaves what was there. */
  lemma StepKeepsUnderway(n: Net, io: Oracle, source: Source, k: nat, op: Op, changed: seq<nat>, s0: Store)
    requires Underway(n, source, k, changed, s0)
    ensures var r := Execute(n, io, OpOf(source, k + 1), op);
            && n.ledger <= r.net.ledger
            && (r.tx.Some? ==>
                  && r.tx.value < |r.net.ledger| && r.net.store == n.store[op.key := op.value]
                  && Underway(r.net, source, k + 1,
                              if r.net.ledger[r.tx.value].changed then changed + [r.tx.value] else changed, s0))
            && (r.net.store == n.store ==> Underway(r.net, source, k + 1, changed, s0))
            && (!io(|n.ledger|).Mangled? && r.tx.None? ==> r.net.store == n.store)
  {
    hide Execute;
    hide Effective;
    hide Chain;
    hide Read;
    ExecuteFresh(n, io, source, k, op);
    var r := Execute(n, io, OpOf(source, k + 1), op);
    NewIsNeverUndone(n.ledger, r.net.ledger, changed);
    ChainOnly(s0, n.ledger, r.net.ledger, changed, n.store);
    if r.tx.Some? && r.net.ledger[|n.ledger|].changed {
      ChainSnoc(s0, r.net.ledger, changed, n.store, |n.ledger|);
    }
  }

  /** No write between two ledger positions leaves a resource garbled. */
  predicate NeverMangles(io: Oracle, from: nat, to: nat) {
    forall i :: from <= i < to ==> !io(i).Mangled?
  }

  /** A run that succeeds leaves exactly the wanted configuration, by a chain of changes; one that
      fails with every compensation succeeding leaves the device as the run found it. */
  lemma {:induction false} ApplyRestores(n: Net, io: Oracle, source: Source, ops: seq<Op>, k: nat, changed: seq<nat>,
                                         s0: Store)
    requires k <= |ops| && Underway(n, source, k, changed, s0)
    ensures var a := ApplyFrom(n, io, source, ops, k, changed);
            && (a.ok ==> Underway(a.net, source, |ops|, a.changed, s0) && a.net.store == Wanted(n.store, ops[k..]))
            && (!a.ok ==> |n.ledger| < |a.net.ledger|)
            && (!a.ok && a.compensated && NeverMangles(io, |n.ledger|, |a.net.ledger|) ==> a.net.store == s0)
    decreases |ops| - k
  {
    if k < |ops| {
      var op := ops[k];
      StepKeepsUnderway(n, io, source, k, op, changed, s0);
      ExecuteFresh(n, io, source, k, op);
      var r := Execute(n, io, OpOf(source, k + 1), op);
      hide Execute;
      if r.tx.Some? {
        var more := if r.net.ledger[r.tx.value].changed then changed + [r.tx.value] else changed;
        ApplyRestores(r.net, io, source, ops, k + 1, more, s0);
        assert ops[k..][0] == op && ops[k..][1..] == ops[k + 1..];
      } else {
        FailureRestores(r.net, io, source, k, changed, s0, n.store, |n.ledger|);
      }
    }
  }

  lemma FailureRestores(n: Net, io: Oracle, source: Source, k: nat, changed: seq<nat>, s0: Store, before: Store,
                        bad: nat)
    requires n.store == before ==> Underway(n, source, k + 1, changed, s0)
    requires (forall j :: 0 <= j < |changed| ==> changed[j] < |n.ledger|) && bad < |n.ledger|
    requires !io(bad).Mangled? ==> n.store == before
    ensures var u := UndoAll(n, io, changed);
            bad < |u.net.ledger| && (u.ok && NeverMangles(io, bad, |u.net.ledger|) ==> u.net.store == s0)
  {
    UndoAllKeepsRows(n, io, changed);
    if UndoAll(n, io, changed).ok && !io(bad).Mangled? {
      UndoAllRestores(n, io, changed, s0);
    }
  }

  // ---- What stops a run and whether it is compensated ----

  /** How many operations a run gets through, its first write being at ledger position `start`. */
  function StopsAt(s: Store, io: Oracle, ops: seq<Op>, start: nat): (m: nat)
    ensures m <= |ops|
    decreases |ops|
  {
    if ops == [] || Fails(s, io(start), ops[0]) then 0
    else 1 + StopsAt(s[ops[0].key := ops[0].value], io, ops[1..], start + 1)
  }

  /** How many of the first `m` operations change something. */
  function Changes(s: Store, ops: seq<Op>, m: nat): nat
    requires m <= |ops|
    decreases m
  {
    if m == 0 then 0
    else (if Read(s, ops[0].key) == Some(ops[0].value) then 0 else 1)
         + Changes(s[ops[0].key := ops[0].value], ops[1..], m - 1)
  }

  /** When a run fails and when its compensation works, looked up in the operations, the configuration
      and the fates: it stops at the first operation that fails, and unless that one garbled its
      resource, compensation works exactly when the network takes one write for each change made; then
      the device is back where it started. */
  lemma RunIsRestored(n: Net, io: Oracle, source: Source, ops: seq<Op>)
    requires FreshFrom(n.ledger, source, 0) && Sane(n.ledger)
    ensures var a, m := Apply(n, io, source, ops), StopsAt(n.store, io, ops, |n.ledger|);
            && (a.ok <==> m == |ops|)
            && (!a.ok && !io(|n.ledger| + m).Mangled? ==>
                  && (a.compensated <==> Taken(io, |n.ledger| + m + 1, Changes(n.store, ops, m)))
                  && (a.compensated ==> a.net.store == n.store))
  {
    hide *;
    UnderwayAtStart(n, source);
    WholeRun(n, io, source, ops);
    RunFromHere(n, io, source, ops, 0, [], n.store);
  }

  lemma WholeRun(n: Net, io: Oracle, source: Source, ops: seq<Op>)
    ensures Apply(n, io, source, ops) == ApplyFrom(n, io, source, ops, 0, []) && ops[0..] == ops
  {
  }

  lemma UnderwayAtStart(n: Net, source: Source)
    requires FreshFrom(n.ledger, source, 0) && Sane(n.ledger)
    ensures Underway(n, source, 0, [], n.store)
  {
  }

  lemma {:induction false} RunFromHere(n: Net, io: Oracle, source: Source, ops: seq<Op>, k: nat, changed: seq<nat>,
                                       s0: Store)
    requires k <= |ops| && Underway(n, source, k, changed, s0)
    requires forall j :: 0 <= j < |changed| ==> changed[j] < |n.ledger|
    ensures var a, m := ApplyFrom(n, io, source, ops, k, changed), StopsAt(n.store, io, ops[k..], |n.ledger|);
            && (a.ok <==> m == |ops| - k)
            && (!a.ok && !io(|n.ledger| + m).Mangled? ==>
                  && (a.compensated <==> Taken(io, |n.ledger| + m + 1, |changed| + Changes(n.store, ops[k..], m)))
                  && (a.compensated ==> a.net.store == s0))
    decreases |ops| - k
  {
    hide *;
    StopsStep(n.store, io, ops, k, |n.ledger|);
    if k == |ops| {
      NothingLeft(n, io, source, ops, changed);
    } else {
      StepKeepsUnderway(n, io, source, k, ops[k], changed, s0);
      UnderwayKnows(n, source, k, changed, s0);
      ExecuteFresh(n, io, source, k, ops[k]);
      FromHere(n, io, source, ops, k, changed);
      var r := Execute(n, io, OpOf(source, k + 1), ops[k]);
      if r.tx.Some? {
        var more := if r.net.ledger[r.tx.value].changed then changed + [r.tx.value] else changed;
        RunFromHere(r.net, io, source, ops, k + 1, more, s0);
      } else if !io(|n.ledger|).Mangled? {
        FailedHere(r.net, io, source, k, changed, s0);
      }
    }
  }

  lemma StopsStep(s: Store, io: Oracle, ops: seq<Op>, k: nat, start: nat)
    requires k <= |ops|
    ensures var m := StopsAt(s, io, ops[k..], start);
            if k == |ops| then m == 0
            else
              var op, t := ops[k], s[ops[k].key := ops[k].value];
              if Fails(s, io(start), op) then m == 0 && Changes(s, ops[k..], m) == 0
              else
                && m == 1 + StopsAt(t, io, ops[k + 1..], start + 1)
                && Changes(s, ops[k..], m) ==
                   (if Read(s, op.key) == Some(op.value) then 0 else 1) + Changes(t, ops[k + 1..], m - 1)
  {
    hide Fails;
    if k < |ops| {
      assert ops[k..][0] == ops[k] && ops[k..][1..] == ops[k + 1..];
    }
  }

  lemma NothingLeft(n: Net, io: Oracle, source: Source, ops: seq<Op>, changed: seq<nat>)
    requires forall j :: 0 <= j < |changed| ==> changed[j] < |n.ledger|
    ensures ApplyFrom(n, io, source, ops, |ops|, changed).ok
  {
  }

  lemma UnderwayKnows(n: Net, source: Source, k: nat, changed: seq<nat>, s0: Store)
    requires Underway(n, source, k, changed, s0)
    ensures FreshFrom(n.ledger, source, k) && Sane(n.ledger)
  {
  }

  lemma FromHere(n: Net, io: Oracle, source: Source, ops: seq<Op>, k: nat, changed: seq<nat>)
    requires k < |ops| && forall j :: 0 <= j < |changed| ==> changed[j] < |n.ledger|
    ensures var a, r := ApplyFrom(n, io, source, ops, k, changed), Execute(n, io, OpOf(source, k + 1), ops[k]);
            && n.ledger <= r.net.ledger
            && (r.tx.None? ==> !a.ok && var u := UndoAll(r.net, io, changed); a.net == u.net && a.compensated == u.ok)
            && (r.tx.Some? ==> a == ApplyFrom(r.net, io, source, ops, k + 1,
                                              if r.net.ledger[r.tx.value].changed then changed + [r.tx.value]
                                                else changed))
  {
    ExecuteGrows(n, io, OpOf(source, k + 1), ops[k]);
    hide Execute;
    hide UndoAll;
  }

  lemma FailedHere(n: Net, io: Oracle, source: Source, k: nat, changed: seq<nat>, s0: Store)
    requires Underway(n, source, k + 1, changed, s0) && forall j :: 0 <= j < |changed| ==> changed[j] < |n.ledger|
    ensures var u := UndoAll(n, io, changed);
            (u.ok <==> Taken(io, |n.ledger|, |changed|)) && (u.ok ==> u.net.store == s0)
  {
    UndoAllIffTaken(n, io, changed, s0);
    if UndoAll(n, io, changed).ok {
      UndoAllRestores(n, io, changed, s0);
    }
  }

  ghost predicate RefusedOnlyAt(io: Oracle, start: nat, bad: nat) {
    io(bad).Refused? && forall i :: i >= start && i != bad ==> io(i).Good?
  }

  /** A single refused write. If it is what stops the run, the run is compensated and the device as it
      was, always; when the run was stopped by a resource that is not there, exactly unless the refusal
      meets one of the compensating writes. */
  lemma OneRefusalIsRestored(n: Net, io: Oracle, source: Source, ops: seq<Op>, bad: nat)
    requires FreshFrom(n.ledger, source, 0) && Sane(n.ledger) && RefusedOnlyAt(io, |n.ledger|, bad)
    requires !Apply(n, io, source, ops).ok
    ensures var a, m := Apply(n, io, source, ops), StopsAt(n.store, io, ops, |n.ledger|);
            var compensation := |n.ledger| + m + 1;
            && (a.compensated <==> !(compensation <= bad < compensation + Changes(n.store, ops, m)))
            && (a.compensated ==> a.net.store == n.store)
            && (m < |ops| && ops[m].key in Wanted(n.store, ops[..m]) ==> bad == |n.ledger| + m && a.compensated)
  {
    hide *;
    var m := StopsAt(n.store, io, ops, |n.ledger|);
    RunIsRestored(n, io, source, ops);
    WhatStops(n.store, io, ops, |n.ledger|);
    OnlyRefusal(io, |n.ledger|, bad, |n.ledger| + m + 1, Changes(n.store, ops, m));
    if m < |ops| {
      FailsByRefusal(Wanted(n.store, ops[..m]), io, ops[m], |n.ledger|, bad, |n.ledger| + m);
    }
  }

  lemma FailsByRefusal(s: Store, io: Oracle, op: Op, start: nat, bad: nat, at: nat)
    requires RefusedOnlyAt(io, start, bad) && at >= start && Fails(s, io(at), op)
    ensures op.key in s ==> at == bad
  {
  }

  lemma OnlyRefusal(io: Oracle, start: nat, bad: nat, from: nat, count: nat)
    requires RefusedOnlyAt(io, start, bad) && from >= start
    ensures Taken(io, from, count) <==> !(from <= bad < from + count)
    ensures forall i: nat :: i >= start ==> !io(i).Mangled?
  {
  }

  /** The operation a run stops at fails on the configuration that the ones before it lead to. */
  lemma {:induction false} WhatStops(s: Store, io: Oracle, ops: seq<Op>, start: nat)
    ensures var m := StopsAt(s, io, ops, start);
            m < |ops| ==> Fails(Wanted(s, ops[..m]), io(start + m), ops[m])
    decreases |ops|
  {
    hide Fails;
    if ops != [] && !Fails(s, io(start), ops[0]) {
      var m := StopsAt(s, io, ops, start);
      WhatStops(s[ops[0].key := ops[0].value], io, ops[1..], start + 1);
      assert ops[..m][1..] == ops[1..][..m - 1];
    }
  }

  lemma {:induction false} UndoAllKeepsRows(n: Net, io: Oracle, txs: seq<nat>)
    requires forall k :: 0 <= k < |txs| ==> txs[k] < |n.ledger|
    ensures var u := UndoAll(n, io, txs);
            |u.net.ledger| >= |n.ledger| && forall i :: 0 <= i < |n.ledger| ==> u.net.ledger[i].key == n.ledger[i].key
    decreases |txs|
  {
    if txs != [] {
      UndoKeepsKeys(n, io, txs[|txs| - 1]);
      hide Undo;
      UndoAllKeepsRows(Undo(n, io, txs[|txs| - 1]).net, io, txs[..|txs| - 1]);
    }
  }

  lemma UndoKeepsKeys(n: Net, io: Oracle, tx: nat)
    requires tx < |n.ledger|
    ensures var u := Undo(n, io, tx);
            |u.net.ledger| >= |n.ledger| && forall i :: 0 <= i < |n.ledger| ==> u.net.ledger[i].key == n.ledger[i].key
  {
    if n.ledger[tx].pre.Some? {
      ExecuteGrows(n, io, UndoOf(tx), Op(n.ledger[tx].key, n.ledger[tx].pre.value));
    }
    hide Execute;
  }

  // ---- Re-entry and stale attempts ----

  /** Operations k..m - 1 of the run already have finished transactions in the ledger. */
  predicate Known(ledger: seq<Tx>, source: Source, ops: seq<Op>, k: nat, m: nat)
    requires k <= m <= |ops|
  {
    forall j :: k <= j < m ==>
      var known := Latest(ledger, OpOf(source, j + 1), ops[j].key);
      known.Some? && ledger[known.value].state == SUCCEEDED
  }

  /** The effective ones among them. */
  function KnownChanges(ledger: seq<Tx>, source: Source, ops: seq<Op>, k: nat, m: nat): (txs: seq<nat>)
    requires k <= m <= |ops| && Known(ledger, source, ops, k, m)
    ensures forall i :: 0 <= i < |txs| ==> txs[i] < |ledger|
    decreases m - k
  {
    if k == m then []
    else
      var tx := Latest(ledger, OpOf(source, k + 1), ops[k].key).value;
      (if ledger[tx].changed then [tx] else []) + KnownChanges(ledger, source, ops, k + 1, m)
  }

  lemma KnownSplit(ledger: seq<Tx>, source: Source, ops: seq<Op>, k: nat, m: nat)
    requires k < m <= |ops| && Known(ledger, source, ops, k, m)
    ensures Known(ledger, source, ops, k, k + 1) && Known(ledger, source, ops, k + 1, m)
    ensures var tx := Latest(ledger, OpOf(source, k + 1), ops[k].key).value;
            KnownChanges(ledger, source, ops, k, m) ==
            (if ledger[tx].changed then [tx] else []) + KnownChanges(ledger, source, ops, k + 1, m)
  {
  }

  lemma KnownNone(ledger: seq<Tx>, source: Source, ops: seq<Op>, k: nat)
    requires k <= |ops| && Known(ledger, source, ops, k, k)
    ensures KnownChanges(ledger, source, ops, k, k) == []
  {
  }

  /** Known operations are passed over without touching the network. */
  lemma {:induction false} KnownArePassed(n: Net, io: Oracle, source: Source, ops: seq<Op>, k: nat, m: nat,
                                          changed: seq<nat>)
    requires k <= m <= |ops| && Known(n.ledger, source, ops, k, m)
    requires forall j :: 0 <= j < |changed| ==> changed[j] < |n.ledger|
    ensures ApplyFrom(n, io, source, ops, k, changed) ==
            ApplyFrom(n, io, source, ops, m, changed + KnownChanges(n.ledger, source, ops, k, m))
    decreases m - k
  {
    hide *;
    if k == m {
      KnownNone(n.ledger, source, ops, k);
      assert changed + [] == changed;
    } else {
      KnownSplit(n.ledger, source, ops, k, m);
      var tx := Latest(n.ledger, OpOf(source, k + 1), ops[k].key).value;
      var more := if n.ledger[tx].changed then [tx] else [];
      PassOne(n, io, source, ops, k, changed);
      KnownArePassed(n, io, source, ops, k + 1, m, changed + more);
      var rest := KnownChanges(n.ledger, source, ops, k + 1, m);
      assert changed + (more + rest) == (changed + more) + rest;
    }
  }

  lemma PassOne(n: Net, io: Oracle, source: Source, ops: seq<Op>, k: nat, changed: seq<nat>)
    requires k < |ops| && Known(n.ledger, source, ops, k, k + 1)
    requires forall j :: 0 <= j < |changed| ==> changed[j] < |n.ledger|
    ensures var tx := Latest(n.ledger, OpOf(source, k + 1), ops[k].key).value;
            ApplyFrom(n, io, source, ops, k, changed) ==
            ApplyFrom(n, io, source, ops, k + 1, changed + if n.ledger[tx].changed then [tx] else [])
  {
    hide UndoAll;
    hide Latest;
    assert changed + [] == changed;
  }

  /** A second run under the source of a finished one reports success and writes nothing, whatever
      has happened to the device since: a retry must come under a source of its own. */
  lemma StaleSourceWritesNothing(n: Net, io: Oracle, source: Source, ops: seq<Op>)
    requires Known(n.ledger, source, ops, 0, |ops|)
    ensures Apply(n, io, source, ops).ok && Apply(n, io, source, ops).net == n
  {
    KnownArePassed(n, io, source, ops, 0, |ops|, []);
  }

  /** The network when the process stops after `m` operations that worked. */
  function Reached(n: Net, io: Oracle, source: Source, ops: seq<Op>, m: nat): Option<Net>
    requires m <= |ops|
  {
    if m == 0 then Some(n)
    else
      var before := Reached(n, io, source, ops, m - 1);
      if before.None? then None
      else
        var r := Execute(before.value, io, OpOf(source, m), ops[m - 1]);
        if r.tx.None? then None else Some(r.net)
  }

  lemma {:induction false} KnownChangesSnoc(ledger: seq<Tx>, source: Source, ops: seq<Op>, k: nat, m: nat)
    requires k <= m < |ops| && Known(ledger, source, ops, k, m + 1)
    ensures var tx := Latest(ledger, OpOf(source, m + 1), ops[m].key).value;
            KnownChanges(ledger, source, ops, k, m + 1) ==
            KnownChanges(ledger, source, ops, k, m) + if ledger[tx].changed then [tx] else []
    decreases m - k
  {
    if k < m {
      KnownChangesSnoc(ledger, source, ops, k + 1, m);
    }
  }

  /** A transaction of a later operation changes nothing about the earlier ones. */
  lemma {:induction false} StillKnown(a: seq<Tx>, b: seq<Tx>, source: Source, ops: seq<Op>, k: nat, m: nat)
    requires k <= m <= |ops| && Known(a, source, ops, k, m)
    requires a <= b && |b| == |a| + 1 && b[|a|].ref == OpOf(source, m + 1)
    ensures Known(b, source, ops, k, m)
    ensures KnownChanges(b, source, ops, k, m) == KnownChanges(a, source, ops, k, m)
    decreases m - k
  {
    assert b[..|a|] == a;
    if k < m {
      StillKnown(a, b, source, ops, k + 1, m);
      assert Latest(b, OpOf(source, k + 1), ops[k].key) == Latest(a, OpOf(source, k + 1), ops[k].key);
    }
  }

  lemma {:induction false} ReachedIsKnown(n: Net, io: Oracle, source: Source, ops: seq<Op>, m: nat)
    requires m <= |ops| && FreshFrom(n.ledger, source, 0) && Sane(n.ledger)
    requires Reached(n, io, source, ops, m).Some?
    ensures var c := Reached(n, io, source, ops, m).value;
            && Known(c.ledger, source, ops, 0, m) && FreshFrom(c.ledger, source, m) && Sane(c.ledger)
            && Apply(n, io, source, ops) == ApplyFrom(c, io, source, ops, m, KnownChanges(c.ledger, source, ops, 0, m))
    decreases m
  {
    hide ApplyFrom;
    hide Execute;
    if m > 0 {
      ReachedIsKnown(n, io, source, ops, m - 1);
      var b := Reached(n, io, source, ops, m - 1).value;
      OneMoreKnown(b, io, source, ops, m - 1);
    }
  }

  lemma OneMoreKnown(b: Net, io: Oracle, source: Source, ops: seq<Op>, m: nat)
    requires m < |ops| && Known(b.ledger, source, ops, 0, m) && FreshFrom(b.ledger, source, m) && Sane(b.ledger)
    requires Execute(b, io, OpOf(source, m + 1), ops[m]).tx.Some?
    ensures var c := Execute(b, io, OpOf(source, m + 1), ops[m]).net;
            && Known(c.ledger, source, ops, 0, m + 1) && FreshFrom(c.ledger, source, m + 1) && Sane(c.ledger)
            && ApplyFrom(b, io, source, ops, m, KnownChanges(b.ledger, source, ops, 0, m)) ==
               ApplyFrom(c, io, source, ops, m + 1, KnownChanges(c.ledger, source, ops, 0, m + 1))
  {
    var r := Execute(b, io, OpOf(source, m + 1), ops[m]);
    ExecuteFresh(b, io, source, m, ops[m]);
    hide Execute;
    hide UndoAll;
    StillKnown(b.ledger, r.net.ledger, source, ops, 0, m);
    assert Latest(r.net.ledger, OpOf(source, m + 1), ops[m].key) == r.tx;
    KnownChangesSnoc(r.net.ledger, source, ops, 0, m);
    var before := KnownChanges(b.ledger, source, ops, 0, m);
    assert before + [] == before;
  }

  /** As long as no operation has failed, re-entry is idempotent: a run that stopped after any number
      of operations that worked and is started again under the same source ends exactly like one that
      was never interrupted: same configuration, same ledger, same outcome, and the operations already
      done are not sent again. Once compensation has begun this is no longer so: see SagaReentry. */
  lemma ReentryIsIdempotent(n: Net, io: Oracle, source: Source, ops: seq<Op>, m: nat)
    requires m <= |ops| && FreshFrom(n.ledger, source, 0) && Sane(n.ledger)
    requires Reached(n, io, source, ops, m).Some?
    ensures Apply(Reached(n, io, source, ops, m).value, io, source, ops) == Apply(n, io, source, ops)
  {
    ReachedIsKnown(n, io, source, ops, m);
    var c := Reached(n, io, source, ops, m).value;
    KnownArePassed(c, io, source, ops, 0, m, []);
    assert [] + KnownChanges(c.ledger, source, ops, 0, m) == KnownChanges(c.ledger, source, ops, 0, m);
  }

  /** Undone in the order of execution, two changes of one resource are never restored: the first
      rollback is refused because the second change is still live, and the second one only goes
      back to the first change. */
  lemma ForwardOrderFails(n: Net, io: Oracle, first: nat, second: nat, s0: Store, s1: Store)
    requires first < second < |n.ledger| && Effective(n.ledger[first]) && Effective(n.ledger[second])
    requires var t1, t2 := n.ledger[first], n.ledger[second];
             && t1.key == t2.key && Read(s0, t1.key) == t1.pre && s1 == s0[t1.key := t1.value]
             && Read(s1, t2.key) == t2.pre && n.store == s1[t2.key := t2.value]
    requires NeverUndone(n.ledger, [first]) && NeverUndone(n.ledger, [second])
    ensures !Undo(n, io, first).ok && Undo(n, io, first).net == n
    ensures Undo(n, io, second).ok ==> Undo(n, io, second).net.store != s0
  {
    UndoNewest(n, io, second, s1);
    assert Read(n.store, n.ledger[first].key) != Some(n.ledger[first].value);
    assert Read(s1, n.ledger[first].key) != Read(s0, n.ledger[first].key);
  }

  // ---- The engine as it works in place ----

  class Network {
    const io: Oracle
    var store: Store
    var ledger: seq<Tx>

    ghost function View(): Net
      reads this
    {
      Net(store, ledger)
    }

    constructor (io: Oracle, store: Store)
      ensures View() == Net(store, []) && this.io == io
    {
      this.io, this.store, ledger := io, store, [];
    }

    method ExecuteResource(ref: Ref, op: Op) returns (tx: Option<nat>)
      modifies this
      ensures Ran(View(), tx) == old(Execute(View(), io, ref, op))
      ensures tx.Some? ==> tx.value < |ledger|
    {
      var known := Latest(ledger, ref, op.key);
      if known.Some? && ledger[known.value].state == SUCCEEDED {
        return known;
      }
      if known.Some? && ledger[known.value].state == RUNNING {
        return None;
      }
      var id, pre, fate := |ledger|, Read(store, op.key), io(|ledger|);
      var row := Tx(ref, op.key, op.value, FAILED, pre, false, None);
      if fate.Refused? {
        ledger := ledger + [row];
        return None;
      }
      if pre.None? {
        ledger := ledger + [row];
        return None;
      }
      if pre == Some(op.value) {
        ledger := ledger + [row.(state := SUCCEEDED)];
        return Some(id);
      }
      if fate.Mangled? {
        store := if fate.left.Some? then store[op.key := fate.left.value] else store - {op.key};
        ledger := ledger + [row];
        return None;
      }
      store := store[op.key := op.value];
      ledger := ledger + [row.(state := SUCCEEDED, changed := true)];
      return Some(id);
    }

    method Rollback(tx: nat) returns (ok: bool)
      requires tx < |ledger|
      modifies this
      ensures Undone(View(), ok) == old(Undo(View(), io, tx))
    {
      hide Execute;
      var t := ledger[tx];
      if t.state != SUCCEEDED || !t.changed || t.pre.None? {
        return false;
      }
      if t.undoneBy.Some? && t.undoneBy.value < |ledger| && ledger[t.undoneBy.value].state == SUCCEEDED {
        return true;
      }
      if Read(store, t.key) != Some(t.value) {
        return false;
      }
      var rolled := ExecuteResource(UndoOf(tx), Op(t.key, t.pre.value));
      if rolled.None? || tx >= |ledger| {
        return false;
      }
      ledger := ledger[tx := ledger[tx].(undoneBy := rolled)];
      return true;
    }

    /** `for prior in reversed(...)`: every rollback is tried, whatever became of the others. */
    method RollbackAll(txs: seq<nat>) returns (ok: bool)
      requires forall k :: 0 <= k < |txs| ==> txs[k] < |ledger|
      modifies this
      ensures Undone(View(), ok) == old(UndoAll(View(), io, txs))
      ensures |ledger| >= old(|ledger|)
    {
      hide Undo;
      ok := true;
      ghost var start := View();
      assert txs[..|txs|] == txs;
      for i := |txs| downto 0
        invariant |ledger| >= |start.ledger|
        invariant UndoAll(start, io, txs) ==
                  var rest := UndoAll(View(), io, txs[..i]); Undone(rest.net, ok && rest.ok)
      {
        assert txs[..i + 1][..i] == txs[..i] && txs[..i + 1][i] == txs[i];
        UndoGrows(View(), io, txs[i]);
        var done := Rollback(txs[i]);
        ok := ok && done;
      }
    }

    /** The operations of one device, in order, until one raises; then the device's own changes are
        rolled back. */
    method ApplyDevice(source: Source, ops: seq<Op>) returns (ok: bool, changed: seq<nat>, compensated: bool)
      modifies this
      ensures Applied(View(), ok, changed, compensated) == old(Apply(View(), io, source, ops))
      ensures forall j :: 0 <= j < |changed| ==> changed[j] < |ledger|
    {
      hide Execute;
      changed := [];
      ghost var start := View();
      for k := 0 to |ops|
        invariant forall j :: 0 <= j < |changed| ==> changed[j] < |ledger|
        invariant ApplyFrom(View(), io, source, ops, k, changed) == Apply(start, io, source, ops)
      {
        ExecuteGrows(View(), io, OpOf(source, k + 1), ops[k]);
        var tx := ExecuteResource(OpOf(source, k + 1), ops[k]);
        if tx.None? {
          compensated := RollbackAll(changed);
          return false, changed, compensated;
        }
        if ledger[tx.value].changed {
          changed := changed + [tx.value];
        }
      }
      return true, changed, true;
    }
  }
}
