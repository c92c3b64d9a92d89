/** What one transaction and one rollback do, told by the network and the ledger before and after. */
module SagaCalls {
  import opened Common
  import opened Saga

  /** `i` is the newest transaction under a key. */
  predicate Newest(ledger: seq<Tx>, ref: Ref, key: Key, i: nat) {
    && i < |ledger| && ledger[i].ref == ref && ledger[i].key == key
    && forall j :: i < j < |ledger| ==> !(ledger[j].ref == ref && ledger[j].key == key)
  }

  /** A repeated call finds the success of the first, or is stopped by one in progress. */
  lemma RepeatEffects(n: Net, io: Oracle, ref: Ref, op: Op, i: nat)
    requires Newest(n.ledger, ref, op.key, i)
    ensures n.ledger[i].state == SUCCEEDED ==> Execute(n, io, ref, op) == Ran(n, Some(i))
    ensures n.ledger[i].state == RUNNING ==> Execute(n, io, ref, op) == Ran(n, None)
  {
    hide Write;
  }

  /** The write works: there is a value to read, and it is the wanted one already, or the network takes it. */
  predicate Works(n: Net, fate: Fault, op: Op) {
    op.key in n.store && !fate.Refused? && (n.store[op.key] == op.value || fate.Good?)
  }

  /** Any other call writes one row, which tells the value found, whether it worked and whether it changed
      anything; a call that fails leaves the resource alone unless the network garbles it. */
  lemma ExecuteEffects(n: Net, io: Oracle, ref: Ref, op: Op)
    requires forall i: nat :: Newest(n.ledger, ref, op.key, i) ==> n.ledger[i].state == FAILED
    ensures var r, fate := Execute(n, io, ref, op), io(|n.ledger|);
            && |r.net.ledger| == |n.ledger| + 1 && r.net.ledger[..|n.ledger|] == n.ledger
            && r.tx == (if Works(n, fate, op) then Some(|n.ledger|) else None)
            && var row := r.net.ledger[|n.ledger|];
               && row.ref == ref && row.key == op.key && row.value == op.value && row.undoneBy == None
               && row.pre == (if op.key in n.store then Some(n.store[op.key]) else None)
               && row.state == (if Works(n, fate, op) then SUCCEEDED else FAILED)
               && (row.changed <==> Works(n, fate, op) && n.store[op.key] != op.value)
    ensures var r, fate := Execute(n, io, ref, op), io(|n.ledger|);
            && (Works(n, fate, op) ==> r.net.store == n.store[op.key := op.value])
            && (!Works(n, fate, op) && !fate.Mangled? ==> r.net.store == n.store)
            && (!Works(n, fate, op) && op.key !in n.store ==> r.net.store == n.store)
            && (!Works(n, fate, op) && op.key in n.store && fate.Mangled? ==>
                  && (forall k :: k != op.key ==> Read(r.net.store, k) == Read(n.store, k))
                  && Read(r.net.store, op.key) == fate.left)
  {
    var known := Latest(n.ledger, ref, op.key);
    if known.Some? {
      assert Newest(n.ledger, ref, op.key, known.value);
    }
    hide Latest;
  }

  /** A change that can be taken back: it worked, changed something, and is still what is live. */
  predicate Undoable(n: Net, tx: nat)
    requires tx < |n.ledger|
  {
    var t := n.ledger[tx];
    t.state == SUCCEEDED && t.changed && t.pre.Some? && t.key in n.store && n.store[t.key] == t.value
  }

  predicate UndoneBefore(n: Net, tx: nat)
    requires tx < |n.ledger|
  {
    var t := n.ledger[tx];
    && t.state == SUCCEEDED && t.changed && t.pre.Some? && t.undoneBy.Some? && t.undoneBy.value < |n.ledger|
    && n.ledger[t.undoneBy.value].state == SUCCEEDED
  }

  /** A rollback that was done before is accepted, one that cannot be done is refused, and both change
      nothing; any other writes the value found before, under a key of its own, and notes it. */
  lemma UndoEffects(n: Net, io: Oracle, tx: nat)
    requires tx < |n.ledger|
    ensures UndoneBefore(n, tx) ==> Undo(n, io, tx) == Undone(n, true)
    ensures !UndoneBefore(n, tx) && !Undoable(n, tx) ==> Undo(n, io, tx) == Undone(n, false)
    ensures !UndoneBefore(n, tx) && Undoable(n, tx) ==>
              var r, u := Execute(n, io, UndoOf(tx), Op(n.ledger[tx].key, n.ledger[tx].pre.value)), Undo(n, io, tx);
              && u.net.store == r.net.store && (u.ok <==> r.tx.Some?)
              && |u.net.ledger| == |r.net.ledger| && tx < |r.net.ledger|
              && (forall i :: 0 <= i < |u.net.ledger| && i != tx ==> u.net.ledger[i] == r.net.ledger[i])
              && u.net.ledger[tx] == if u.ok then r.net.ledger[tx].(undoneBy := r.tx) else r.net.ledger[tx]
  {
    var t := n.ledger[tx];
    if t.pre.Some? {
      ExecuteGrows(n, io, UndoOf(tx), Op(t.key, t.pre.value));
    }
    hide Execute;
  }
}
