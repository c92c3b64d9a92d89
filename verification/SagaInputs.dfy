/** Inputs at which a device run goes wrong, followed write by write. */
module SagaInputs {
  import opened Common
  import opened Saga
  import opened SagaReentry

  function RefusedAt(bad: nat): Oracle {
    i => if i == bad then Refused else Good
  }

  function Row(ref: Ref, key: Key, value: string, state: TxState, pre: string, undo: Option<nat>): Tx {
    Tx(ref, key, value, state, Some(pre), state == SUCCEEDED && value != pre, undo)
  }

  /** An operation that the ledger does not know yet. */
  lemma Sends(n: Net, bad: nat, ref: Ref, op: Op, pre: string)
    requires Read(n.store, op.key) == Some(pre) && |n.ledger| != bad
    requires forall i :: 0 <= i < |n.ledger| ==> n.ledger[i].ref == ref ==> n.ledger[i].state == FAILED
    ensures Execute(n, RefusedAt(bad), ref, op) ==
            Ran(Net(n.store[op.key := op.value], n.ledger + [Row(ref, op.key, op.value, SUCCEEDED, pre, None)]),
                Some(|n.ledger|))
  {
  }

  lemma IsRefused(n: Net, bad: nat, ref: Ref, op: Op, pre: string)
    requires Read(n.store, op.key) == Some(pre) && |n.ledger| == bad
    requires forall i :: 0 <= i < |n.ledger| ==> n.ledger[i].ref != ref
    ensures Execute(n, RefusedAt(bad), ref, op) ==
            Ran(n.(ledger := n.ledger + [Row(ref, op.key, op.value, FAILED, pre, None)]), None)
  {
  }

  lemma IsPassed(n: Net, io: Oracle, ref: Ref, op: Op, i: nat)
    requires i < |n.ledger| && n.ledger[i].ref == ref && n.ledger[i].key == op.key && n.ledger[i].state == SUCCEEDED
    requires forall t :: 0 <= t < |n.ledger| && n.ledger[t].ref == ref ==> t == i
    ensures Execute(n, io, ref, op) == Ran(n, Some(i))
  {
  }

  lemma RollsBack(n: Net, bad: nat, tx: nat, back: string)
    requires tx < |n.ledger| && |n.ledger| != bad && forall i :: 0 <= i < |n.ledger| ==> n.ledger[i].ref != UndoOf(tx)
    requires var t := n.ledger[tx]; t.state == SUCCEEDED && t.changed && t.pre == Some(back) && t.undoneBy == None
                                    && Read(n.store, t.key) == Some(t.value)
    ensures var t := n.ledger[tx];
            var rolled := Row(UndoOf(tx), t.key, back, SUCCEEDED, t.value, None);
            Undo(n, RefusedAt(bad), tx) ==
            Undone(Net(n.store[t.key := back], n.ledger[tx := t.(undoneBy := Some(|n.ledger|))] + [rolled]), true)
  {
    var t := n.ledger[tx];
    Sends(n, bad, UndoOf(tx), Op(t.key, back), t.value);
    hide Execute;
    var rolled := Row(UndoOf(tx), t.key, back, SUCCEEDED, t.value, None);
    assert (n.ledger + [rolled])[tx := t.(undoneBy := Some(|n.ledger|))] ==
      n.ledger[tx := t.(undoneBy := Some(|n.ledger|))] + [rolled];
  }

  lemma Turn(n: Net, io: Oracle, source: Source, ops: seq<Op>, k: nat, changed: seq<nat>, r: Ran)
    requires k < |ops| && (forall j :: 0 <= j < |changed| ==> changed[j] < |n.ledger|)
    requires r == Execute(n, io, OpOf(source, k + 1), ops[k]) && |n.ledger| <= |r.net.ledger|
    ensures r.tx.None? ==> var u := UndoAll(r.net, io, changed);
                           ApplyFrom(n, io, source, ops, k, changed) == Applied(u.net, false, changed, u.ok)
    ensures r.tx.Some? ==> r.tx.value < |r.net.ledger|
    ensures r.tx.Some? ==>
              ApplyFrom(n, io, source, ops, k, changed) ==
              ApplyFrom(r.net, io, source, ops, k + 1,
                        if r.net.ledger[r.tx.value].changed then changed + [r.tx.value] else changed)
  {
    hide Execute;
    hide UndoAll;
  }

  lemma LastTurn(n: Net, io: Oracle, source: Source, ops: seq<Op>, changed: seq<nat>)
    requires forall j :: 0 <= j < |changed| ==> changed[j] < |n.ledger|
    ensures ApplyFrom(n, io, source, ops, |ops|, changed) == Applied(n, true, changed, true)
  {
  }

  lemma UndoneOne(n: Net, io: Oracle, txs: seq<nat>, u: Undone)
    requires txs != [] && (forall k :: 0 <= k < |txs| ==> txs[k] < |n.ledger|)
    requires u == Undo(n, io, txs[|txs| - 1]) && |n.ledger| <= |u.net.ledger|
    ensures UndoAll(n, io, txs) == var rest := UndoAll(u.net, io, txs[..|txs| - 1]); Undone(rest.net, u.ok && rest.ok)
  {
    hide Undo;
  }

  lemma UndoneAll(n: Net, io: Oracle)
    ensures UndoAll(n, io, []) == Undone(n, true)
  {
  }

  /** A turn whose operation the network takes. */
  lemma SentTurn(n: Net, bad: nat, source: Source, ops: seq<Op>, k: nat, changed: seq<nat>, pre: string, next: Net)
    requires k < |ops| && (forall j :: 0 <= j < |changed| ==> changed[j] < |n.ledger|)
    requires Read(n.store, ops[k].key) == Some(pre) && pre != ops[k].value && |n.ledger| != bad
    requires forall i :: 0 <= i < |n.ledger| ==> n.ledger[i].ref == OpOf(source, k + 1) ==> n.ledger[i].state == FAILED
    requires next == Net(n.store[ops[k].key := ops[k].value],
                         n.ledger + [Row(OpOf(source, k + 1), ops[k].key, ops[k].value, SUCCEEDED, pre, None)])
    ensures ApplyFrom(n, RefusedAt(bad), source, ops, k, changed) ==
            ApplyFrom(next, RefusedAt(bad), source, ops, k + 1, changed + [|n.ledger|])
  {
    Sends(n, bad, OpOf(source, k + 1), ops[k], pre);
    Turn(n, RefusedAt(bad), source, ops, k, changed, Ran(next, Some(|n.ledger|)));
    assert next.ledger[|n.ledger|].changed;
    hide Execute;
    hide ApplyFrom;
    hide RefusedAt;
  }

  /** A turn whose operation the network refuses. */
  lemma RefusedTurn(n: Net, bad: nat, source: Source, ops: seq<Op>, k: nat, changed: seq<nat>, pre: string, next: Net)
    requires k < |ops| && (forall j :: 0 <= j < |changed| ==> changed[j] < |n.ledger|)
    requires Read(n.store, ops[k].key) == Some(pre) && |n.ledger| == bad
    requires forall i :: 0 <= i < |n.ledger| ==> n.ledger[i].ref != OpOf(source, k + 1)
    requires next == Net(n.store, n.ledger + [Row(OpOf(source, k + 1), ops[k].key, ops[k].value, FAILED, pre, None)])
    ensures var u := UndoAll(next, RefusedAt(bad), changed);
            ApplyFrom(n, RefusedAt(bad), source, ops, k, changed) == Applied(u.net, false, changed, u.ok)
  {
    IsRefused(n, bad, OpOf(source, k + 1), ops[k], pre);
    hide *;
    Turn(n, RefusedAt(bad), source, ops, k, changed, Ran(next, None));
  }

  /** A turn whose operation the ledger has as done. */
  lemma PassedTurn(n: Net, bad: nat, source: Source, ops: seq<Op>, k: nat, changed: seq<nat>, i: nat)
    requires k < |ops| && (forall j :: 0 <= j < |changed| ==> changed[j] < |n.ledger|)
    requires i < |n.ledger| && n.ledger[i].ref == OpOf(source, k + 1) && n.ledger[i].key == ops[k].key
    requires n.ledger[i].state == SUCCEEDED && n.ledger[i].changed
    requires forall t :: 0 <= t < |n.ledger| && n.ledger[t].ref == OpOf(source, k + 1) ==> t == i
    ensures ApplyFrom(n, RefusedAt(bad), source, ops, k, changed) ==
            ApplyFrom(n, RefusedAt(bad), source, ops, k + 1, changed + [i])
  {
    hide *;
    IsPassed(n, RefusedAt(bad), OpOf(source, k + 1), ops[k], i);
    Turn(n, RefusedAt(bad), source, ops, k, changed, Ran(n, Some(i)));
  }

  function TwoOps(a: Key, b: Key): seq<Op> {
    [Op(a, "1"), Op(b, "1")]
  }

  function TwoRows(source: Source, a: Key, b: Key): seq<Tx> {
    [Row(OpOf(source, 1), a, "1", SUCCEEDED, "0", None), Row(OpOf(source, 2), b, "1", FAILED, "0", None)]
  }

  /** The two operations compensated. */
  function TwoUndone(source: Source, a: Key, b: Key): Net {
    Net(map[a := "0", b := "0"],
        TwoRows(source, a, b)[0 := TwoRows(source, a, b)[0].(undoneBy := Some(2))] +
          [Row(UndoOf(0), a, "0", SUCCEEDED, "1", None)])
  }

  lemma FirstRun(source: Source, a: Key, b: Key)
    requires a != b
    ensures Apply(Net(map[a := "0", b := "0"], []), RefusedAt(1), source, TwoOps(a, b)) ==
            Applied(TwoUndone(source, a, b), false, [0], true)
  {
    hide Execute;
    hide RefusedAt;
    hide ApplyFrom;
    hide Undo;
    hide UndoAll;
    var n, ops := Net(map[a := "0", b := "0"], []), TwoOps(a, b);
    var n1 := Net(map[a := "1", b := "0"], TwoRows(source, a, b)[..1]);
    var n2 := Net(map[a := "1", b := "0"], TwoRows(source, a, b));
    assert n.store[a := "1"] == n1.store;
    SentTurn(n, 1, source, ops, 0, [], "0", n1);
    assert [] + [|n.ledger|] == [0];
    RefusedTurn(n1, 1, source, ops, 1, [0], "0", n2);
    TwoRolledBack(source, a, b);
  }

  lemma TwoRolledBack(source: Source, a: Key, b: Key)
    requires a != b
    ensures UndoAll(Net(map[a := "1", b := "0"], TwoRows(source, a, b)), RefusedAt(1), [0]) ==
            Undone(TwoUndone(source, a, b), true)
  {
    var n2, u := Net(map[a := "1", b := "0"], TwoRows(source, a, b)), TwoUndone(source, a, b);
    hide Execute;
    hide RefusedAt;
    hide Undo;
    hide UndoAll;
    RollsBack(n2, 1, 0, "0");
    assert n2.store[a := "0"] == u.store;
    UndoneOne(n2, RefusedAt(1), [0], Undone(u, true));
    UndoneAll(u, RefusedAt(1));
  }

  lemma SecondRun(source: Source, a: Key, b: Key)
    requires a != b
    ensures var again := Apply(TwoUndone(source, a, b), RefusedAt(1), source, TwoOps(a, b));
            again.ok && again.net.store == map[a := "0", b := "1"]
  {
    hide Execute;
    hide RefusedAt;
    hide ApplyFrom;
    var c, ops := TwoUndone(source, a, b), TwoOps(a, b);
    var last := Net(map[a := "0", b := "1"], c.ledger + [Row(OpOf(source, 2), b, "1", SUCCEEDED, "0", None)]);
    assert c.store[b := "1"] == last.store;
    PassedTurn(c, 1, source, ops, 0, [], 0);
    assert [] + [0] == [0];
    SentTurn(c, 1, source, ops, 1, [0], "0", last);
    LastTurn(last, RefusedAt(1), source, ops, [0] + [|c.ledger|]);
  }

  lemma TwoWanted(a: Key, b: Key)
    requires a != b
    ensures Wanted(map[a := "0", b := "0"], TwoOps(a, b)) == map[a := "1", b := "1"]
  {
    var s := map[a := "0", b := "0"];
    assert TwoOps(a, b) == [] + [Op(a, "1")] + [Op(b, "1")];
    WantedSnoc(s, [Op(a, "1")], Op(b, "1"));
    WantedSnoc(s, [], Op(a, "1"));
    assert s[a := "1"][b := "1"] == map[a := "1", b := "1"];
  }

  /** The failed run of two operations has compensated everything and is left as it was found. Started
      again it reports success, and the first operation is not on the device. */
  lemma UndoneOperationIsLost(source: Source, a: Key, b: Key)
    requires a != b
    ensures var n, ops, io := Net(map[a := "0", b := "0"], []), TwoOps(a, b), RefusedAt(1);
            var first := Apply(n, io, source, ops);
            && !first.ok && first.compensated && first.net.store == n.store
            && Apply(first.net, io, source, ops).ok
            && Apply(first.net, io, source, ops).net.store == map[a := "0", b := "1"]
            && Wanted(n.store, ops) == map[a := "1", b := "1"]
  {
    hide Apply;
    hide RefusedAt;
    hide Wanted;
    hide TwoOps;
    FirstRun(source, a, b);
    SecondRun(source, a, b);
    TwoWanted(a, b);
  }

  // That the last operation on a resource was rolled back does not settle it: here the resource was
  // changed and changed back, and undoing both leads to the wanted value again.

  function BackOps(k: Key, x: Key): seq<Op> {
    [Op(k, "1"), Op(k, "0"), Op(x, "1")]
  }

  function BackRows(source: Source, k: Key, x: Key): seq<Tx> {
    [Row(OpOf(source, 1), k, "1", SUCCEEDED, "0", None), Row(OpOf(source, 2), k, "0", SUCCEEDED, "1", None),
     Row(OpOf(source, 3), x, "1", FAILED, "0", None)]
  }

  function BackHalf(source: Source, k: Key, x: Key): Net {
    Net(map[k := "1", x := "0"],
        BackRows(source, k, x)[1 := BackRows(source, k, x)[1].(undoneBy := Some(3))] +
          [Row(UndoOf(1), k, "1", SUCCEEDED, "0", None)])
  }

  function BackUndone(source: Source, k: Key, x: Key): Net {
    Net(map[k := "0", x := "0"],
        BackHalf(source, k, x).ledger[0 := BackRows(source, k, x)[0].(undoneBy := Some(4))] +
          [Row(UndoOf(0), k, "0", SUCCEEDED, "1", None)])
  }

  lemma BackRolledBack(source: Source, k: Key, x: Key)
    requires k != x
    ensures UndoAll(Net(map[k := "0", x := "0"], BackRows(source, k, x)), RefusedAt(2), [0, 1]) ==
            Undone(BackUndone(source, k, x), true)
  {
    var n, h, u := Net(map[k := "0", x := "0"], BackRows(source, k, x)), BackHalf(source, k, x),
      BackUndone(source, k, x);
    hide Execute;
    hide RefusedAt;
    hide Undo;
    hide UndoAll;
    RollsBack(n, 2, 1, "1");
    assert n.store[k := "1"] == h.store;
    UndoneOne(n, RefusedAt(2), [0, 1], Undone(h, true));
    assert [0, 1][..1] == [0];
    RollsBack(h, 2, 0, "0");
    assert h.store[k := "0"] == u.store;
    UndoneOne(h, RefusedAt(2), [0], Undone(u, true));
    UndoneAll(u, RefusedAt(2));
  }

  lemma BackFirstRun(source: Source, k: Key, x: Key)
    requires k != x
    ensures Apply(Net(map[k := "0", x := "0"], []), RefusedAt(2), source, BackOps(k, x)) ==
            Applied(BackUndone(source, k, x), false, [0, 1], true)
  {
    BackTurns(source, k, x);
    BackRolledBack(source, k, x);
    hide RefusedAt;
    hide ApplyFrom;
    hide UndoAll;
    hide BackRows;
    hide BackUndone;
    hide BackOps;
  }

  lemma BackTurns(source: Source, k: Key, x: Key)
    requires k != x
    ensures var n, n3 := Net(map[k := "0", x := "0"], []), Net(map[k := "0", x := "0"], BackRows(source, k, x));
            var u := UndoAll(n3, RefusedAt(2), [0, 1]);
            ApplyFrom(n, RefusedAt(2), source, BackOps(k, x), 0, []) == Applied(u.net, false, [0, 1], u.ok)
  {
    hide Execute;
    hide RefusedAt;
    hide ApplyFrom;
    hide UndoAll;
    var n, ops, rows := Net(map[k := "0", x := "0"], []), BackOps(k, x), BackRows(source, k, x);
    var n1, n2, n3 := Net(map[k := "1", x := "0"], rows[..1]), Net(n.store, rows[..2]), Net(n.store, rows);
    assert n.store[k := "1"] == n1.store && n1.store[k := "0"] == n.store;
    SentTurn(n, 2, source, ops, 0, [], "0", n1);
    assert [] + [|n.ledger|] == [0];
    SentTurn(n1, 2, source, ops, 1, [0], "1", n2);
    assert [0] + [|n1.ledger|] == [0, 1];
    RefusedTurn(n2, 2, source, ops, 2, [0, 1], "0", n3);
  }

  lemma BackSecondRun(source: Source, k: Key, x: Key)
    requires k != x
    ensures var again := Apply(BackUndone(source, k, x), RefusedAt(2), source, BackOps(k, x));
            again.ok && again.net.store == map[k := "0", x := "1"]
  {
    hide Execute;
    hide RefusedAt;
    hide ApplyFrom;
    var c, ops := BackUndone(source, k, x), BackOps(k, x);
    var last := Net(map[k := "0", x := "1"], c.ledger + [Row(OpOf(source, 3), x, "1", SUCCEEDED, "0", None)]);
    assert c.store[x := "1"] == last.store;
    PassedTurn(c, 2, source, ops, 0, [], 0);
    assert [] + [0] == [0];
    PassedTurn(c, 2, source, ops, 1, [0], 1);
    assert [0] + [1] == [0, 1];
    SentTurn(c, 2, source, ops, 2, [0, 1], "0", last);
    LastTurn(last, RefusedAt(2), source, ops, [0, 1] + [|c.ledger|]);
  }

  lemma BackWanted(k: Key, x: Key)
    requires k != x
    ensures Wanted(map[k := "0", x := "0"], BackOps(k, x)) == map[k := "0", x := "1"]
  {
    var s := map[k := "0", x := "0"];
    assert BackOps(k, x) == [] + [Op(k, "1")] + [Op(k, "0")] + [Op(x, "1")];
    WantedSnoc(s, [Op(k, "1"), Op(k, "0")], Op(x, "1"));
    WantedSnoc(s, [Op(k, "1")], Op(k, "0"));
    WantedSnoc(s, [], Op(k, "1"));
    assert s[k := "1"][k := "0"][x := "1"] == map[k := "0", x := "1"];
  }

  /** The last operation on `k` has been rolled back, and starting again is right all the same. */
  lemma RolledBackYetRight(source: Source, k: Key, x: Key)
    requires k != x
    ensures var n, ops, io := Net(map[k := "0", x := "0"], []), BackOps(k, x), RefusedAt(2);
            var first := Apply(n, io, source, ops);
            && !first.ok && IsLast(ops, 1)
            && Latest(first.net.ledger, OpOf(source, 2), k) == Some(1) && first.net.ledger[1].undoneBy.Some?
            && Apply(first.net, io, source, ops).ok
            && Apply(first.net, io, source, ops).net.store == Wanted(n.store, ops)
  {
    BackLast(source, k, x);
    hide Apply;
    hide RefusedAt;
    hide Wanted;
    hide Latest;
    BackFirstRun(source, k, x);
    BackSecondRun(source, k, x);
    BackWanted(k, x);
  }

  lemma BackLast(source: Source, k: Key, x: Key)
    requires k != x
    ensures IsLast(BackOps(k, x), 1) && |BackUndone(source, k, x).ledger| == 5
    ensures Latest(BackUndone(source, k, x).ledger, OpOf(source, 2), k) == Some(1)
            && BackUndone(source, k, x).ledger[1].undoneBy.Some?
  {
    var ledger := BackUndone(source, k, x).ledger;
    assert ledger[1].ref == OpOf(source, 2) && ledger[1].key == k;
    hide Latest;
  }

  // A run stopped by a resource that is not there, whose compensation the network refuses.

  lemma IsMissing(n: Net, io: Oracle, ref: Ref, op: Op)
    requires op.key !in n.store && forall i :: 0 <= i < |n.ledger| ==> n.ledger[i].ref != ref
    ensures Execute(n, io, ref, op) ==
            Ran(n.(ledger := n.ledger + [Tx(ref, op.key, op.value, FAILED, None, false, None)]), None)
  {
  }

  /** A rollback the network refuses leaves the change where it is. */
  lemma RollbackRefused(n: Net, bad: nat, tx: nat, back: string)
    requires tx < |n.ledger| && |n.ledger| == bad && forall i :: 0 <= i < |n.ledger| ==> n.ledger[i].ref != UndoOf(tx)
    requires var t := n.ledger[tx]; t.state == SUCCEEDED && t.changed && t.pre == Some(back) && t.undoneBy == None
                                    && Read(n.store, t.key) == Some(t.value)
    ensures Undo(n, RefusedAt(bad), tx).net.store == n.store && !Undo(n, RefusedAt(bad), tx).ok
    ensures |Undo(n, RefusedAt(bad), tx).net.ledger| >= |n.ledger|
  {
    var t := n.ledger[tx];
    IsRefused(n, bad, UndoOf(tx), Op(t.key, back), t.value);
    hide Execute;
  }

  /** The second of two resources is not there, and the network refuses the third write, which is the
      compensation of the first: one refusal, and the device stays half changed. */
  lemma MissingMeetsRefusal(source: Source, a: Key, b: Key)
    requires a != b
    ensures var n, io := Net(map[a := "0"], []), RefusedAt(2);
            var r := Apply(n, io, source, TwoOps(a, b));
            !r.ok && !r.compensated && r.net.store == map[a := "1"]
  {
    hide Execute;
    hide RefusedAt;
    hide ApplyFrom;
    hide Undo;
    hide UndoAll;
    var n, ops := Net(map[a := "0"], []), TwoOps(a, b);
    var t0, t1 := TwoRows(source, a, b)[0], Tx(OpOf(source, 2), b, "1", FAILED, None, false, None);
    var n1, n2 := Net(map[a := "1"], [t0]), Net(map[a := "1"], [t0, t1]);
    assert n.store[a := "1"] == n1.store;
    SentTurn(n, 2, source, ops, 0, [], "0", n1);
    assert [] + [|n.ledger|] == [0];
    IsMissing(n1, RefusedAt(2), OpOf(source, 2), ops[1]);
    assert n1.ledger + [t1] == n2.ledger;
    Turn(n1, RefusedAt(2), source, ops, 1, [0], Ran(n2, None));
    RollbackRefused(n2, 2, 0, "0");
    var u := Undo(n2, RefusedAt(2), 0);
    UndoneOne(n2, RefusedAt(2), [0], u);
    UndoneAll(u.net, RefusedAt(2));
  }
}
