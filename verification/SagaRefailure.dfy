/** What becomes of a run that died while it was being compensated and, started again under its source,
    fails again: its second compensation finds some changes undone and noted, and undoes the rest. */
module SagaRefailure {
  import opened Common
  import opened Saga
  import opened SagaReentry

  // ---- Undoing a chain in two goes ----

  /** The changes in `done` taken back, newest first, as far as the first `i`; each must still be live. */
  function Unwound(ledger: seq<Tx>, txs: seq<nat>, i: nat, done: set<nat>, s: Store): Option<Store>
    requires i <= |txs|
    decreases |txs|
  {
    if |txs| == i then Some(s)
    else
      var last, front := txs[|txs| - 1], txs[..|txs| - 1];
      if last !in done then Unwound(ledger, front, i, done, s)
      else if last >= |ledger| || ledger[last].pre.None?
        || Read(s, ledger[last].key) != Some(ledger[last].value) then None
      else Unwound(ledger, front, i, done, s[ledger[last].key := ledger[last].pre.value])
  }

  /** On every resource one of two configurations shows `w` and the other `x`. */
  ghost predicate Paired(l: Store, m: Store, w: Store, x: Store) {
    forall k :: PairedAt(l, m, w, x, k)
  }

  predicate PairedAt(l: Store, m: Store, w: Store, x: Store, k: Key) {
    || (Read(l, k) == Read(w, k) && Read(m, k) == Read(x, k))
    || (Read(l, k) == Read(x, k) && Read(m, k) == Read(w, k))
  }

  lemma PairedSwap(l: Store, m: Store, w: Store, x: Store)
    requires Paired(l, m, w, x)
    ensures Paired(m, l, w, x)
  {
    hide Read;
    forall k ensures PairedAt(m, l, w, x, k) {
      assert PairedAt(l, m, w, x, k);
    }
  }

  /** Taking the newest change back in the one that shows it. */
  lemma PairedStep(l: Store, m: Store, s: Store, x: Store, t: Tx)
    requires Paired(l, m, s[t.key := t.value], x) && t.pre.Some? && Read(s, t.key) == t.pre
    requires Read(l, t.key) == Some(t.value)
    ensures Paired(l[t.key := t.pre.value], m, s, x)
  {
    var w, back := s[t.key := t.value], l[t.key := t.pre.value];
    forall k ensures PairedAt(back, m, s, x, k) {
      assert PairedAt(l, m, w, x, k);
    }
  }

  /** A chain undone in two goes that share the work. The first starts at its end, and the second where the
      first has left off. Wherever they stand on the way, on every resource one of them shows the chain
      and the other what the first go left. */
  lemma {:induction false} UnwoundTwice(s0: Store, ledger: seq<Tx>, txs: seq<nat>, i: nat, w: Store, l: Store, m: Store,
                                        x: Store, done: set<nat>, rest: set<nat>) returns (s: Store)
    requires i <= |txs| && Chain(s0, ledger, txs, w) && Paired(l, m, w, x)
    requires forall k :: i <= k < |txs| ==> (txs[k] in done <==> txs[k] !in rest)
    requires Unwound(ledger, txs, i, done, l).Some? && Unwound(ledger, txs, i, rest, m).Some?
    ensures Chain(s0, ledger, txs[..i], s)
    ensures Paired(Unwound(ledger, txs, i, done, l).value, Unwound(ledger, txs, i, rest, m).value, s, x)
    decreases |txs|
  {
    hide Paired;
    if |txs| == i {
      s := w;
      assert txs[..i] == txs;
    } else {
      var last, front := txs[|txs| - 1], txs[..|txs| - 1];
      var t := ledger[last];
      var up :| Chain(s0, ledger, front, up) && Read(up, t.key) == t.pre && w == up[t.key := t.value];
      hide Chain;
      assert txs[|txs| - 1] in done <==> txs[|txs| - 1] !in rest;
      if last in done {
        PairedStep(l, m, up, x, t);
        s := UnwoundTwice(s0, ledger, front, i, up, l[t.key := t.pre.value], m, x, done, rest);
      } else {
        PairedSwap(l, m, w, x);
        PairedStep(m, l, up, x, t);
        PairedSwap(m[t.key := t.pre.value], l, up, x);
        s := UnwoundTwice(s0, ledger, front, i, up, l, m[t.key := t.pre.value], x, done, rest);
      }
      assert front[..i] == txs[..i];
    }
  }

  /** Both goes together take back the whole chain. */
  lemma TwoGoesRestore(s0: Store, ledger: seq<Tx>, txs: seq<nat>, w: Store, x: Store, done: set<nat>, rest: set<nat>)
    requires Chain(s0, ledger, txs, w) && forall k :: 0 <= k < |txs| ==> (txs[k] in done <==> txs[k] !in rest)
    requires Unwound(ledger, txs, 0, done, w) == Some(x) && Unwound(ledger, txs, 0, rest, x).Some?
    ensures Unwound(ledger, txs, 0, rest, x).value == s0
  {
    hide Unwound;
    assert Paired(w, x, w, x) by {
      forall k ensures PairedAt(w, x, w, x, k) {
      }
    }
    var s := UnwoundTwice(s0, ledger, txs, 0, w, w, x, x, done, rest);
    assert txs[..0] == [];
    assert s == s0;
    var m := Unwound(ledger, txs, 0, rest, x).value;
    forall k ensures Read(m, k) == Read(s0, k) {
      assert PairedAt(x, m, s, x, k);
    }
    SameReads(m, s0);
  }

  /** A change taken back in the first go cannot be taken back in the second as well, if the first went no
      further. */
  lemma NotTwice(s0: Store, ledger: seq<Tx>, txs: seq<nat>, i: nat, w: Store, l: Store, x: Store, done: set<nat>,
                 rest: set<nat>)
    requires 0 < i <= |txs| && Chain(s0, ledger, txs, w)
    requires forall k :: i <= k < |txs| ==> (txs[k] in done <==> txs[k] !in rest)
    requires txs[i - 1] < |ledger| && ledger[txs[i - 1]].pre.Some?
    requires var t := ledger[txs[i - 1]];
             && Unwound(ledger, txs, i, done, w) == Some(l) && Read(l, t.key) == Some(t.value)
             && x == l[t.key := t.pre.value]
             && Unwound(ledger, txs, i, rest, x).Some?
    ensures Read(Unwound(ledger, txs, i, rest, x).value, ledger[txs[i - 1]].key) != Some(ledger[txs[i - 1]].value)
  {
    var t := ledger[txs[i - 1]];
    hide Unwound;
    assert Paired(w, x, w, x) by {
      forall k ensures PairedAt(w, x, w, x, k) {
      }
    }
    var s := UnwoundTwice(s0, ledger, txs, i, w, w, x, x, done, rest);
    var m := Unwound(ledger, txs, i, rest, x).value;
    assert PairedAt(l, m, s, x, t.key);
    ChainEndsWith(s0, ledger, txs[..i], s);
    assert txs[..i][i - 1] == txs[i - 1];
  }

  lemma ChainEndsWith(s0: Store, ledger: seq<Tx>, txs: seq<nat>, s: Store)
    requires txs != [] && Chain(s0, ledger, txs, s)
    ensures var last := txs[|txs| - 1];
            last < |ledger| && Read(s, ledger[last].key) == Some(ledger[last].value) && Effective(ledger[last])
  {
  }

  /** Unwinding looks at the values and the division of the work only. */
  lemma {:induction false} UnwoundSame(a: seq<Tx>, b: seq<Tx>, txs: seq<nat>, i: nat, done: set<nat>, other: set<nat>,
                                       s: Store)
    requires i <= |txs| && |a| <= |b|
    requires forall k :: i <= k < |txs| ==> txs[k] < |a| && b[txs[k]].(undoneBy := a[txs[k]].undoneBy) == a[txs[k]]
    requires forall k :: i <= k < |txs| ==> (txs[k] in done <==> txs[k] in other)
    ensures Unwound(a, txs, i, done, s) == Unwound(b, txs, i, other, s)
    decreases |txs|
  {
    if i < |txs| {
      var last, front := txs[|txs| - 1], txs[..|txs| - 1];
      assert forall k :: i <= k < |front| ==> front[k] == txs[k];
      var t := a[last];
      assert b[last].key == t.key && b[last].pre == t.pre && b[last].value == t.value;
      UnwoundSame(a, b, front, i, done, other, s);
      if t.pre.Some? {
        UnwoundSame(a, b, front, i, done, other, s[t.key := t.pre.value]);
      }
    }
  }

  /** Nothing to do below. */
  lemma {:induction false} UnwoundNone(ledger: seq<Tx>, txs: seq<nat>, done: set<nat>, s: Store)
    requires forall k :: 0 <= k < |txs| ==> txs[k] !in done
    ensures Unwound(ledger, txs, 0, done, s) == Some(s)
    decreases |txs|
  {
    if txs != [] {
      UnwoundNone(ledger, txs[..|txs| - 1], done, s);
    }
  }

  /** First down to `i`, then on. */
  lemma {:induction false} UnwoundOn(ledger: seq<Tx>, txs: seq<nat>, i: nat, done: set<nat>, s: Store)
    requires i <= |txs|
    ensures var mid := Unwound(ledger, txs, i, done, s);
            Unwound(ledger, txs, 0, done, s) ==
            if mid.None? then None else Unwound(ledger, txs[..i], 0, done, mid.value)
    decreases |txs|
  {
    if |txs| == i {
      assert txs[..i] == txs;
    } else {
      var last, front := txs[|txs| - 1], txs[..|txs| - 1];
      assert front[..i] == txs[..i];
      UnwoundOn(ledger, front, i, done, s);
      if last in done && last < |ledger| && ledger[last].pre.Some? {
        UnwoundOn(ledger, front, i, done, s[ledger[last].key := ledger[last].pre.value]);
      }
    }
  }

  // ---- Changes that are undone, and changes that are not ----

  /** A change with no rollback that worked. */
  predicate Open(ledger: seq<Tx>, tx: nat) {
    && tx < |ledger| && Effective(ledger[tx])
    && forall i :: 0 <= i < |ledger| && ledger[i].ref == UndoOf(tx) ==> ledger[i].state == FAILED
  }

  /** A change whose rollback worked and is noted. */
  predicate Closed(ledger: seq<Tx>, tx: nat) {
    && tx < |ledger| && ledger[tx].state == SUCCEEDED && ledger[tx].changed && ledger[tx].pre.Some?
    && ledger[tx].undoneBy.Some? && ledger[tx].undoneBy.value < |ledger|
    && ledger[ledger[tx].undoneBy.value].state == SUCCEEDED
  }

  function OpenOnes(ledger: seq<Tx>): set<nat> {
    set tx: nat | tx < |ledger| && ledger[tx].undoneBy.None?
  }

  function ClosedOnes(ledger: seq<Tx>): set<nat> {
    set tx: nat | tx < |ledger| && ledger[tx].undoneBy.Some?
  }

  /** Nothing has happened to the transactions `but` leaves out, and there are no rollbacks of them. */
  predicate Elsewhere(a: seq<Tx>, b: seq<Tx>, but: set<nat>) {
    && |a| <= |b|
    && (forall i :: 0 <= i < |a| ==> b[i] == a[i].(undoneBy := b[i].undoneBy) && (i !in but ==> b[i] == a[i]))
    && (forall i :: |a| <= i < |b| && b[i].ref.UndoOf? ==> b[i].ref.tx in but)
  }

  lemma ElsewhereTrans(a: seq<Tx>, b: seq<Tx>, c: seq<Tx>, but: set<nat>, more: set<nat>)
    requires Elsewhere(a, b, but) && Elsewhere(b, c, more)
    ensures Elsewhere(a, c, but + more)
  {
  }

  lemma ElsewhereKeeps(a: seq<Tx>, b: seq<Tx>, but: set<nat>, tx: nat)
    requires Elsewhere(a, b, but) && tx !in but
    ensures Open(a, tx) ==> Open(b, tx)
    ensures Closed(a, tx) ==> Closed(b, tx)
    ensures tx < |a| ==> tx < |b| && b[tx] == a[tx]
  {
    hide Effective;
  }

  /** A rollback of an open change. */
  lemma UndoOpen(n: Net, io: Oracle, tx: nat)
    requires Open(n.ledger, tx)
    ensures var u, t := Undo(n, io, tx), n.ledger[tx];
            && Elsewhere(n.ledger, u.net.ledger, {tx}) && t.pre.Some?
            && (u.ok ==> Read(n.store, t.key) == Some(t.value) && u.net.store == n.store[t.key := t.pre.value]
                         && Closed(u.net.ledger, tx))
            && (!u.ok ==>
                Open(u.net.ledger, tx) && (NeverMangles(io, |n.ledger|, |u.net.ledger|) ==> u.net.store == n.store))
  {
    var t := n.ledger[tx];
    var op := Op(t.key, t.pre.value);
    RollbackOfOpen(n, io, tx);
    hide Execute;
    hide Open;
    hide Closed;
    NotedIs(n, io, tx);
  }

  /** The write of a rollback of an open change. */
  lemma RollbackOfOpen(n: Net, io: Oracle, tx: nat)
    requires Open(n.ledger, tx) && n.ledger[tx].pre.Some?
    ensures var t := n.ledger[tx];
            var r := Execute(n, io, UndoOf(tx), Op(t.key, t.pre.value));
            && (r.tx.Some? ==> r.tx.value == |n.ledger| && r.net.store == n.store[t.key := t.pre.value])
            && |r.net.ledger| == |n.ledger| + 1 && r.net.ledger[..|n.ledger|] == n.ledger
            && r.net.ledger[|n.ledger|].ref == UndoOf(tx)
            && r.net.ledger[|n.ledger|].state == (if r.tx.Some? then SUCCEEDED else FAILED)
            && (r.tx.None? && !io(|n.ledger|).Mangled? ==> r.net.store == n.store)
  {
    hide Latest;
    hide Effective;
  }

  /** The ledger after the write, and after the note of it. */
  lemma NotedIs(n: Net, io: Oracle, tx: nat)
    requires Open(n.ledger, tx) && n.ledger[tx].pre.Some?
    requires var t := n.ledger[tx];
             var r := Execute(n, io, UndoOf(tx), Op(t.key, t.pre.value));
             && (r.tx.Some? ==> r.tx.value == |n.ledger|)
             && |r.net.ledger| == |n.ledger| + 1 && r.net.ledger[..|n.ledger|] == n.ledger
             && r.net.ledger[|n.ledger|].ref == UndoOf(tx)
             && r.net.ledger[|n.ledger|].state == (if r.tx.Some? then SUCCEEDED else FAILED)
    ensures var t := n.ledger[tx];
            var r := Execute(n, io, UndoOf(tx), Op(t.key, t.pre.value));
            && tx < |n.ledger| && Elsewhere(n.ledger, r.net.ledger, {tx}) && Elsewhere(n.ledger, n.ledger, {tx})
            && (r.tx.None? ==> Open(r.net.ledger, tx))
            && (r.tx.Some? ==>
                  var noted := r.net.ledger[tx := r.net.ledger[tx].(undoneBy := r.tx)];
                  Elsewhere(n.ledger, noted, {tx}) && Closed(noted, tx))
  {
    var t := n.ledger[tx];
    var r := Execute(n, io, UndoOf(tx), Op(t.key, t.pre.value));
    hide Execute;
    assert forall i :: 0 <= i < |n.ledger| ==> r.net.ledger[i] == r.net.ledger[..|n.ledger|][i];
  }

  // ---- The first compensation, as far as it came ----

  function Those(txs: seq<nat>): set<nat> {
    set tx | tx in txs
  }

  lemma ThoseSnoc(txs: seq<nat>)
    requires txs != [] && Increasing(txs)
    ensures var last, front := txs[|txs| - 1], txs[..|txs| - 1];
            Those(txs) == Those(front) + {last} && last !in Those(front) && Increasing(front)
  {
    var last, front := txs[|txs| - 1], txs[..|txs| - 1];
    assert txs == front + [last];
  }

  /** Every change it has come to is undone and noted or as open as before, and the configuration is what
      the noted ones make of it. */
  lemma {:induction false} FirstGo(n: Net, io: Oracle, txs: seq<nat>, j: nat)
    requires Increasing(txs) && j <= |txs| && forall k :: 0 <= k < |txs| ==> Open(n.ledger, txs[k])
    requires forall k :: 0 <= k < |txs| ==> txs[k] < |n.ledger|
    ensures var c := UndoLast(n, io, txs, j);
            && Elsewhere(n.ledger, c.ledger, Those(txs))
            && (forall k :: 0 <= k < |txs| ==> Open(c.ledger, txs[k]) || Closed(c.ledger, txs[k]))
            && (forall k :: 0 <= k < |txs| - j ==> Open(c.ledger, txs[k]))
            && (NeverMangles(io, |n.ledger|, |c.ledger|) ==>
                  Unwound(c.ledger, txs, |txs| - j, ClosedOnes(c.ledger), n.store) == Some(c.store))
    decreases j
  {
    hide *;
    if j == 0 {
      UndoNothing(n, io, txs);
      NothingElsewhere(n.ledger, Those(txs));
      UnwoundHere(n.ledger, txs, ClosedOnes(n.ledger), n.store);
    } else {
      var last, front := txs[|txs| - 1], txs[..|txs| - 1];
      UndoOne(n, io, txs, j);
      UndoOpen(n, io, last);
      ThoseSnoc(txs);
      var u := Undo(n, io, last);
      forall k | 0 <= k < |front| ensures Open(u.net.ledger, front[k]) && front[k] < |u.net.ledger| {
        FrontDiffers(txs, k);
        ElsewhereKeeps(n.ledger, u.net.ledger, {last}, front[k]);
      }
      FirstGo(u.net, io, front, j - 1);
      var c := UndoLast(u.net, io, front, j - 1);
      ElsewhereTrans(n.ledger, u.net.ledger, c.ledger, {last}, Those(front));
      assert {last} + Those(front) == Those(txs);
      ElsewhereKeeps(u.net.ledger, c.ledger, Those(front), last);
      FrontAndLast(txs, c.ledger, |txs| - j);
      if NeverMangles(io, |n.ledger|, |c.ledger|) {
        ElsewhereGrows(n.ledger, u.net.ledger, {last});
        ElsewhereGrows(u.net.ledger, c.ledger, Those(front));
        NeverManglesParts(io, |n.ledger|, |u.net.ledger|, |c.ledger|);
        NeverManglesFront(io, |n.ledger|, |u.net.ledger|, |c.ledger|);
        UnwoundStep(n, u, c, txs, |txs| - j);
      }
    }
  }

  lemma NothingElsewhere(ledger: seq<Tx>, but: set<nat>)
    ensures Elsewhere(ledger, ledger, but)
  {
  }

  lemma UnwoundHere(ledger: seq<Tx>, txs: seq<nat>, done: set<nat>, s: Store)
    ensures Unwound(ledger, txs, |txs|, done, s) == Some(s)
  {
  }

  lemma FrontDiffers(txs: seq<nat>, k: nat)
    requires Increasing(txs) && k < |txs| - 1
    ensures txs[..|txs| - 1][k] == txs[k] < txs[|txs| - 1] && txs[k] !in {txs[|txs| - 1]}
  {
  }

  lemma ElsewhereGrows(a: seq<Tx>, b: seq<Tx>, but: set<nat>)
    requires Elsewhere(a, b, but)
    ensures |a| <= |b|
  {
  }

  lemma FrontAndLast(txs: seq<nat>, ledger: seq<Tx>, i: nat)
    requires txs != [] && i < |txs|
    requires var front := txs[..|txs| - 1];
             && (forall k :: 0 <= k < |front| ==> Open(ledger, front[k]) || Closed(ledger, front[k]))
             && (forall k :: 0 <= k < i ==> Open(ledger, front[k]))
    requires Open(ledger, txs[|txs| - 1]) || Closed(ledger, txs[|txs| - 1])
    ensures forall k :: 0 <= k < |txs| ==> Open(ledger, txs[k]) || Closed(ledger, txs[k])
    ensures forall k :: 0 <= k < i ==> Open(ledger, txs[k])
  {
    hide Open;
    hide Closed;
    var front := txs[..|txs| - 1];
    assert forall k :: 0 <= k < |front| ==> front[k] == txs[k];
  }

  lemma UnwoundStep(n: Net, u: Undone, c: Net, txs: seq<nat>, i: nat)
    requires txs != [] && i < |txs| && Open(n.ledger, txs[|txs| - 1])
    requires var last, front := txs[|txs| - 1], txs[..|txs| - 1];
             var t := n.ledger[last];
             && last < |u.net.ledger| && last < |c.ledger| && c.ledger[last] == u.net.ledger[last]
             && Elsewhere(n.ledger, u.net.ledger, {last}) && t.pre.Some?
             && (u.ok ==> Read(n.store, t.key) == Some(t.value) && u.net.store == n.store[t.key := t.pre.value]
                          && Closed(u.net.ledger, last))
             && (!u.ok ==> Open(u.net.ledger, last) && u.net.store == n.store)
             && Unwound(c.ledger, front, i, ClosedOnes(c.ledger), u.net.store) == Some(c.store)
    ensures Unwound(c.ledger, txs, i, ClosedOnes(c.ledger), n.store) == Some(c.store)
  {
  }

  // ---- The second compensation ----

  /** A compensation that works takes back every change that was open. It can be followed to any point. */
  lemma {:induction false} SecondGo(n: Net, io: Oracle, txs: seq<nat>, i: nat) returns (mid: Net)
    requires Increasing(txs) && i <= |txs| && (forall k :: 0 <= k < |txs| ==> txs[k] < |n.ledger|)
    requires forall k :: i <= k < |txs| ==> Open(n.ledger, txs[k]) || Closed(n.ledger, txs[k])
    requires UndoAll(n, io, txs).ok
    ensures Unwound(n.ledger, txs, i, OpenOnes(n.ledger), n.store) == Some(mid.store)
    ensures (forall k :: 0 <= k < i ==> txs[k] < |mid.ledger| && mid.ledger[txs[k]] == n.ledger[txs[k]])
    ensures UndoAll(mid, io, txs[..i]).ok && UndoAll(mid, io, txs[..i]).net == UndoAll(n, io, txs).net
    decreases |txs|
  {
    hide *;
    if |txs| == i {
      mid := n;
      UnwoundHere(n.ledger, txs, OpenOnes(n.ledger), n.store);
      assert txs[..i] == txs;
    } else {
      var last, front := txs[|txs| - 1], txs[..|txs| - 1];
      UndoAllUnfolds(n, io, txs);
      ThoseSnoc(txs);
      var u := Undo(n, io, last);
      assert u.ok && Elsewhere(n.ledger, u.net.ledger, {last}) by {
        if Open(n.ledger, last) {
          UndoOpen(n, io, last);
        } else {
          UndoClosed(n, io, last);
          NothingElsewhere(n.ledger, {last});
        }
      }
      forall k | 0 <= k < |front|
        ensures front[k] < |u.net.ledger| && u.net.ledger[front[k]] == n.ledger[front[k]]
        ensures k >= i ==> Open(u.net.ledger, front[k]) || Closed(u.net.ledger, front[k])
      {
        FrontDiffers(txs, k);
        ElsewhereKeeps(n.ledger, u.net.ledger, {last}, front[k]);
      }
      mid := SecondGo(u.net, io, front, i);
      assert front[..i] == txs[..i];
      forall k | 0 <= k < i ensures txs[k] < |mid.ledger| && mid.ledger[txs[k]] == n.ledger[txs[k]] {
        FrontDiffers(txs, k);
      }
      SecondStep(n, u, io, txs, i, mid.store);
    }
  }

  lemma UndoClosed(n: Net, io: Oracle, tx: nat)
    requires Closed(n.ledger, tx)
    ensures Undo(n, io, tx) == Undone(n, true)
  {
    hide Execute;
  }

  lemma SecondStep(n: Net, u: Undone, io: Oracle, txs: seq<nat>, i: nat, s: Store)
    requires Increasing(txs) && i < |txs| && (forall k :: 0 <= k < |txs| ==> txs[k] < |n.ledger|)
    requires u.ok && u == Undo(n, io, txs[|txs| - 1]) && Elsewhere(n.ledger, u.net.ledger, {txs[|txs| - 1]})
    requires Open(n.ledger, txs[|txs| - 1]) || Closed(n.ledger, txs[|txs| - 1])
    requires Unwound(u.net.ledger, txs[..|txs| - 1], i, OpenOnes(u.net.ledger), u.net.store) == Some(s)
    ensures Unwound(n.ledger, txs, i, OpenOnes(n.ledger), n.store) == Some(s)
  {
    var last, front := txs[|txs| - 1], txs[..|txs| - 1];
    if Open(n.ledger, last) {
      UndoOpen(n, io, last);
    } else {
      UndoClosed(n, io, last);
    }
    hide Undo;
    UnwoundSame(n.ledger, u.net.ledger, front, i, OpenOnes(n.ledger), OpenOnes(u.net.ledger), u.net.store);
  }

  // ---- The first run ----

  lemma {:induction false} AfterIsUnderway(n: Net, io: Oracle, source: Source, ops: seq<Op>, m: nat)
    requires m <= |ops| && FreshFrom(n.ledger, source, 0) && Sane(n.ledger) && After(n, io, source, ops, m).Some?
    ensures var p := After(n, io, source, ops, m).value; Underway(p.net, source, m, p.changed, n.store)
    decreases m
  {
    hide *;
    if m == 0 {
      AfterNothing(n, io, source, ops);
      UnderwayAtStart(n, source);
    } else {
      AfterOneMore(n, io, source, ops, m);
      AfterIsUnderway(n, io, source, ops, m - 1);
      var p := After(n, io, source, ops, m - 1).value;
      StepKeepsUnderway(p.net, io, source, m - 1, ops[m - 1], p.changed, n.store);
      ChangedMore(n, io, source, ops, m);
    }
  }

  lemma ChangedMore(n: Net, io: Oracle, source: Source, ops: seq<Op>, m: nat)
    requires 0 < m <= |ops| && After(n, io, source, ops, m).Some? && After(n, io, source, ops, m - 1).Some?
    ensures var p, q := After(n, io, source, ops, m - 1).value, After(n, io, source, ops, m).value;
            var r := Execute(p.net, io, OpOf(source, m), ops[m - 1]);
            && r.tx.Some? && r.tx.value < |r.net.ledger|
            && q == Point(r.net, if r.net.ledger[r.tx.value].changed then p.changed + [r.tx.value] else p.changed)
  {
    hide Execute;
  }

  /** What a run has changed is what a restarted run passes over as changed. */
  lemma {:induction false} PassedChanges(n: Net, io: Oracle, source: Source, ops: seq<Op>, m: nat)
    requires m <= |ops| && FreshFrom(n.ledger, source, 0) && Sane(n.ledger) && After(n, io, source, ops, m).Some?
    ensures var p := After(n, io, source, ops, m).value;
            && Known(p.net.ledger, source, ops, 0, m) && FreshFrom(p.net.ledger, source, m) && Sane(p.net.ledger)
            && KnownChanges(p.net.ledger, source, ops, 0, m) == p.changed
    decreases m
  {
    hide *;
    AfterLeavesTrail(n, io, source, ops, m);
    ReachedIsKnown(n, io, source, ops, m);
    if m == 0 {
      AfterNothing(n, io, source, ops);
      KnownNone(n.ledger, source, ops, 0);
    } else {
      AfterOneMore(n, io, source, ops, m);
      PassedChanges(n, io, source, ops, m - 1);
      var p := After(n, io, source, ops, m - 1).value;
      ExecuteFresh(p.net, io, source, m - 1, ops[m - 1]);
      ChangedMore(n, io, source, ops, m);
      var r := Execute(p.net, io, OpOf(source, m), ops[m - 1]);
      StillKnown(p.net.ledger, r.net.ledger, source, ops, 0, m - 1);
      KnownChangesSnoc(r.net.ledger, source, ops, 0, m - 1);
      LastIsLatest(r.net.ledger, OpOf(source, m), ops[m - 1].key);
      assert p.changed + [] == p.changed;
    }
  }

  lemma LastIsLatest(ledger: seq<Tx>, ref: Ref, key: Key)
    requires ledger != [] && ledger[|ledger| - 1].ref == ref && ledger[|ledger| - 1].key == key
    ensures Latest(ledger, ref, key) == Some(|ledger| - 1)
  {
  }

  lemma {:induction false} ChainIsOpen(s0: Store, ledger: seq<Tx>, txs: seq<nat>, s1: Store, k: nat)
    requires Chain(s0, ledger, txs, s1) && NeverUndone(ledger, txs) && k < |txs|
    ensures Open(ledger, txs[k])
    decreases |txs|
  {
    hide Effective;
    if k < |txs| - 1 {
      var last, front := txs[|txs| - 1], txs[..|txs| - 1];
      var s :| Chain(s0, ledger, front, s) && Read(s, ledger[last].key) == ledger[last].pre
               && s1 == s[ledger[last].key := ledger[last].value];
      assert front[k] == txs[k];
      ChainIsOpen(s0, ledger, front, s, k);
    }
  }

  lemma UnderwayIsOpen(n: Net, source: Source, k: nat, changed: seq<nat>, s0: Store)
    requires Underway(n, source, k, changed, s0)
    ensures Chain(s0, n.ledger, changed, n.store) && Increasing(changed) && Sane(n.ledger)
    ensures forall i :: 0 <= i < |changed| ==> Open(n.ledger, changed[i]) && changed[i] < |n.ledger|
  {
    hide Open;
    forall i | 0 <= i < |changed| ensures Open(n.ledger, changed[i]) {
      ChainIsOpen(s0, n.ledger, changed, n.store, i);
    }
    hide Chain;
  }

  // ---- The restarted run ----

  /** Nothing has happened to the transactions below `base`, and there are no rollbacks of them. */
  predicate Beyond(a: seq<Tx>, b: seq<Tx>, base: nat) {
    && |a| <= |b|
    && (forall i :: 0 <= i < |a| ==> b[i] == a[i].(undoneBy := b[i].undoneBy) && (i < base ==> b[i] == a[i]))
    && (forall i :: |a| <= i < |b| && b[i].ref.UndoOf? ==> b[i].ref.tx >= base)
  }

  lemma BeyondTrans(a: seq<Tx>, b: seq<Tx>, c: seq<Tx>, base: nat)
    requires Beyond(a, b, base) && Beyond(b, c, base)
    ensures Beyond(a, c, base)
  {
  }

  lemma BeyondKeeps(a: seq<Tx>, b: seq<Tx>, base: nat, tx: nat)
    requires Beyond(a, b, base) && tx < base && tx < |a|
    ensures tx < |b| && b[tx] == a[tx]
    ensures Open(a, tx) ==> Open(b, tx)
    ensures Closed(a, tx) ==> Closed(b, tx)
  {
    hide Effective;
  }

  lemma UndoIsBeyond(n: Net, io: Oracle, tx: nat, base: nat)
    requires base <= tx < |n.ledger|
    ensures Beyond(n.ledger, Undo(n, io, tx).net.ledger, base)
  {
    var t := n.ledger[tx];
    BeyondItself(n.ledger, base);
    if t.pre.Some? {
      RollbackIsBeyond(n, io, tx, base);
    }
    hide Execute;
    hide Beyond;
    hide Read;
  }

  lemma RollbackIsBeyond(n: Net, io: Oracle, tx: nat, base: nat)
    requires base <= tx < |n.ledger| && n.ledger[tx].pre.Some?
    ensures var t := n.ledger[tx];
            var r := Execute(n, io, UndoOf(tx), Op(t.key, t.pre.value));
            && tx < |r.net.ledger| && Beyond(n.ledger, r.net.ledger, base)
            && Beyond(n.ledger, r.net.ledger[tx := r.net.ledger[tx].(undoneBy := r.tx)], base)
  {
    var t := n.ledger[tx];
    ExecuteState(n, io, UndoOf(tx), Op(t.key, t.pre.value));
    var r := Execute(n, io, UndoOf(tx), Op(t.key, t.pre.value));
    hide Execute;
    assert r.net != n ==> forall i :: 0 <= i < |n.ledger| ==> r.net.ledger[i] == r.net.ledger[..|n.ledger|][i];
  }

  lemma {:induction false} UndoAllIsBeyond(n: Net, io: Oracle, txs: seq<nat>, base: nat)
    requires forall k :: 0 <= k < |txs| ==> base <= txs[k] < |n.ledger|
    ensures Beyond(n.ledger, UndoAll(n, io, txs).net.ledger, base)
    decreases |txs|
  {
    if txs == [] {
      BeyondItself(n.ledger, base);
    } else {
      UndoAllUnfolds(n, io, txs);
      UndoIsBeyond(n, io, txs[|txs| - 1], base);
      hide *;
      var u := Undo(n, io, txs[|txs| - 1]);
      UndoAllIsBeyond(u.net, io, txs[..|txs| - 1], base);
      BeyondTrans(n.ledger, u.net.ledger, UndoAll(u.net, io, txs[..|txs| - 1]).net.ledger, base);
    }
  }

  lemma BeyondItself(ledger: seq<Tx>, base: nat)
    ensures Beyond(ledger, ledger, base)
  {
  }

  lemma {:induction false} UndoAllSplits(n: Net, io: Oracle, past: seq<nat>, young: seq<nat>)
    requires forall k :: 0 <= k < |past| ==> past[k] < |n.ledger|
    requires forall k :: 0 <= k < |young| ==> young[k] < |n.ledger|
    ensures forall k :: 0 <= k < |past + young| ==> (past + young)[k] < |n.ledger|
    ensures var x := UndoAll(n, io, young);
            && |n.ledger| <= |x.net.ledger|
            && UndoAll(n, io, past + young) == Undone(UndoAll(x.net, io, past).net, x.ok && UndoAll(x.net, io, past).ok)
    decreases |young|
  {
    if young == [] {
      assert past + young == past;
    } else {
      var all, last, front := past + young, young[|young| - 1], young[..|young| - 1];
      assert all[|all| - 1] == last && all[..|all| - 1] == past + front;
      UndoAllUnfolds(n, io, all);
      UndoAllUnfolds(n, io, young);
      hide *;
      UndoAllSplits(Undo(n, io, last).net, io, past, front);
    }
  }

  /** Between two operations of the restarted run: its own changes are a chain from where it started. */
  ghost predicate Anew(n: Net, source: Source, ops: seq<Op>, k: nat, young: seq<nat>, s: Store, base: nat) {
    && Chain(s, n.ledger, young, n.store) && Increasing(young) && NeverUndone(n.ledger, young) && Sane(n.ledger)
    && Unsettled(n.ledger, source, ops, k) && forall i :: 0 <= i < |young| ==> base <= young[i] < |n.ledger|
  }

  /** An operation the ledger has as open or failed. */
  lemma ExecuteAnew(n: Net, io: Oracle, source: Source, ops: seq<Op>, k: nat)
    requires k < |ops| && Unsettled(n.ledger, source, ops, k) && Sane(n.ledger)
    ensures var r := Execute(n, io, OpOf(source, k + 1), ops[k]);
            && n.ledger <= r.net.ledger && |r.net.ledger| <= |n.ledger| + 1 && Sane(r.net.ledger)
            && (|r.net.ledger| > |n.ledger| ==> r.net.ledger[|n.ledger|].ref == OpOf(source, k + 1))
            && (r.tx.None? && (|r.net.ledger| > |n.ledger| ==> !io(|n.ledger|).Mangled?) ==> r.net.store == n.store)
            && (r.tx.Some? ==>
                  && r.tx == Some(|n.ledger|) && |r.net.ledger| == |n.ledger| + 1
                  && r.net.store == n.store[ops[k].key := ops[k].value]
                  && var t := r.net.ledger[|n.ledger|];
                     if t.changed
                     then Effective(t) && t.key == ops[k].key && t.value == ops[k].value
                       && t.pre == Read(n.store, ops[k].key)
                     else r.net.store == n.store)
  {
    hide Latest;
  }

  lemma StepKeepsAnew(n: Net, io: Oracle, source: Source, ops: seq<Op>, k: nat, young: seq<nat>, s: Store, base: nat)
    requires k < |ops| && Anew(n, source, ops, k, young, s, base) && base <= |n.ledger|
    ensures var r := Execute(n, io, OpOf(source, k + 1), ops[k]);
            && n.ledger <= r.net.ledger && Beyond(n.ledger, r.net.ledger, base)
            && (r.tx.Some? ==>
                  && r.tx.value < |r.net.ledger|
                  && Anew(r.net, source, ops, k + 1,
                          if r.net.ledger[r.tx.value].changed then young + [r.tx.value] else young, s, base))
            && (r.tx.None? && (|r.net.ledger| > |n.ledger| ==> !io(|n.ledger|).Mangled?) ==>
                  && Chain(s, r.net.ledger, young, r.net.store) && Increasing(young) && NeverUndone(r.net.ledger, young)
                  && forall i :: 0 <= i < |young| ==> base <= young[i] < |r.net.ledger|)
  {
    hide *;
    AnewGives(n, source, ops, k, young, s, base);
    ExecuteAnew(n, io, source, ops, k);
    ExecuteUnsettled(n, io, source, ops, k);
    var r := Execute(n, io, OpOf(source, k + 1), ops[k]);
    OneMoreIsBeyond(n.ledger, r.net.ledger, base);
    SameTxs(n.ledger, r.net.ledger, young);
    ChainOnly(s, n.ledger, r.net.ledger, young, n.store);
    if |r.net.ledger| > |n.ledger| {
      NewIsNeverUndone(n.ledger, r.net.ledger, young);
    } else {
      assert r.net.ledger == n.ledger;
    }
    if r.tx.Some? {
      if r.net.ledger[|n.ledger|].changed {
        ChainSnoc(s, r.net.ledger, young, n.store, |n.ledger|);
        IncreasingSnoc(young, |n.ledger|, base);
        AnewIf(r.net, source, ops, k + 1, young + [|n.ledger|], s, base);
      } else {
        AnewIf(r.net, source, ops, k + 1, young, s, base);
      }
    }
  }

  lemma AnewGives(n: Net, source: Source, ops: seq<Op>, k: nat, young: seq<nat>, s: Store, base: nat)
    requires Anew(n, source, ops, k, young, s, base)
    ensures Chain(s, n.ledger, young, n.store) && Increasing(young) && NeverUndone(n.ledger, young) && Sane(n.ledger)
    ensures Unsettled(n.ledger, source, ops, k) && forall i :: 0 <= i < |young| ==> base <= young[i] < |n.ledger|
  {
    hide Chain;
    hide Unsettled;
  }

  lemma AnewIf(n: Net, source: Source, ops: seq<Op>, k: nat, young: seq<nat>, s: Store, base: nat)
    requires Chain(s, n.ledger, young, n.store) && Increasing(young) && NeverUndone(n.ledger, young) && Sane(n.ledger)
    requires Unsettled(n.ledger, source, ops, k) && forall i :: 0 <= i < |young| ==> base <= young[i] < |n.ledger|
    ensures Anew(n, source, ops, k, young, s, base)
  {
    hide Chain;
    hide Unsettled;
  }

  lemma SameTxs(a: seq<Tx>, b: seq<Tx>, txs: seq<nat>)
    requires a <= b && forall k :: 0 <= k < |txs| ==> txs[k] < |a|
    ensures forall k :: 0 <= k < |txs| ==> txs[k] < |b| && b[txs[k]] == a[txs[k]]
  {
  }

  lemma IncreasingSnoc(txs: seq<nat>, tx: nat, base: nat)
    requires Increasing(txs) && base <= tx && forall k :: 0 <= k < |txs| ==> base <= txs[k] < tx
    ensures Increasing(txs + [tx]) && forall k :: 0 <= k < |txs + [tx]| ==> base <= (txs + [tx])[k] < tx + 1
  {
  }

  lemma OneMoreIsBeyond(a: seq<Tx>, b: seq<Tx>, base: nat)
    requires a <= b && |b| <= |a| + 1 && (|b| > |a| ==> b[|a|].ref.OpOf?)
    ensures Beyond(a, b, base)
  {
  }

  /** A restarted run that fails and compensates everything: its own changes are taken back first, and
      then the old ones from where it was restarted. */
  lemma {:induction false} Rerun(n: Net, io: Oracle, source: Source, ops: seq<Op>, k: nat, past: seq<nat>,
                                 young: seq<nat>, s: Store, base: nat) returns (mid: Net)
    requires k <= |ops| && Anew(n, source, ops, k, young, s, base) && base <= |n.ledger|
    requires (forall i :: 0 <= i < |past| ==> past[i] < |n.ledger|)
             && (forall i :: 0 <= i < |young| ==> young[i] < |n.ledger|)
    requires forall i :: 0 <= i < |past + young| ==> (past + young)[i] < |n.ledger|
    requires var a := ApplyFrom(n, io, source, ops, k, past + young);
             !a.ok && a.compensated && NeverMangles(io, |n.ledger|, |a.net.ledger|)
    ensures mid.store == s && |n.ledger| <= |mid.ledger| && Beyond(n.ledger, mid.ledger, base)
    ensures UndoAll(mid, io, past) == Undone(ApplyFrom(n, io, source, ops, k, past + young).net, true)
    decreases |ops| - k
  {
    hide *;
    mid := n;
    if k == |ops| {
      NothingLeft(n, io, source, ops, past + young);
    } else {
      StepKeepsAnew(n, io, source, ops, k, young, s, base);
      FromHere(n, io, source, ops, k, past + young);
      var r := Execute(n, io, OpOf(source, k + 1), ops[k]);
      if r.tx.Some? {
        var more := if r.net.ledger[r.tx.value].changed then young + [r.tx.value] else young;
        AnewBounds(r.net, source, ops, k + 1, more, s, base);
        Regrouped(past, young, r.tx.value);
        NeverManglesPart(io, |n.ledger|, |r.net.ledger|, |ApplyFrom(n, io, source, ops, k, past + young).net.ledger|);
        BothBelow(past, more, |r.net.ledger|);
        mid := Rerun(r.net, io, source, ops, k + 1, past, more, s, base);
        BeyondTrans(n.ledger, r.net.ledger, mid.ledger, base);
      } else {
        UndoAllSplits(r.net, io, past, young);
        UndoAllKeepsRows(r.net, io, past + young);
        NeverManglesAt(io, |n.ledger|, |UndoAll(r.net, io, past + young).net.ledger|);
        mid := UndoAll(r.net, io, young).net;
        UndoAllRestores(r.net, io, young, s);
        UndoAllIsBeyond(r.net, io, young, base);
        BeyondTrans(n.ledger, r.net.ledger, mid.ledger, base);
      }
    }
  }

  lemma AnewBounds(n: Net, source: Source, ops: seq<Op>, k: nat, young: seq<nat>, s: Store, base: nat)
    requires Anew(n, source, ops, k, young, s, base)
    ensures forall i :: 0 <= i < |young| ==> young[i] < |n.ledger|
  {
    hide Chain;
  }

  lemma Regrouped(past: seq<nat>, young: seq<nat>, tx: nat)
    ensures (past + young) + [tx] == past + (young + [tx])
  {
  }

  lemma BothBelow(a: seq<nat>, b: seq<nat>, bound: nat)
    requires (forall i :: 0 <= i < |a| ==> a[i] < bound) && (forall i :: 0 <= i < |b| ==> b[i] < bound)
    ensures forall i :: 0 <= i < |a + b| ==> (a + b)[i] < bound
  {
  }

  lemma NeverManglesPart(io: Oracle, from: nat, mid: nat, to: nat)
    requires NeverMangles(io, from, to) && from <= mid
    ensures NeverMangles(io, mid, to)
  {
  }

  lemma NeverManglesAt(io: Oracle, at: nat, to: nat)
    requires NeverMangles(io, at, to)
    ensures at < to ==> !io(at).Mangled?
  {
  }

  // ---- Both runs together ----

  /** Where the failed operation leaves the run, before its compensation. */
  lemma FailureIsUnderway(n: Net, io: Oracle, source: Source, ops: seq<Op>, m: nat)
    requires m < |ops| && FreshFrom(n.ledger, source, 0) && Sane(n.ledger) && After(n, io, source, ops, m).Some?
    requires var p := After(n, io, source, ops, m).value;
             Execute(p.net, io, OpOf(source, m + 1), ops[m]).tx.None? && !io(|p.net.ledger|).Mangled?
    ensures var p := After(n, io, source, ops, m).value;
            var r := Execute(p.net, io, OpOf(source, m + 1), ops[m]);
            && |n.ledger| <= |p.net.ledger| < |r.net.ledger|
            && Chain(n.store, r.net.ledger, p.changed, r.net.store) && Increasing(p.changed) && Sane(r.net.ledger)
            && (forall i :: 0 <= i < |p.changed| ==> Open(r.net.ledger, p.changed[i]) && p.changed[i] < |r.net.ledger|)
            && Known(r.net.ledger, source, ops, 0, m) && Unsettled(r.net.ledger, source, ops, m)
            && KnownChanges(r.net.ledger, source, ops, 0, m) == p.changed
  {
    hide *;
    AfterIsUnderway(n, io, source, ops, m);
    AfterLeavesTrail(n, io, source, ops, m);
    PassedChanges(n, io, source, ops, m);
    var p := After(n, io, source, ops, m).value;
    TrailIsLonger(n, p.net, OpKeys(ops, m));
    StepKeepsUnderway(p.net, io, source, m, ops[m], p.changed, n.store);
    ExecuteFresh(p.net, io, source, m, ops[m]);
    var r := Execute(p.net, io, OpOf(source, m + 1), ops[m]);
    UnderwayIsOpen(r.net, source, m + 1, p.changed, n.store);
    FailsUnsettled(p.net, io, source, ops, m);
    StillKnown(p.net.ledger, r.net.ledger, source, ops, 0, m);
  }

  lemma {:induction false} ChangesStay(a: seq<Tx>, b: seq<Tx>, source: Source, ops: seq<Op>, k: nat, m: nat)
    requires Compensates(a, b) && k <= m <= |ops| && Known(a, source, ops, k, m) && Known(b, source, ops, k, m)
    ensures KnownChanges(b, source, ops, k, m) == KnownChanges(a, source, ops, k, m)
    decreases m - k
  {
    if k < m {
      LatestStays(a, b, OpOf(source, k + 1), ops[k].key);
      hide Latest;
      ChangesStay(a, b, source, ops, k + 1, m);
    }
  }

  lemma {:induction false} UndoLastCompensates(n: Net, io: Oracle, txs: seq<nat>, j: nat)
    requires j <= |txs| && forall k :: 0 <= k < |txs| ==> txs[k] < |n.ledger|
    ensures Compensates(n.ledger, UndoLast(n, io, txs, j).ledger)
    decreases j
  {
    hide *;
    if j == 0 {
      UndoNothing(n, io, txs);
    } else {
      UndoOne(n, io, txs, j);
      UndoMoves(n, io, txs[|txs| - 1]);
      var u := Undo(n, io, txs[|txs| - 1]).net;
      FrontBelow(txs, |u.ledger|);
      UndoLastCompensates(u, io, txs[..|txs| - 1], j - 1);
      CompensatesTrans(n.ledger, u.ledger, UndoLast(u, io, txs[..|txs| - 1], j - 1).ledger);
    }
  }

  lemma FrontBelow(txs: seq<nat>, bound: nat)
    requires txs != [] && forall k :: 0 <= k < |txs| ==> txs[k] < bound
    ensures var front := txs[..|txs| - 1]; forall k :: 0 <= k < |front| ==> front[k] < bound
  {
  }

  /** The restarted run from the point where it died, whose own changes begin with none. */
  lemma RestartIs(r: Net, c: Net, io: Oracle, source: Source, ops: seq<Op>, m: nat, changed: seq<nat>)
    requires m <= |ops| && Known(r.ledger, source, ops, 0, m) && Unsettled(r.ledger, source, ops, m)
    requires KnownChanges(r.ledger, source, ops, 0, m) == changed && Compensates(r.ledger, c.ledger) && Sane(r.ledger)
    requires Sane(c.ledger) && forall i :: 0 <= i < |changed| ==> changed[i] < |c.ledger|
    ensures Apply(c, io, source, ops) == ApplyFrom(c, io, source, ops, m, changed + [])
    ensures Anew(c, source, ops, m, [], c.store, |c.ledger|)
  {
    hide *;
    KnownStays(r.ledger, c.ledger, source, ops, m);
    ChangesStay(r.ledger, c.ledger, source, ops, 0, m);
    KnownArePassed(c, io, source, ops, 0, m, []);
    WholeRun(c, io, source, ops);
    assert [] + changed == changed && changed + [] == changed;
    NothingAnew(c, source, ops, m);
  }

  lemma NothingAnew(c: Net, source: Source, ops: seq<Op>, m: nat)
    requires Sane(c.ledger) && Unsettled(c.ledger, source, ops, m)
    ensures Anew(c, source, ops, m, [], c.store, |c.ledger|)
  {
    hide Unsettled;
  }

  lemma {:induction false} UndoLastIsSane(n: Net, io: Oracle, txs: seq<nat>, j: nat)
    requires j <= |txs| && Sane(n.ledger) && forall k :: 0 <= k < |txs| ==> txs[k] < |n.ledger|
    ensures Sane(UndoLast(n, io, txs, j).ledger)
    decreases j
  {
    hide *;
    if j == 0 {
      UndoNothing(n, io, txs);
    } else {
      UndoOne(n, io, txs, j);
      UndoIsSane(n, io, txs[|txs| - 1]);
      var u := Undo(n, io, txs[|txs| - 1]).net;
      FrontBelow(txs, |u.ledger|);
      UndoLastIsSane(u, io, txs[..|txs| - 1], j - 1);
    }
  }

  lemma UndoIsSane(n: Net, io: Oracle, tx: nat)
    requires tx < |n.ledger| && Sane(n.ledger)
    ensures Sane(Undo(n, io, tx).net.ledger) && Sane(Torn(n, io, tx).ledger)
  {
    var t := n.ledger[tx];
    if t.pre.Some? {
      ExecuteState(n, io, UndoOf(tx), Op(t.key, t.pre.value));
      var r := Execute(n, io, UndoOf(tx), Op(t.key, t.pre.value));
      assert r.net != n ==> forall i :: 0 <= i < |n.ledger| ==> r.net.ledger[i] == r.net.ledger[..|n.ledger|][i];
    }
    hide Execute;
  }

  /** What a rollback that is not noted leaves: nothing new, or the change taken back and still open. */
  lemma TornLeaves(d: Net, io: Oracle, tx: nat)
    requires Open(d.ledger, tx)
    ensures var c, t := Torn(d, io, tx), d.ledger[tx];
            && Elsewhere(d.ledger, c.ledger, {tx}) && tx < |c.ledger| && c.ledger[tx] == t && t.pre.Some?
            && ((Open(c.ledger, tx) && (NeverMangles(io, |d.ledger|, |c.ledger|) ==> c.store == d.store))
                || (Read(d.store, t.key) == Some(t.value) && c.store == d.store[t.key := t.pre.value]))
  {
    RollbackOfOpen(d, io, tx);
    NothingElsewhere(d.ledger, {tx});
    NotedIs(d, io, tx);
    var t := d.ledger[tx];
    var r := Execute(d, io, UndoOf(tx), Op(t.key, t.pre.value));
    assert r.net.ledger[tx] == r.net.ledger[..|d.ledger|][tx];
    hide Execute;
    hide Open;
    hide Elsewhere;
  }

  /** The two compensations as two goes at one chain. */
  lemma GoesMeet(s0: Store, r: Net, c: Net, mid: Net, io: Oracle, txs: seq<nat>, i: nat)
    requires Chain(s0, r.ledger, txs, r.store) && Increasing(txs) && i <= |txs|
    requires Elsewhere(r.ledger, c.ledger, Those(txs)) && Beyond(c.ledger, mid.ledger, |c.ledger|)
             && mid.store == c.store
    requires forall k :: 0 <= k < |txs| ==> txs[k] < |r.ledger| && txs[k] < |mid.ledger|
    requires forall k :: 0 <= k < |txs| ==> Open(c.ledger, txs[k]) || Closed(c.ledger, txs[k])
    requires forall k :: 0 <= k < i ==> Open(c.ledger, txs[k])
    requires Unwound(c.ledger, txs, i, ClosedOnes(c.ledger), r.store) == Some(c.store)
    requires UndoAll(mid, io, txs).ok
    ensures UndoAll(mid, io, txs).net.store == s0
  {
    hide *;
    forall k | 0 <= k < |txs| ensures Open(mid.ledger, txs[k]) || Closed(mid.ledger, txs[k]) {
      BeyondBelow(r.ledger, c.ledger, Those(txs), txs[k]);
      BeyondKeeps(c.ledger, mid.ledger, |c.ledger|, txs[k]);
    }
    var end := SecondGo(mid, io, txs, 0);
    assert txs[..0] == [];
    UndoneNothing(end, io);
    ClosedFirst(r.ledger, c.ledger, txs, i, r.store);
    OpenSecond(r.ledger, c.ledger, mid.ledger, txs, 0, c.store);
    Divided(c.ledger, txs);
    TwoGoesRestore(s0, r.ledger, txs, r.store, c.store, ClosedOnes(c.ledger), OpenOnes(c.ledger));
  }

  lemma BeyondBelow(a: seq<Tx>, b: seq<Tx>, but: set<nat>, tx: nat)
    requires Elsewhere(a, b, but) && tx < |a|
    ensures tx < |b|
  {
  }

  lemma UndoneNothing(n: Net, io: Oracle)
    ensures UndoAll(n, io, []) == Undone(n, true)
  {
  }

  /** The first go, in the ledger before it and down to the first change. */
  lemma ClosedFirst(a: seq<Tx>, c: seq<Tx>, txs: seq<nat>, i: nat, s: Store)
    requires i <= |txs| && (forall k :: 0 <= k < i ==> Open(c, txs[k])) && Elsewhere(a, c, Those(txs))
    requires forall k :: 0 <= k < |txs| ==> txs[k] < |a|
    ensures Unwound(c, txs, i, ClosedOnes(c), s).Some? ==>
            Unwound(a, txs, 0, ClosedOnes(c), s) == Unwound(c, txs, i, ClosedOnes(c), s)
  {
    UnwoundSame(a, c, txs, 0, ClosedOnes(c), ClosedOnes(c), s);
    UnwoundOn(c, txs, i, ClosedOnes(c), s);
    if Unwound(c, txs, i, ClosedOnes(c), s).Some? {
      forall k | 0 <= k < |txs[..i]| ensures txs[..i][k] !in ClosedOnes(c) {
        assert Open(c, txs[k]);
      }
      UnwoundNone(c, txs[..i], ClosedOnes(c), Unwound(c, txs, i, ClosedOnes(c), s).value);
    }
    hide Unwound;
    hide Open;
  }

  /** The second go, in the ledger before the first. */
  lemma OpenSecond(a: seq<Tx>, c: seq<Tx>, mid: seq<Tx>, txs: seq<nat>, i: nat, s: Store)
    requires i <= |txs| && Elsewhere(a, c, Those(txs)) && Beyond(c, mid, |c|)
    requires forall k :: 0 <= k < |txs| ==> txs[k] < |a|
    ensures Unwound(a, txs, i, OpenOnes(c), s) == Unwound(mid, txs, i, OpenOnes(mid), s)
  {
    UnwoundSame(a, c, txs, i, OpenOnes(c), OpenOnes(c), s);
    UnwoundSame(c, mid, txs, i, OpenOnes(c), OpenOnes(mid), s);
    hide Unwound;
  }

  lemma Divided(ledger: seq<Tx>, txs: seq<nat>)
    requires forall k :: 0 <= k < |txs| ==> Open(ledger, txs[k]) || Closed(ledger, txs[k])
    ensures forall k :: 0 <= k < |txs| ==> (txs[k] in ClosedOnes(ledger) <==> txs[k] !in OpenOnes(ledger))
  {
    forall k | 0 <= k < |txs| ensures txs[k] in ClosedOnes(ledger) <==> txs[k] !in OpenOnes(ledger) {
      assert Open(ledger, txs[k]) || Closed(ledger, txs[k]);
    }
  }

  /** A rollback that was written and not noted is in the way of every later compensation. */
  lemma TornIsInTheWay(s0: Store, r: Net, d: Net, c: Net, mid: Net, io: Oracle, txs: seq<nat>, i: nat)
    requires Chain(s0, r.ledger, txs, r.store) && Increasing(txs) && 0 < i <= |txs|
    requires Elsewhere(r.ledger, d.ledger, Those(txs)) && Elsewhere(d.ledger, c.ledger, {txs[i - 1]})
    requires Beyond(c.ledger, mid.ledger, |c.ledger|) && mid.store == c.store
    requires forall k :: 0 <= k < |txs| ==> txs[k] < |r.ledger| && txs[k] < |mid.ledger|
    requires forall k :: 0 <= k < |txs| ==> Open(d.ledger, txs[k]) || Closed(d.ledger, txs[k])
    requires txs[i - 1] < |d.ledger| && txs[i - 1] < |c.ledger| && d.ledger[txs[i - 1]].pre.Some?
    requires Open(d.ledger, txs[i - 1]) && c.ledger[txs[i - 1]] == d.ledger[txs[i - 1]]
    requires Unwound(d.ledger, txs, i, ClosedOnes(d.ledger), r.store) == Some(d.store)
    requires var t := d.ledger[txs[i - 1]];
             Read(d.store, t.key) == Some(t.value) && c.store == d.store[t.key := t.pre.value]
    ensures !UndoAll(mid, io, txs).ok
  {
    hide *;
    var tx := txs[i - 1];
    if UndoAll(mid, io, txs).ok {
      forall k | i <= k < |txs| ensures Open(mid.ledger, txs[k]) || Closed(mid.ledger, txs[k]) {
        OthersDiffer(txs, i, k);
        ElsewhereKeeps(d.ledger, c.ledger, {tx}, txs[k]);
        BeyondBelow(r.ledger, d.ledger, Those(txs), txs[k]);
        BeyondBelow(d.ledger, c.ledger, {tx}, txs[k]);
        BeyondKeeps(c.ledger, mid.ledger, |c.ledger|, txs[k]);
      }
      var at := SecondGo(mid, io, txs, i);
      BeyondKeeps(c.ledger, mid.ledger, |c.ledger|, tx);
      assert txs[..i][i - 1] == tx && |txs[..i]| == i;
      UndoAllUnfolds(at, io, txs[..i]);
      OpenIsNotNoted(d.ledger, tx);
      UndoNeedsLive(at, io, tx);
      TornGoes(r.ledger, d.ledger, c.ledger, mid.ledger, txs, i, c.store, r.store);
      Divided(d.ledger, txs);
      NotTwice(s0, r.ledger, txs, i, r.store, d.store, c.store, ClosedOnes(d.ledger), OpenOnes(d.ledger));
    }
  }

  lemma OthersDiffer(txs: seq<nat>, i: nat, k: nat)
    requires Increasing(txs) && 0 < i <= k < |txs|
    ensures txs[k] !in {txs[i - 1]}
  {
  }

  lemma OpenIsNotNoted(ledger: seq<Tx>, tx: nat)
    requires Open(ledger, tx)
    ensures tx < |ledger| && ledger[tx].undoneBy.None?
  {
  }

  lemma UndoNeedsLive(n: Net, io: Oracle, tx: nat)
    requires tx < |n.ledger| && n.ledger[tx].undoneBy.None? && Undo(n, io, tx).ok
    ensures Read(n.store, n.ledger[tx].key) == Some(n.ledger[tx].value)
  {
    hide Execute;
  }

  lemma TornGoes(a: seq<Tx>, d: seq<Tx>, c: seq<Tx>, mid: seq<Tx>, txs: seq<nat>, i: nat, s: Store, s1: Store)
    requires Increasing(txs) && 0 < i <= |txs| && Elsewhere(a, d, Those(txs)) && Elsewhere(d, c, {txs[i - 1]})
             && Beyond(c, mid, |c|)
    requires forall k :: 0 <= k < |txs| ==> txs[k] < |a|
    ensures Unwound(a, txs, i, OpenOnes(d), s) == Unwound(mid, txs, i, OpenOnes(mid), s)
    ensures Unwound(a, txs, i, ClosedOnes(d), s1) == Unwound(d, txs, i, ClosedOnes(d), s1)
    ensures d[txs[i - 1]].(undoneBy := a[txs[i - 1]].undoneBy) == a[txs[i - 1]]
  {
    UnwoundSame(a, d, txs, i, ClosedOnes(d), ClosedOnes(d), s1);
    UnwoundSame(a, d, txs, i, OpenOnes(d), OpenOnes(d), s);
    UnwoundSame(d, c, txs, i, OpenOnes(d), OpenOnes(c), s);
    UnwoundSame(c, mid, txs, i, OpenOnes(c), OpenOnes(mid), s);
    hide Unwound;
  }

  lemma {:induction false} ApplyGrows(n: Net, io: Oracle, source: Source, ops: seq<Op>, k: nat, changed: seq<nat>)
    requires k <= |ops| && forall i :: 0 <= i < |changed| ==> changed[i] < |n.ledger|
    ensures |n.ledger| <= |ApplyFrom(n, io, source, ops, k, changed).net.ledger|
    decreases |ops| - k
  {
    hide *;
    if k == |ops| {
      WholeOf(n, io, source, ops, changed);
    } else {
      FromHere(n, io, source, ops, k, changed);
      var r := Execute(n, io, OpOf(source, k + 1), ops[k]);
      if r.tx.Some? {
        ApplyGrows(r.net, io, source, ops, k + 1,
                   if r.net.ledger[r.tx.value].changed then changed + [r.tx.value] else changed);
      } else {
        UndoAllKeepsRows(r.net, io, changed);
      }
    }
  }

  lemma WholeOf(n: Net, io: Oracle, source: Source, ops: seq<Op>, changed: seq<nat>)
    requires forall i :: 0 <= i < |changed| ==> changed[i] < |n.ledger|
    ensures ApplyFrom(n, io, source, ops, |ops|, changed).net == n
  {
  }

  /** A torn rollback that was refused is as good as none. */
  lemma TornForNothing(r: Net, d: Net, c: Net, txs: seq<nat>, i: nat)
    requires Increasing(txs) && 0 < i <= |txs| && (forall k :: 0 <= k < |txs| ==> txs[k] < |r.ledger|)
    requires Elsewhere(r.ledger, d.ledger, Those(txs)) && Elsewhere(d.ledger, c.ledger, {txs[i - 1]})
    requires txs[i - 1] < |d.ledger| && txs[i - 1] < |c.ledger| && c.ledger[txs[i - 1]] == d.ledger[txs[i - 1]]
    requires (forall k :: 0 <= k < |txs| ==> Open(d.ledger, txs[k]) || Closed(d.ledger, txs[k]))
    requires (forall k :: 0 <= k < i ==> Open(d.ledger, txs[k])) && Open(c.ledger, txs[i - 1])
    ensures Elsewhere(r.ledger, c.ledger, Those(txs))
    ensures (forall k :: 0 <= k < |txs| ==> Open(c.ledger, txs[k]) || Closed(c.ledger, txs[k]))
    ensures (forall k :: 0 <= k < i ==> Open(c.ledger, txs[k]))
    ensures Unwound(c.ledger, txs, i, ClosedOnes(c.ledger), r.store) ==
            Unwound(d.ledger, txs, i, ClosedOnes(d.ledger), r.store)
  {
    ElsewhereTrans(r.ledger, d.ledger, c.ledger, Those(txs), {txs[i - 1]});
    assert Those(txs) + {txs[i - 1]} == Those(txs);
    hide Open;
    hide Closed;
    forall k | 0 <= k < |txs| && k != i - 1
      ensures Open(d.ledger, txs[k]) ==> Open(c.ledger, txs[k])
      ensures Closed(d.ledger, txs[k]) ==> Closed(c.ledger, txs[k])
    {
      ElsewhereKeeps(d.ledger, c.ledger, {txs[i - 1]}, txs[k]);
    }
    hide Unwound;
    UnwoundSame(d.ledger, c.ledger, txs, i, ClosedOnes(d.ledger), ClosedOnes(c.ledger), r.store);
  }

  lemma SecondHalf(s0: Store, r: Net, d: Net, c: Net, io: Oracle, source: Source, ops: seq<Op>, m: nat, txs: seq<nat>,
                   i: nat)
    requires m < |ops| && i <= |txs| && Chain(s0, r.ledger, txs, r.store) && Increasing(txs)
    requires forall k :: 0 <= k < |txs| ==> txs[k] < |r.ledger| <= |d.ledger| <= |c.ledger|
    requires Sane(r.ledger) && Sane(c.ledger) && Compensates(r.ledger, c.ledger)
    requires Known(r.ledger, source, ops, 0, m) && Unsettled(r.ledger, source, ops, m)
    requires KnownChanges(r.ledger, source, ops, 0, m) == txs
    requires Elsewhere(r.ledger, d.ledger, Those(txs))
    requires (forall k :: 0 <= k < |txs| ==> Open(d.ledger, txs[k]) || Closed(d.ledger, txs[k]))
    requires (forall k :: 0 <= k < i ==> Open(d.ledger, txs[k]))
    requires Unwound(d.ledger, txs, i, ClosedOnes(d.ledger), r.store) == Some(d.store)
    requires c == d || (i > 0 && c == Torn(d, io, txs[i - 1]) && NeverMangles(io, |d.ledger|, |c.ledger|))
    requires var a := Apply(c, io, source, ops); !a.ok && a.compensated && NeverMangles(io, |c.ledger|, |a.net.ledger|)
    ensures Apply(c, io, source, ops).net.store == s0
  {
    hide *;
    RestartIs(r, c, io, source, ops, m, txs);
    NoMoreBelow(txs, |c.ledger|);
    var mid := Rerun(c, io, source, ops, m, txs, [], c.store, |c.ledger|);
    if c == d {
      GoesMeet(s0, r, c, mid, io, txs, i);
    } else {
      var tx := txs[i - 1];
      TornLeaves(d, io, tx);
      if Open(c.ledger, tx) && c.store == d.store {
        TornForNothing(r, d, c, txs, i);
        GoesMeet(s0, r, c, mid, io, txs, i);
      } else {
        TornIsInTheWay(s0, r, d, c, mid, io, txs, i);
      }
    }
  }

  lemma NoMoreBelow(txs: seq<nat>, bound: nat)
    requires forall k :: 0 <= k < |txs| ==> txs[k] < bound
    ensures forall k :: 0 <= k < |txs + []| ==> (txs + [])[k] < bound
  {
  }

  /** A run that died while it was being compensated, started again under its source, that fails again:
      if every compensation the second run calls for works, the device is as it was before the first
      start. */
  lemma FailedAgainRestores(n: Net, io: Oracle, source: Source, ops: seq<Op>, m: nat, j: nat, torn: bool)
    requires m < |ops| && FreshFrom(n.ledger, source, 0) && Sane(n.ledger)
    requires After(n, io, source, ops, m).Some? && Crashed(n, io, source, ops, m, j, torn).Some?
    requires var a := Apply(Crashed(n, io, source, ops, m, j, torn).value, io, source, ops);
             !a.ok && a.compensated && NeverMangles(io, |n.ledger|, |a.net.ledger|)
    ensures Apply(Crashed(n, io, source, ops, m, j, torn).value, io, source, ops).net.store == n.store
  {
    hide *;
    var p := After(n, io, source, ops, m).value;
    var c := Crashed(n, io, source, ops, m, j, torn).value;
    var a := Apply(c, io, source, ops);
    CrashedIs(n, io, source, ops, m, j, torn);
    var r := Execute(p.net, io, OpOf(source, m + 1), ops[m]).net;
    var d, i := UndoLast(r, io, p.changed, j), |p.changed| - j;
    AfterLeavesTrail(n, io, source, ops, m);
    TrailIsLonger(n, p.net, OpKeys(ops, m));
    PassedChanges(n, io, source, ops, m);
    ExecuteFresh(p.net, io, source, m, ops[m]);
    UndoLastCompensates(r, io, p.changed, j);
    UndoLastIsSane(r, io, p.changed, j);
    CompensatesGrows(r.ledger, d.ledger);
    if torn {
      UndoMoves(d, io, p.changed[i - 1]);
      UndoIsSane(d, io, p.changed[i - 1]);
      CompensatesTrans(r.ledger, d.ledger, c.ledger);
      CompensatesGrows(d.ledger, c.ledger);
    }
    WholeRun(c, io, source, ops);
    ApplyGrows(c, io, source, ops, 0, []);
    NeverManglesPart(io, |n.ledger|, |p.net.ledger|, |a.net.ledger|);
    NeverManglesAt(io, |p.net.ledger|, |a.net.ledger|);
    FailureIsUnderway(n, io, source, ops, m);
    FirstGo(r, io, p.changed, j);
    NeverManglesPart(io, |n.ledger|, |r.ledger|, |a.net.ledger|);
    NeverManglesFront(io, |r.ledger|, |d.ledger|, |a.net.ledger|);
    NeverManglesPart(io, |r.ledger|, |d.ledger|, |a.net.ledger|);
    NeverManglesFront(io, |d.ledger|, |c.ledger|, |a.net.ledger|);
    NeverManglesPart(io, |d.ledger|, |c.ledger|, |a.net.ledger|);
    SecondHalf(n.store, r, d, c, io, source, ops, m, p.changed, i);
  }
}
