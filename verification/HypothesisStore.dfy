/** The upsert of hypotheses (correlation.py): the rows of an incident are made to equal a computed list.

    A key is the digest of incident, rule version, rule and cluster. The digest is taken to be injective,
    so a key is written here as what it is made from. Payload texts are numbers. */
module HypothesisStore {
  import opened Common

  datatype Key = Key(incident: nat, version: nat, rule: nat, cluster: nat)
  datatype Hypothesis = Hypothesis(key: Key, payload: nat)
  datatype Row = Row(payload: nat, active: bool, created: int, updated: int)

  type Rows = map<Key, Row>

  const RULE_SET_VERSION := 1

  /** One hypothesis: inserted, overwritten when it differs or sleeps, or left alone. */
  function Upsert(rows: Rows, h: Hypothesis, now: int): Rows {
    if h.key !in rows then rows[h.key := Row(h.payload, true, now, now)]
    else if rows[h.key].payload != h.payload || !rows[h.key].active then
      rows[h.key := rows[h.key].(payload := h.payload, active := true, updated := now)]
    else rows
  }

  function UpsertAll(rows: Rows, hs: seq<Hypothesis>, now: int): Rows
    decreases |hs|
  {
    if hs == [] then rows else Upsert(UpsertAll(rows, hs[..|hs| - 1], now), hs[|hs| - 1], now)
  }

  function KeysOf(hs: seq<Hypothesis>): set<Key> {
    set h | h in hs :: h.key
  }

  /** A row of this incident and rule version that the computed list does not hold. */
  predicate Outdated(k: Key, r: Row, incident: nat, hs: seq<Hypothesis>) {
    k.incident == incident && k.version == RULE_SET_VERSION && r.active && k !in KeysOf(hs)
  }

  function Retire(rows: Rows, incident: nat, hs: seq<Hypothesis>, now: int): Rows {
    map k | k in rows ::
      if Outdated(k, rows[k], incident, hs) then rows[k].(active := false, updated := now) else rows[k]
  }

  /** `_persist` */
  function Persist(rows: Rows, incident: nat, hs: seq<Hypothesis>, now: int): Rows {
    Retire(UpsertAll(rows, hs, now), incident, hs, now)
  }

  /** The list `_evaluate` hands over: hypotheses of one incident under the current rules. */
  predicate Computed(incident: nat, hs: seq<Hypothesis>) {
    && (forall i :: 0 <= i < |hs| ==> hs[i].key.incident == incident && hs[i].key.version == RULE_SET_VERSION)
    && forall i, j :: 0 <= i < j < |hs| ==> hs[i].key != hs[j].key
  }

  predicate Holds(hs: seq<Hypothesis>, k: Key, payload: nat) {
    exists i :: 0 <= i < |hs| && hs[i] == Hypothesis(k, payload)
  }

  lemma {:induction false} UpsertedAt(rows: Rows, hs: seq<Hypothesis>, now: int, k: Key)
    requires forall i, j :: 0 <= i < j < |hs| ==> hs[i].key != hs[j].key
    ensures var r := UpsertAll(rows, hs, now);
            && (k !in KeysOf(hs) ==> (k in r <==> k in rows) && (k in rows ==> r[k] == rows[k]))
            && (k in KeysOf(hs) ==>
                  && k in r && r[k].active && Holds(hs, k, r[k].payload)
                  && (if k in rows then r[k].created == rows[k].created else r[k].created == now == r[k].updated)
                  && (k in rows && r[k] != rows[k] ==> r[k].updated == now)
                  && (k in rows && rows[k].active && rows[k].payload == r[k].payload ==> r[k] == rows[k]))
    decreases |hs|
  {
    if hs != [] {
      var front, h := hs[..|hs| - 1], hs[|hs| - 1];
      UpsertedAt(rows, front, now, k);
      FrontKeys(hs);
      hide KeysOf;
      if k == h.key {
        assert hs[|hs| - 1] == h;
      } else if k in KeysOf(front) {
        var payload := UpsertAll(rows, front, now)[k].payload;
        var i :| 0 <= i < |front| && front[i] == Hypothesis(k, payload);
        assert hs[i] == Hypothesis(k, payload);
      }
    }
  }

  lemma FrontKeys(hs: seq<Hypothesis>)
    requires hs != [] && forall i, j :: 0 <= i < j < |hs| ==> hs[i].key != hs[j].key
    ensures var front, h := hs[..|hs| - 1], hs[|hs| - 1];
            KeysOf(hs) == KeysOf(front) + {h.key} && h.key !in KeysOf(front)
  {
    var front, h := hs[..|hs| - 1], hs[|hs| - 1];
    assert hs == front + [h];
    assert h in hs;
    forall g | g in front ensures g in hs && g.key != h.key {
      var i :| 0 <= i < |front| && front[i] == g;
      assert hs[i] == g;
    }
  }

  lemma HeldKeys(hs: seq<Hypothesis>, k: Key, payload: nat)
    requires Holds(hs, k, payload)
    ensures k in KeysOf(hs)
  {
    var i :| 0 <= i < |hs| && hs[i] == Hypothesis(k, payload);
    assert hs[i] in hs;
  }

  lemma HeldOnce(hs: seq<Hypothesis>, k: Key, a: nat, b: nat)
    requires Holds(hs, k, a) && Holds(hs, k, b)
    requires forall i, j :: 0 <= i < j < |hs| ==> hs[i].key != hs[j].key
    ensures a == b
  {
    var i :| 0 <= i < |hs| && hs[i] == Hypothesis(k, a);
    var j :| 0 <= j < |hs| && hs[j] == Hypothesis(k, b);
    assert !(i < j) && !(j < i);
  }

  predicate ActiveWith(rows: Rows, k: Key, payload: nat) {
    k in rows && rows[k].active && rows[k].payload == payload
  }

  /** Afterwards the active rows of the incident under the current rules are exactly the list, payload
      for payload; every other row, of another incident or another rule version, is as it was; and no
      row is deleted or created again. */
  lemma PersistIsExact(rows: Rows, incident: nat, hs: seq<Hypothesis>, now: int, k: Key)
    requires Computed(incident, hs)
    ensures var r := Persist(rows, incident, hs, now);
            && (k.incident == incident && k.version == RULE_SET_VERSION ==>
                  forall payload :: ActiveWith(r, k, payload) <==> Holds(hs, k, payload))
            && (k.incident != incident || k.version != RULE_SET_VERSION ==>
                  (k in r <==> k in rows) && (k in rows ==> r[k] == rows[k]))
            && (k in rows ==> k in r && r[k].created == rows[k].created)
  {
    UpsertedAt(rows, hs, now, k);
    var r := Persist(rows, incident, hs, now);
    assert k in KeysOf(hs) ==> k.incident == incident && k.version == RULE_SET_VERSION;
    hide KeysOf;
    hide UpsertAll;
    forall payload | Holds(hs, k, payload) && k.incident == incident && k.version == RULE_SET_VERSION
      ensures ActiveWith(r, k, payload)
    {
      HeldKeys(hs, k, payload);
      HeldOnce(hs, k, payload, r[k].payload);
    }
  }

  /** Time stamps tell the truth: a new row is created now, a row that differs was updated now, and a row
      that is retired keeps its payload. */
  lemma StampsTell(rows: Rows, incident: nat, hs: seq<Hypothesis>, now: int, k: Key)
    requires Computed(incident, hs) && k in Persist(rows, incident, hs, now)
    ensures var r := Persist(rows, incident, hs, now);
            && (k !in rows ==> r[k].created == now == r[k].updated)
            && (k in rows && r[k] != rows[k] ==> r[k].updated == now)
            && (k in rows && rows[k].active && !r[k].active ==> r[k] == rows[k].(active := false, updated := now))
  {
    UpsertedAt(rows, hs, now, k);
    hide KeysOf;
    hide UpsertAll;
  }

  /** Doing it again, at any later time, changes nothing: not even a time stamp. */
  lemma PersistTwice(rows: Rows, incident: nat, hs: seq<Hypothesis>, now: int, later: int)
    requires Computed(incident, hs)
    ensures var once := Persist(rows, incident, hs, now);
            Persist(once, incident, hs, later) == once
  {
    hide Persist;
    var once := Persist(rows, incident, hs, now);
    var twice := Persist(once, incident, hs, later);
    forall k ensures (k in twice <==> k in once) && (k in once ==> twice[k] == once[k]) {
      SameAgain(rows, incident, hs, now, later, k);
    }
    assert twice.Keys == once.Keys;
  }

  lemma SameAgain(rows: Rows, incident: nat, hs: seq<Hypothesis>, now: int, later: int, k: Key)
    requires Computed(incident, hs)
    ensures var once := Persist(rows, incident, hs, now);
            var twice := Persist(once, incident, hs, later);
            (k in twice <==> k in once) && (k in once ==> twice[k] == once[k])
  {
    var once := Persist(rows, incident, hs, now);
    UpsertedAt(rows, hs, now, k);
    UpsertedAt(once, hs, later, k);
    hide KeysOf;
    hide UpsertAll;
    if k in KeysOf(hs) {
      HeldOnce(hs, k, once[k].payload, UpsertAll(once, hs, later)[k].payload);
    }
  }

  // ---- The table ----

  class HypothesisTable {
    var rows: Rows

    constructor ()
      ensures rows == map[]
    {
      rows := map[];
    }

    /** `_persist` */
    method PersistAll(incident: nat, hs: seq<Hypothesis>, now: int)
      modifies this
      ensures rows == old(Persist(rows, incident, hs, now))
    {
      hide KeysOf;
      ghost var was := rows;
      NoneUpserted(was, hs, now);
      for i := 0 to |hs|
        invariant rows == UpsertAll(was, hs[..i], now)
      {
        UpsertNext(was, hs, i, now);
        var h := hs[i];
        if h.key !in rows {
          rows := rows[h.key := Row(h.payload, true, now, now)];
        } else if rows[h.key].payload != h.payload || !rows[h.key].active {
          rows := rows[h.key := rows[h.key].(payload := h.payload, active := true, updated := now)];
        }
      }
      assert hs[..|hs|] == hs;
      var active := KeysOf(hs);
      rows := map k | k in rows ::
        if k.incident == incident && k.version == RULE_SET_VERSION && rows[k].active && k !in active
        then rows[k].(active := false, updated := now) else rows[k];
    }
  }

  lemma NoneUpserted(rows: Rows, hs: seq<Hypothesis>, now: int)
    ensures UpsertAll(rows, hs[..0], now) == rows
  {
  }

  lemma UpsertNext(rows: Rows, hs: seq<Hypothesis>, i: nat, now: int)
    requires i < |hs|
    ensures UpsertAll(rows, hs[..i + 1], now) == Upsert(UpsertAll(rows, hs[..i], now), hs[i], now)
  {
    assert hs[..i + 1][..i] == hs[..i];
    hide Upsert;
  }
}
