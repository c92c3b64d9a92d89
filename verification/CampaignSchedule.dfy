/** How a campaign lays its targets out in waves, and how many calls it takes to get through them. */
module CampaignSchedule {
  import opened Common
  import opened Saga
  import opened Campaigns

  /** The wave of the target at `index`: the canaries first, then waves of `size`. */
  function WaveOf(index: nat, canary: nat, size: nat): nat
    requires size >= 1
  {
    if canary > 0 && index < canary then 1
    else if canary > 0 then 2 + (index - canary) / size
    else 1 + index / size
  }

  /** The first index of a wave. */
  function WaveStart(v: nat, canary: nat, size: nat): nat
    requires v >= 1
  {
    if canary == 0 then (v - 1) * size else if v == 1 then 0 else canary + (v - 2) * size
  }

  lemma ProductRises(a: nat, b: nat, size: nat)
    requires a <= b
    ensures a * size <= b * size
  {
  }

  lemma Division(i: nat, size: nat)
    requires size >= 1
    ensures i / size >= 0 && i / size * size <= i < (i / size + 1) * size
  {
  }

  lemma QuotientIs(i: nat, size: nat, q: nat)
    requires size >= 1
    ensures i / size == q <==> q * size <= i < (q + 1) * size
  {
    Division(i, size);
    if q < i / size {
      ProductRises(q + 1, i / size, size);
    } else if q > i / size {
      ProductRises(i / size + 1, q, size);
    }
  }

  /** A wave is exactly the stretch of indices between its start and the next wave's start. */
  lemma WaveIsStretch(index: nat, v: nat, canary: nat, size: nat)
    requires size >= 1 && v >= 1
    ensures WaveOf(index, canary, size) == v <==> WaveStart(v, canary, size) <= index < WaveStart(v + 1, canary, size)
  {
    if canary == 0 {
      QuotientIs(index, size, v - 1);
      StartsAt(v, canary, size);
    } else {
      CanaryWaveIsStretch(index, v, canary, size);
    }
  }

  lemma CanaryWaveIsStretch(index: nat, v: nat, canary: nat, size: nat)
    requires size >= 1 && v >= 1 && canary >= 1
    ensures WaveOf(index, canary, size) == v <==> WaveStart(v, canary, size) <= index < WaveStart(v + 1, canary, size)
  {
    StartsAt(v, canary, size);
    if index < canary {
      assert WaveOf(index, canary, size) == 1;
      if v >= 2 {
        ProductRises(0, v - 2, size);
      }
    } else {
      var q := (index - canary) / size;
      Division(index - canary, size);
      assert WaveOf(index, canary, size) == 2 + q;
      if v >= 2 {
        QuotientIs(index - canary, size, v - 2);
      }
    }
    hide WaveStart;
    hide WaveOf;
  }

  lemma StartsAt(v: nat, canary: nat, size: nat)
    requires v >= 1
    ensures canary == 0 ==> WaveStart(v, canary, size) == (v - 1) * size && WaveStart(v + 1, canary, size) == v * size
    ensures canary > 0 && v == 1 ==> WaveStart(v, canary, size) == 0 && WaveStart(v + 1, canary, size) == canary
    ensures canary > 0 && v >= 2 ==> WaveStart(v, canary, size) == canary + (v - 2) * size
                                     && WaveStart(v + 1, canary, size) == canary + (v - 1) * size
  {
  }

  /** Wave 1 has exactly the canaries when there are any; every other wave takes `size` indices. */
  lemma WaveSizes(v: nat, canary: nat, size: nat)
    requires size >= 1 && v >= 1
    ensures WaveStart(v + 1, canary, size) - WaveStart(v, canary, size) == if canary > 0 && v == 1 then canary else size
    ensures WaveStart(1, canary, size) == 0
  {
    if canary == 0 {
      assert v * size == (v - 1) * size + size;
    } else if v >= 2 {
      assert (v - 1) * size == (v - 2) * size + size;
    }
  }

  /** Waves start at 1 and never skip a number. */
  lemma WavesHaveNoGap(index: nat, canary: nat, size: nat)
    requires size >= 1
    ensures WaveOf(0, canary, size) == 1
    ensures WaveOf(index, canary, size) <= WaveOf(index + 1, canary, size) <= WaveOf(index, canary, size) + 1
  {
    var v := WaveOf(index, canary, size);
    WaveIsStretch(index, v, canary, size);
    WaveSizes(v, canary, size);
    WaveSizes(v + 1, canary, size);
    WaveIsStretch(index + 1, v, canary, size);
    WaveIsStretch(index + 1, v + 1, canary, size);
  }

  lemma {:induction false} WavesRise(i: nat, j: nat, canary: nat, size: nat)
    requires size >= 1 && i <= j
    ensures 1 <= WaveOf(i, canary, size) <= WaveOf(j, canary, size)
    decreases j - i
  {
    if i < j {
      WavesRise(i, j - 1, canary, size);
      WavesHaveNoGap(j - 1, canary, size);
    }
  }

  /** Every wave up to that of the last target has a target. */
  lemma {:induction false} WaveIsMet(n: nat, v: nat, canary: nat, size: nat) returns (i: nat)
    requires size >= 1 && n >= 1 && 1 <= v <= WaveOf(n - 1, canary, size)
    ensures i < n && WaveOf(i, canary, size) == v
  {
    if WaveOf(n - 1, canary, size) == v {
      i := n - 1;
    } else {
      WavesHaveNoGap(n - 2, canary, size);
      i := WaveIsMet(n - 1, v, canary, size);
    }
  }

  datatype Request = Request(published: bool, nameLength: nat, targets: nat, canary: int, size: int,
                             maxFailures: int, rollback: bool)

  predicate Acceptable(r: Request) {
    && r.published && 1 <= r.nameLength <= 128 && 1 <= r.size <= 500 && 0 <= r.maxFailures <= r.size
    && 0 <= r.canary <= 100 && r.canary <= r.targets
  }

  /** The rows a new campaign starts with. */
  function Created(id: nat, r: Request, net: Net): Fleet
    requires Acceptable(r)
  {
    Fleet(Campaign(id, r.maxFailures, r.rollback, Draft, 0, 0),
          seq(r.targets, i requires 0 <= i => Target(WaveOf(i, r.canary, r.size), Pending, 0, [])), net, [])
  }

  /** When a request is refused. */
  lemma RefusedIff(r: Request)
    ensures !Acceptable(r) <==>
            || !r.published || r.nameLength == 0 || r.nameLength > 128 || r.size < 1 || r.size > 500
            || r.maxFailures < 0 || r.maxFailures > r.size || r.canary < 0 || r.canary > 100 || r.canary > r.targets
  {
  }

  /** A new campaign is a draft that has run nothing, with one untried target for each device, in the wave
      whose stretch has its index. */
  lemma CreatedRows(id: nat, r: Request, net: Net)
    requires Acceptable(r)
    ensures var f := Created(id, r, net);
            && f.c.id == id && f.c.state == Draft && f.c.failureCount == 0 && f.c.currentWave == 0 && f.net == net
            && f.c.maxFailures == r.maxFailures && f.c.rollbackOnFailure == r.rollback && f.log == []
            && |f.targets| == r.targets
            && forall i :: 0 <= i < |f.targets| ==>
                 && f.targets[i].state == Pending && f.targets[i].attempts == 0 && f.targets[i].txs == []
                 && f.targets[i].wave >= 1
                 && WaveStart(f.targets[i].wave, r.canary, r.size) <= i
                 && i < WaveStart(f.targets[i].wave + 1, r.canary, r.size)
  {
    var f := Created(id, r, net);
    forall i | 0 <= i < |f.targets|
      ensures f.targets[i].wave >= 1
      ensures WaveStart(f.targets[i].wave, r.canary, r.size) <= i < WaveStart(f.targets[i].wave + 1, r.canary, r.size)
    {
      WavesRise(0, i, r.canary, r.size);
      WaveIsStretch(i, f.targets[i].wave, r.canary, r.size);
    }
  }

  /** The index lies in the stretch of the wave it is given. */
  method WaveFor(index: nat, canary: nat, size: nat) returns (wave: nat)
    requires size >= 1
    ensures wave >= 1 && WaveStart(wave, canary, size) <= index < WaveStart(wave + 1, canary, size)
  {
    WavesRise(0, index, canary, size);
    WaveIsStretch(index, WaveOf(index, canary, size), canary, size);
    hide WaveStart;
    if canary > 0 && index < canary {
      wave := 1;
    } else if canary > 0 {
      wave := 2 + (index - canary) / size;
    } else {
      wave := 1 + index / size;
    }
  }

  method Create(id: nat, r: Request, net: Net) returns (f: Result<Fleet, string>)
    ensures f.Ok? <==> Acceptable(r)
    ensures f.Ok? ==> f.value == Created(id, r, net)
  {
    if !r.published {
      return Err("campaign requires a PUBLISHED desired state");
    }
    if r.nameLength == 0 || r.nameLength > 128 {
      return Err("campaign name is required and must be <=128 characters");
    }
    if r.size < 1 || r.size > 500 {
      return Err("campaign wave size must be 1..500");
    }
    if r.maxFailures < 0 || r.maxFailures > r.size {
      return Err("campaign max failures must be 0..wave size");
    }
    if r.canary < 0 || r.canary > 100 {
      return Err("campaign canary size must be 0..100");
    }
    if r.canary > r.targets {
      return Err("campaign canary size exceeds target count");
    }
    var rows := [];
    for index := 0 to r.targets
      invariant |rows| == index
      invariant forall i :: 0 <= i < index ==> rows[i] == Target(WaveOf(i, r.canary, r.size), Pending, 0, [])
    {
      hide WaveOf;
      var wave := WaveFor(index, r.canary, r.size);
      WaveIsStretch(index, wave, r.canary, r.size);
      rows := rows + [Target(wave, Pending, 0, [])];
    }
    return Ok(Fleet(Campaign(id, r.maxFailures, r.rollback, Draft, 0, 0), rows, net, []));
  }

  lemma CreatedIsSettled(id: nat, r: Request, net: Net)
    requires Acceptable(r)
    ensures Settled(Created(id, r, net))
  {
    hide WaveOf;
  }

  /** A new campaign id has nothing in the ledger yet, so its attempts are counted from the start. */
  lemma CreatedIsCounted(id: nat, r: Request, net: Net)
    requires Acceptable(r) && Sane(net.ledger)
    requires forall i :: 0 <= i < |net.ledger| && net.ledger[i].ref.OpOf? ==> net.ledger[i].ref.source.campaign != id
    ensures AttemptsCounted(Created(id, r, net))
  {
    hide WaveOf;
  }

  // ---- Progress ----

  /** Everything before wave `v` has run, nothing from it on has. */
  ghost predicate Frontier(ts: seq<Target>, v: nat) {
    forall i :: 0 <= i < |ts| ==>
      if ts[i].wave < v then ts[i].state in {Succeeded, Failed} else ts[i].state == Pending
  }

  /** The lowest wave with work is the frontier, so no target starts while a lower wave has one to run. */
  lemma FrontierIsNext(ts: seq<Target>, v: nat, p: nat)
    requires Frontier(ts, v) && p < |ts| && ts[p].wave == v
    ensures NextWave(ts, 0) == Some(v)
  {
  }

  lemma WaveMovesFrontier(f: Fleet, w: World, v: nat, p: nat)
    requires Settled(f) && f.c.state == Active && Frontier(f.targets, v) && p < |f.targets| && f.targets[p].wave == v
    requires Next(f, w, ExecuteNextWave(true)).c.state != Paused
    ensures var r := Next(f, w, ExecuteNextWave(true));
            && |r.targets| == |f.targets| && Frontier(r.targets, v + 1)
            && (forall i :: 0 <= i < |f.targets| ==> r.targets[i].wave == f.targets[i].wave)
            && r.c.state == if forall i :: 0 <= i < |f.targets| ==> f.targets[i].wave <= v then Done else Active
  {
    hide *;
    SettledGives(f);
    FrontierIsNext(f.targets, v, p);
    NextIsWave(f, w, ExecuteNextWave(true));
    var todo := PendingIn(f.targets, v, 0);
    RunWaveResult(f, w, v);
    WaveRuns(f, w, v);
    FrontierMoves(f.targets, RunFrom(f, w, todo, 0).targets, todo, v);
  }

  lemma FrontierMoves(ts: seq<Target>, rs: seq<Target>, todo: seq<nat>, v: nat)
    requires WaveRan(ts, rs, todo, v) && Frontier(ts, v)
    ensures Frontier(rs, v + 1) && forall i :: 0 <= i < |ts| ==> rs[i].wave == ts[i].wave
    ensures NextWave(rs, 0).None? <==> forall i :: 0 <= i < |ts| ==> ts[i].wave <= v
  {
    forall i | 0 <= i < |ts|
      ensures rs[i].wave == ts[i].wave
      ensures if rs[i].wave < v + 1 then rs[i].state in {Succeeded, Failed} else rs[i].state == Pending
    {
      assert i in todo || i !in todo;
    }
  }

  /** The campaign after `k` executed waves. */
  function Rounds(f: Fleet, w: World, k: nat): Fleet
    requires Settled(f)
    ensures Settled(Rounds(f, w, k))
  {
    if k == 0 then f
    else
      NextKeepsSettled(Rounds(f, w, k - 1), w, ExecuteNextWave(true));
      Next(Rounds(f, w, k - 1), w, ExecuteNextWave(true))
  }

  /** The number of calls it takes: one for every wave, and one for a campaign without targets. */
  function Calls(r: Request): (calls: nat)
    requires Acceptable(r)
    ensures calls >= 1
  {
    if r.targets == 0 then 1
    else
      WavesRise(0, r.targets - 1, r.canary, r.size);
      WaveOf(r.targets - 1, r.canary, r.size)
  }

  /** `k` waves have run, the others have not; the campaign has succeeded once all have. */
  ghost predicate AtRound(f: Fleet, r: Request, k: nat)
    requires Acceptable(r)
  {
    && |f.targets| == r.targets && Frontier(f.targets, k + 1)
    && (forall i :: 0 <= i < r.targets ==> f.targets[i].wave == WaveOf(i, r.canary, r.size))
    && f.c.state == if k == Calls(r) then Done else Active
  }

  lemma CallsIs(r: Request)
    requires Acceptable(r)
    ensures r.size >= 1 && r.canary >= 0 && Calls(r) >= 1
    ensures r.targets >= 1 ==> Calls(r) == WaveOf(r.targets - 1, r.canary, r.size)
    ensures r.targets == 0 ==> Calls(r) == 1
  {
  }

  lemma RoundAdvances(f: Fleet, w: World, r: Request, k: nat)
    requires Acceptable(r) && 1 <= k <= Calls(r)
    requires Settled(f) && AtRound(f, r, k - 1)
    requires Next(f, w, ExecuteNextWave(true)).c.state != Paused
    ensures AtRound(Next(f, w, ExecuteNextWave(true)), r, k)
  {
    hide *;
    CallsIs(r);
    AtRoundGives(f, r, k - 1);
    SettledGives(f);
    if r.targets == 0 {
      NothingToRun(f, w);
      AtRoundOfNone(Next(f, w, ExecuteNextWave(true)), r);
    } else {
      var p := WaveIsMet(r.targets, k, r.canary, r.size);
      LastWaveIsHighest(r);
      WaveMovesFrontier(f, w, k, p);
      AtRoundIf(f, Next(f, w, ExecuteNextWave(true)), r, k);
    }
  }

  lemma NothingToRun(f: Fleet, w: World)
    requires f.targets == [] && f.c.state == Active && TxsKnown(f.targets, f.net.ledger)
    ensures Next(f, w, ExecuteNextWave(true)).c.state == Done && Next(f, w, ExecuteNextWave(true)).targets == []
  {
  }

  lemma AtRoundOfNone(g: Fleet, r: Request)
    requires Acceptable(r) && r.targets == 0 && g.targets == [] && g.c.state == Done
    ensures AtRound(g, r, 1)
  {
  }

  lemma AtRoundGives(f: Fleet, r: Request, k: nat)
    requires Acceptable(r) && k < Calls(r) && AtRound(f, r, k)
    ensures |f.targets| == r.targets && Frontier(f.targets, k + 1) && f.c.state == Active
    ensures forall i :: 0 <= i < r.targets ==> f.targets[i].wave == WaveOf(i, r.canary, r.size)
  {
    hide WaveOf;
    hide Frontier;
  }

  lemma AtRoundIf(f: Fleet, g: Fleet, r: Request, k: nat)
    requires Acceptable(r) && r.targets >= 1 && k <= Calls(r)
    requires |g.targets| == |f.targets| == r.targets && Frontier(g.targets, k + 1)
    requires forall i :: 0 <= i < |f.targets| ==> g.targets[i].wave == f.targets[i].wave
    requires forall i :: 0 <= i < r.targets ==> f.targets[i].wave == WaveOf(i, r.canary, r.size)
    requires forall i :: 0 <= i < r.targets ==> WaveOf(i, r.canary, r.size) <= WaveOf(r.targets - 1, r.canary, r.size)
    requires g.c.state == if forall i :: 0 <= i < |f.targets| ==> f.targets[i].wave <= k then Done else Active
    ensures AtRound(g, r, k)
  {
    hide WaveOf;
    hide Frontier;
    assert f.targets[r.targets - 1].wave == WaveOf(r.targets - 1, r.canary, r.size);
  }

  /** With no wave over its threshold, a started campaign is still running before its last wave and
      has succeeded after exactly as many calls as it has waves, or after one if it has no targets. */
  lemma {:induction false} AsManyCallsAsWaves(id: nat, r: Request, net: Net, w: World, k: nat)
    requires Acceptable(r) && k <= Calls(r)
    requires Settled(Started(id, r, net))
    requires forall j :: 0 <= j <= k ==> Rounds(Started(id, r, net), w, j).c.state != Paused
    ensures AtRound(Rounds(Started(id, r, net), w, k), r, k)
    decreases k
  {
    hide *;
    var f := Started(id, r, net);
    if k == 0 {
      StartedIsAtRound(id, r, net, w);
    } else {
      AsManyCallsAsWaves(id, r, net, w, k - 1);
      RoundsUnfold(f, w, k);
      assert Rounds(f, w, k).c.state != Paused;
      RoundAdvances(Rounds(f, w, k - 1), w, r, k);
    }
  }

  lemma StartedIsAtRound(id: nat, r: Request, net: Net, w: World)
    requires Acceptable(r) && Settled(Started(id, r, net))
    ensures AtRound(Rounds(Started(id, r, net), w, 0), r, 0)
  {
    forall i | 0 <= i < r.targets ensures WaveOf(i, r.canary, r.size) >= 1 {
      WavesRise(0, i, r.canary, r.size);
    }
    hide WaveOf;
    hide Settled;
  }

  function Started(id: nat, r: Request, net: Net): Fleet
    requires Acceptable(r)
  {
    Created(id, r, net).(c := Created(id, r, net).c.(state := Active))
  }

  /** Starting a new campaign leads there, and every run from there on is settled. */
  lemma StartLeadsThere(id: nat, r: Request, net: Net, w: World)
    requires Acceptable(r)
    ensures Settled(Created(id, r, net)) && Next(Created(id, r, net), w, Start) == Started(id, r, net)
    ensures Settled(Started(id, r, net))
  {
    CreatedIsSettled(id, r, net);
    NextKeepsSettled(Created(id, r, net), w, Start);
    hide WaveOf;
    hide Settled;
  }

  lemma LastWaveIsHighest(r: Request)
    requires Acceptable(r) && r.targets >= 1
    ensures forall i :: 0 <= i < r.targets ==> WaveOf(i, r.canary, r.size) <= WaveOf(r.targets - 1, r.canary, r.size)
  {
    forall i | 0 <= i < r.targets
      ensures WaveOf(i, r.canary, r.size) <= WaveOf(r.targets - 1, r.canary, r.size)
    {
      WavesRise(i, r.targets - 1, r.canary, r.size);
    }
  }

  lemma RoundsUnfold(f: Fleet, w: World, k: nat)
    requires Settled(f) && k > 0
    ensures TxsKnown(Rounds(f, w, k - 1).targets, Rounds(f, w, k - 1).net.ledger)
    ensures Rounds(f, w, k) == Next(Rounds(f, w, k - 1), w, ExecuteNextWave(true))
  {
  }
}
