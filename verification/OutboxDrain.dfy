/** How fast the worker drains the outbox, whatever Kafka does. */
module OutboxDrain {
  import opened Payloads
  import opened OutboxMachine
  import Bags

  // ---- Rounds of the worker on the table ----

  /** What one successful visit of the worker does to a row of its batch. */
  ghost predicate Visited(before: Row, after: Row) {
    if before.retryCount >= MAX_RETRIES then after == Fail(before)
    else after == Retry(before) || exists now :: after == Complete(before, now)
  }

  /**
   * One whole round, rows inserted meanwhile being newer than the horizon. When some update of the round failed,
   * any row of the batch may be left as it was.
   */
  ghost predicate Round(t: Table, t': Table, batch: seq<Row>, failed: bool, horizon: int) {
    && IsBatch(t, batch, BATCH)
    && (forall id :: id in t ==> id in t')
    && (forall i :: 0 <= i < |batch| ==> batch[i].id in t' && VisitedOrLeft(batch[i], t'[batch[i].id], failed))
    && (forall id :: id in t && !HasId(batch, id) ==> t'[id] == t[id])
    && (forall id :: id in t' && id !in t ==> t'[id].createdAt > horizon)
  }

  ghost predicate VisitedOrLeft(before: Row, after: Row, failed: bool) {
    Visited(before, after) || (failed && after == before)
  }

  /** Tables ts[0], ts[1], ... separated by rounds with the given batches; fs tells the rounds with a failed update. */
  ghost predicate Rounds(ts: seq<Table>, bs: seq<seq<Row>>, fs: seq<bool>, horizon: int) {
    && |ts| == |bs| + 1 && |fs| == |bs|
    && (forall i :: 0 <= i < |bs| ==> Round(ts[i], ts[i + 1], bs[i], fs[i], horizon))
  }

  function Failures(fs: seq<bool>): (n: nat)
    ensures n <= |fs|
  {
    if fs == [] then 0 else Failures(fs[..|fs| - 1]) + if fs[|fs| - 1] then 1 else 0
  }

  lemma {:induction false} FailuresSplit(fs: seq<bool>, k: nat)
    requires k <= |fs|
    ensures Failures(fs) == Failures(fs[..k]) + Failures(fs[k..])
    decreases |fs|
  {
    if k == |fs| {
      assert fs[..k] == fs && fs[k..] == [];
    } else {
      var n := |fs| - 1;
      FailuresSplit(fs[..n], k);
      assert fs[..n][..k] == fs[..k] && fs[..n][k..] == fs[k..][..n - k];
    }
  }

  lemma {:induction false} FailuresStep(fs: seq<bool>, n: nat)
    requires n < |fs|
    ensures Failures(fs[..n + 1]) == Failures(fs[..n]) + if fs[n] then 1 else 0
  {
    assert fs[..n + 1][..n] == fs[..n];
  }

  /** The first rounds that contain just this many without a failure. */
  lemma {:induction false} CleanRounds(fs: seq<bool>, clean: nat) returns (m: nat)
    requires |fs| - Failures(fs) >= clean
    ensures m <= |fs| && m - Failures(fs[..m]) == clean
    decreases |fs|
  {
    m := |fs|;
    assert fs[..m] == fs;
    if |fs| - Failures(fs) > clean {
      var n := |fs| - 1;
      FailuresStep(fs, n);
      m := CleanRounds(fs[..n], clean);
      assert fs[..n][..m] == fs[..m];
    }
  }

  ghost predicate IsPending(t: Table, id: string) {
    id in t && t[id].status == Pending
  }

  /** The pending rows that may come before row id: older, or of the same time. */
  ghost function Ahead(t: Table, id: string): set<string>
    requires id in t
  {
    set x | x in t && x != id && t[x].status == Pending && t[x].createdAt <= t[id].createdAt
  }

  ghost function Ids(batch: seq<Row>): set<string> {
    set i | 0 <= i < |batch| :: batch[i].id
  }

  /** No two pending rows up to the horizon have the same time. */
  ghost predicate DistinctTimes(t: Table, horizon: int) {
    forall x, y :: x in Old(t, horizon) && y in Old(t, horizon) && x != y ==> t[x].createdAt != t[y].createdAt
  }

  /** The pending rows up to the horizon. */
  ghost function Old(t: Table, horizon: int): set<string> {
    set x | x in t && t[x].status == Pending && t[x].createdAt <= horizon
  }

  lemma {:induction false} IdsCount(batch: seq<Row>)
    requires Distinct(batch)
    ensures |Ids(batch)| == |batch|
    decreases |batch|
  {
    if batch != [] {
      var front, last := batch[..|batch| - 1], batch[|batch| - 1];
      IdsCount(front);
      assert Ids(batch) == Ids(front) + {last.id};
      assert last.id !in Ids(front);
    }
  }

  lemma {:induction false} SubsetCount<T>(a: set<T>, b: set<T>)
    requires a <= b
    ensures |a| <= |b|
  {
    assert b == a + (b - a);
  }

  /** A pending row with fewer than a hundred rows ahead is in every batch the query may return. */
  lemma {:induction false} FrontIsFetched(t: Table, batch: seq<Row>, id: string)
    requires IsBatch(t, batch, BATCH) && IsPending(t, id) && |Ahead(t, id)| < BATCH
    ensures HasId(batch, id)
  {
    if !HasId(batch, id) {
      IdsCount(batch);
      assert Ids(batch) <= Ahead(t, id);
      SubsetCount(Ids(batch), Ahead(t, id));
    }
  }

  lemma {:induction false} RoundFrame(t: Table, t': Table, batch: seq<Row>, failed: bool, horizon: int, id: string)
    requires Round(t, t', batch, failed, horizon) && id in t
    ensures t'[id].createdAt == t[id].createdAt
    ensures t'[id].status == Pending ==> t[id].status == Pending
    ensures t'[id].status == Pending && HasId(batch, id) ==>
              || (t[id].retryCount < MAX_RETRIES && t'[id].retryCount == t[id].retryCount + 1)
              || (failed && t'[id] == t[id])
    ensures !HasId(batch, id) ==> t'[id] == t[id]
  {
    if HasId(batch, id) {
      var i :| 0 <= i < |batch| && batch[i].id == id;
      assert VisitedOrLeft(batch[i], t'[id], failed);
    }
  }

  /** Rounds never put a row ahead of an old one, nor make a settled row pending again. */
  lemma {:induction false} AheadShrinks(t: Table, t': Table, batch: seq<Row>, failed: bool, horizon: int, id: string)
    requires Round(t, t', batch, failed, horizon) && id in t && t[id].createdAt <= horizon
    ensures Ahead(t', id) <= Ahead(t, id)
    ensures IsPending(t', id) ==> IsPending(t, id)
    ensures t'[id].createdAt == t[id].createdAt
  {
    RoundFrame(t, t', batch, failed, horizon, id);
    forall x | x in Ahead(t', id)
      ensures x in Ahead(t, id)
    {
      if x in t {
        RoundFrame(t, t', batch, failed, horizon, x);
      }
    }
  }

  lemma {:induction false} SameLengths(ts: seq<Table>, bs: seq<seq<Row>>, fs: seq<bool>, horizon: int)
    requires Rounds(ts, bs, fs, horizon)
    ensures |ts| == |bs| + 1 && |fs| == |bs|
  {
  }

  lemma {:induction false} RoundsTail(ts: seq<Table>, bs: seq<seq<Row>>, fs: seq<bool>, horizon: int, k: nat)
    requires Rounds(ts, bs, fs, horizon) && k <= |bs|
    ensures Rounds(ts[k..], bs[k..], fs[k..], horizon)
  {
    forall i | 0 <= i < |bs[k..]|
      ensures Round(ts[k..][i], ts[k..][i + 1], bs[k..][i], fs[k..][i], horizon)
    {
      assert Round(ts[k + i], ts[k + i + 1], bs[k + i], fs[k + i], horizon);
    }
  }

  /** After n rounds an old row is still there, no more rows are ahead of it, and if pending it was pending. */
  lemma {:induction false} RoundsShrink(ts: seq<Table>, bs: seq<seq<Row>>, fs: seq<bool>, horizon: int, id: string, n: nat)
    requires Rounds(ts, bs, fs, horizon) && n <= |bs| && id in ts[0] && ts[0][id].createdAt <= horizon
    ensures id in ts[n] && ts[n][id].createdAt == ts[0][id].createdAt
    ensures Ahead(ts[n], id) <= Ahead(ts[0], id)
    ensures IsPending(ts[n], id) ==> IsPending(ts[0], id)
    decreases n
  {
    if n > 0 {
      RoundsShrink(ts, bs, fs, horizon, id, n - 1);
      assert Round(ts[n - 1], ts[n - 1 + 1], bs[n - 1], fs[n - 1], horizon);
      AheadShrinks(ts[n - 1], ts[n], bs[n - 1], fs[n - 1], horizon, id);
    }
  }

  lemma {:induction false} RoundAt(ts: seq<Table>, bs: seq<seq<Row>>, fs: seq<bool>, horizon: int, i: nat)
    requires Rounds(ts, bs, fs, horizon) && i < |bs|
    ensures Round(ts[i], ts[i + 1], bs[i], fs[i], horizon)
  {
  }

  /** A row in front of every batch gains a retry in each round without a failure that leaves it pending. */
  lemma {:induction false} FrontAdvances(ts: seq<Table>, bs: seq<seq<Row>>, fs: seq<bool>, horizon: int, id: string, n: nat)
    requires Rounds(ts, bs, fs, horizon) && n <= |bs|
    requires id in ts[0] && ts[0][id].createdAt <= horizon && |Ahead(ts[0], id)| < BATCH
    ensures id in ts[n]
    ensures IsPending(ts[n], id) ==>
              && ts[n][id].retryCount >= n - Failures(fs[..n])
              && (n > Failures(fs[..n]) ==> ts[n][id].retryCount <= MAX_RETRIES)
    decreases n
  {
    hide Ahead, Failures, Round, Rounds, IsPending;
    SameLengths(ts, bs, fs, horizon);
    RoundsShrink(ts, bs, fs, horizon, id, n);
    if n > 0 {
      FailuresStep(fs, n - 1);
      FrontAdvances(ts, bs, fs, horizon, id, n - 1);
      RoundsShrink(ts, bs, fs, horizon, id, n - 1);
      var t, t', batch := ts[n - 1], ts[n], bs[n - 1];
      RoundAt(ts, bs, fs, horizon, n - 1);
      FrontRound(t, t', batch, fs[n - 1], horizon, id, |Ahead(ts[0], id)|, Ahead(ts[0], id));
    } else {
      NoFailures(fs);
    }
  }

  lemma {:induction false} NoFailures(fs: seq<bool>)
    ensures Failures(fs[..0]) == 0
  {
  }

  /** One round of a row that is in every batch. */
  lemma {:induction false} FrontRound(
    t: Table, t': Table, batch: seq<Row>, failed: bool, horizon: int, id: string, k: nat, ahead: set<string>)
    requires Round(t, t', batch, failed, horizon) && id in t && Ahead(t, id) <= ahead && |ahead| == k < BATCH
    ensures IsPending(t', id) ==>
              && IsPending(t, id)
              && ((t[id].retryCount < MAX_RETRIES && t'[id].retryCount == t[id].retryCount + 1) || (failed && t'[id] == t[id]))
  {
    RoundFrame(t, t', batch, failed, horizon, id);
    hide Round;
    if IsPending(t', id) {
      SubsetCount(Ahead(t, id), ahead);
      InFront(t, t', batch, failed, horizon, id);
    }
  }

  lemma {:induction false} InFront(t: Table, t': Table, batch: seq<Row>, failed: bool, horizon: int, id: string)
    requires Round(t, t', batch, failed, horizon) && IsPending(t, id) && |Ahead(t, id)| < BATCH
    ensures HasId(batch, id)
  {
    FrontIsFetched(t, batch, id);
  }

  /** Six rounds without a failure settle a row that starts with fewer than a hundred rows ahead. */
  lemma {:induction false} FrontSettles(ts: seq<Table>, bs: seq<seq<Row>>, fs: seq<bool>, horizon: int, id: string, n: nat)
    requires Rounds(ts, bs, fs, horizon) && n <= |bs| && n - Failures(fs[..n]) > MAX_RETRIES
    requires id in ts[0] && ts[0][id].createdAt <= horizon && |Ahead(ts[0], id)| < BATCH
    ensures id in ts[n] && !IsPending(ts[n], id)
  {
    FrontAdvances(ts, bs, fs, horizon, id, n);
  }

  /** With distinct times, a batch row has only batch rows ahead of it. */
  lemma {:induction false} BatchIsFront(t: Table, batch: seq<Row>, i: nat)
    requires IsBatch(t, batch, BATCH) && i < |batch| && DistinctTimes(t, batch[i].createdAt)
    ensures |Ahead(t, batch[i].id)| < BATCH
  {
    var id := batch[i].id;
    forall x | x in Ahead(t, id)
      ensures x in Ids(batch) - {id}
    {
      assert x in Old(t, batch[i].createdAt) && id in Old(t, batch[i].createdAt);
      assert t[x].createdAt < t[id].createdAt;
      assert HasId(batch, x);
    }
    IdsCount(batch);
    assert id in Ids(batch);
    SubsetCount(Ahead(t, id), Ids(batch) - {id});
  }

  lemma {:induction false} OldShrinks(t: Table, t': Table, batch: seq<Row>, failed: bool, horizon: int)
    requires Round(t, t', batch, failed, horizon)
    ensures Old(t', horizon) <= Old(t, horizon)
  {
    forall x | x in Old(t', horizon)
      ensures x in Old(t, horizon)
    {
      if x in t {
        RoundFrame(t, t', batch, failed, horizon, x);
      }
    }
  }

  lemma {:induction false} OldWasOld(ts: seq<Table>, bs: seq<seq<Row>>, fs: seq<bool>, horizon: int, id: string, n: nat)
    requires Rounds(ts, bs, fs, horizon) && n <= |bs| && id in Old(ts[n], horizon)
    ensures id in Old(ts[0], horizon)
    decreases n
  {
    if n > 0 {
      assert Round(ts[n - 1], ts[n - 1 + 1], bs[n - 1], fs[n - 1], horizon);
      OldShrinks(ts[n - 1], ts[n], bs[n - 1], fs[n - 1], horizon);
      OldWasOld(ts, bs, fs, horizon, id, n - 1);
    }
  }

  lemma {:induction false} TimesStayDistinct(ts: seq<Table>, bs: seq<seq<Row>>, fs: seq<bool>, horizon: int, n: nat)
    requires Rounds(ts, bs, fs, horizon) && n <= |bs| && DistinctTimes(ts[0], horizon)
    ensures DistinctTimes(ts[n], horizon)
  {
    SameLengths(ts, bs, fs, horizon);
    hide Rounds;
    forall x | x in Old(ts[n], horizon)
      ensures x in Old(ts[0], horizon) && ts[n][x].createdAt == ts[0][x].createdAt
    {
      OldWasOld(ts, bs, fs, horizon, x, n);
      RoundsShrink(ts, bs, fs, horizon, x, n);
    }
  }

  /**
   * Starvation bound. When no two pending rows up to its time share their times, a pending row with k older pending
   * rows is completed or failed after 6 * (k / 100 + 1) rounds and one more for each round with a failed update,
   * whatever Kafka does and whatever newer rows arrive.
   */
  lemma {:induction false} SettledWithin(ts: seq<Table>, bs: seq<seq<Row>>, fs: seq<bool>, id: string)
    requires |ts| > 0 && id in ts[0] && Rounds(ts, bs, fs, ts[0][id].createdAt)
    requires DistinctTimes(ts[0], ts[0][id].createdAt)
    requires |bs| >= 6 * (|Ahead(ts[0], id)| / 100 + 1) + Failures(fs)
    ensures id in ts[|bs|] && !IsPending(ts[|bs|], id)
    decreases |bs|
  {
    var horizon, k := ts[0][id].createdAt, |Ahead(ts[0], id)|;
    hide Ahead, Failures, Rounds, DistinctTimes;
    SameLengths(ts, bs, fs, horizon);
    if k < BATCH {
      assert fs[..|bs|] == fs;
      FrontSettles(ts, bs, fs, horizon, id, |bs|);
    } else if IsPending(ts[0], id) {
      var m := CleanRounds(fs, MAX_RETRIES + 1);
      ClearsBatch(ts, bs, fs, id, m);
      RoundsTail(ts, bs, fs, horizon, m);
      RoundsShrink(ts, bs, fs, horizon, id, m);
      TimesStayDistinct(ts, bs, fs, horizon, m);
      FailuresSplit(fs, m);
      assert |Ahead(ts[m], id)| / BATCH <= k / BATCH - 1;
      SettledWithin(ts[m..], bs[m..], fs[m..], id);
    } else {
      RoundsShrink(ts, bs, fs, horizon, id, |bs|);
    }
  }

  lemma {:induction false} IsRoundBatch(t: Table, t': Table, batch: seq<Row>, failed: bool, horizon: int)
    requires Round(t, t', batch, failed, horizon)
    ensures IsBatch(t, batch, BATCH) && Distinct(batch)
  {
  }

  /** The rounds up to the sixth without a failure take a hundred rows from before a row that has so many. */
  lemma {:induction false} ClearsBatch(ts: seq<Table>, bs: seq<seq<Row>>, fs: seq<bool>, id: string, n: nat)
    requires |ts| > |bs| >= n > 0 && IsPending(ts[0], id) && Rounds(ts, bs, fs, ts[0][id].createdAt)
    requires n - Failures(fs[..n]) > MAX_RETRIES
    requires DistinctTimes(ts[0], ts[0][id].createdAt) && |Ahead(ts[0], id)| >= BATCH
    ensures id in ts[n] && |Ahead(ts[n], id)| <= |Ahead(ts[0], id)| - BATCH
  {
    var t, batch, horizon := ts[0], bs[0], ts[0][id].createdAt;
    assert Round(ts[0], ts[0 + 1], bs[0], fs[0], horizon);
    IsRoundBatch(t, ts[1], batch, fs[0], horizon);
    hide Failures, Rounds, Round, IsBatch, DistinctTimes;
    RoundsShrink(ts, bs, fs, horizon, id, n);
    BehindBatch(t, batch, id);
    IdsCount(batch);
    forall x | x in Ids(batch)
      ensures x !in Ahead(ts[n], id)
    {
      FrontOfBatch(t, batch, id, x);
      FrontSettles(ts, bs, fs, horizon, x, n);
    }
    SubsetCount(Ahead(ts[n], id), Ahead(t, id) - Ids(batch));
  }

  lemma {:induction false} FrontOfBatch(t: Table, batch: seq<Row>, id: string, x: string)
    requires IsBatch(t, batch, BATCH) && id in t && DistinctTimes(t, t[id].createdAt) && x in Ids(batch) && x in Ahead(t, id)
    ensures x in t && t[x].createdAt <= t[id].createdAt && |Ahead(t, x)| < BATCH
  {
    var i :| 0 <= i < |batch| && batch[i].id == x;
    BatchIsFront(t, batch, i);
  }

  /** A row with a hundred rows ahead has the whole batch ahead. */
  lemma {:induction false} BehindBatch(t: Table, batch: seq<Row>, id: string)
    requires IsBatch(t, batch, BATCH) && IsPending(t, id) && DistinctTimes(t, t[id].createdAt) && |Ahead(t, id)| >= BATCH
    ensures |batch| == BATCH && Ids(batch) <= Ahead(t, id)
  {
    if HasId(batch, id) {
      var i :| 0 <= i < |batch| && batch[i].id == id;
      BatchIsFront(t, batch, i);
      assert false;
    }
    forall i | 0 <= i < |batch|
      ensures batch[i].id in Ahead(t, id)
    {
    }
  }

  // ---- Without distinct times ----

  /** The visits a row can still take. */
  function Owing(row: Row): nat {
    if row.status == Pending && row.retryCount <= MAX_RETRIES then MAX_RETRIES + 1 - row.retryCount else 0
  }

  ghost function Debt(t: Table, horizon: int): string -> nat {
    id => if id in t && t[id].createdAt <= horizon then Owing(t[id]) else 0
  }

  ghost predicate RetriesBounded(t: Table) {
    forall id :: id in t ==> t[id].retryCount <= MAX_RETRIES
  }

  /** A round adds no visits, and one without a failure that starts with a hundred old rows pays a hundred. */
  lemma {:induction false} RoundPays(t: Table, t': Table, batch: seq<Row>, failed: bool, horizon: int, ids: set<string>)
    requires Round(t, t', batch, failed, horizon) && RetriesBounded(t) && Old(t, horizon) <= ids
    requires |Old(t, horizon)| >= BATCH
    ensures Bags.Sum(ids, Debt(t', horizon)) + (if failed then 0 else BATCH) <= Bags.Sum(ids, Debt(t, horizon))
  {
    IdsCount(batch);
    BatchIsOld(t, batch, horizon);
    var paid := if failed then {} else Ids(batch);
    forall id | id in ids
      ensures Debt(t', horizon)(id) + (if id in paid then 1 else 0) <= Debt(t, horizon)(id)
    {
      if id in t {
        RoundFrame(t, t', batch, failed, horizon, id);
        assert id in Ids(batch) ==> HasId(batch, id);
      }
    }
    Bags.SumDrops(ids, paid, Debt(t, horizon), Debt(t', horizon));
  }

  lemma {:induction false} BatchIsOld(t: Table, batch: seq<Row>, horizon: int)
    requires IsBatch(t, batch, BATCH) && |Old(t, horizon)| >= BATCH
    ensures |batch| == BATCH && Ids(batch) <= Old(t, horizon)
  {
    IdsCount(batch);
    if !(Old(t, horizon) <= Ids(batch)) {
      var x :| x in Old(t, horizon) && x !in Ids(batch);
      assert !HasId(batch, x);
      forall y | y in Ids(batch)
        ensures y in Old(t, horizon)
      {
        var i :| 0 <= i < |batch| && batch[i].id == y;
      }
    } else {
      SubsetCount(Old(t, horizon), Ids(batch));
      if Old(t, horizon) != Ids(batch) {
        var y :| y in Ids(batch) && y !in Old(t, horizon);
        SubsetCount(Old(t, horizon) + {y}, Ids(batch));
      }
    }
  }

  ghost predicate AllBounded(ts: seq<Table>) {
    forall i :: 0 <= i < |ts| ==> RetriesBounded(ts[i])
  }

  /** The visits owed for some rows fall short of (q + 1) * 100. */
  ghost predicate OwesLess(t: Table, horizon: int, ids: set<string>, q: nat) {
    Bags.Sum(ids, Debt(t, horizon)) < q * BATCH + BATCH
  }

  lemma {:induction false} DebtDrains(ts: seq<Table>, bs: seq<seq<Row>>, fs: seq<bool>, horizon: int, ids: set<string>, q: nat)
    requires Rounds(ts, bs, fs, horizon) && AllBounded(ts) && Old(ts[0], horizon) <= ids && OwesLess(ts[0], horizon, ids, q)
    requires |bs| >= q + MAX_RETRIES + 1 + Failures(fs)
    ensures Old(ts[|bs|], horizon) == {}
    decreases |bs|
  {
    hide Old, OwesLess, Failures, AllBounded, Rounds;
    SameLengths(ts, bs, fs, horizon);
    if |Old(ts[0], horizon)| < BATCH {
      OldSettles(ts, bs, fs, horizon);
    } else {
      OneRound(ts, bs, fs, horizon, ids, q);
      RoundsTail(ts, bs, fs, horizon, 1);
      FailuresHead(fs);
      DebtDrains(ts[1..], bs[1..], fs[1..], horizon, ids, if fs[0] then q else q - 1);
    }
  }

  lemma {:induction false} OneRound(ts: seq<Table>, bs: seq<seq<Row>>, fs: seq<bool>, horizon: int, ids: set<string>, q: nat)
    requires Rounds(ts, bs, fs, horizon) && bs != [] && AllBounded(ts) && OwesLess(ts[0], horizon, ids, q)
    requires BATCH <= |Old(ts[0], horizon)| && Old(ts[0], horizon) <= ids
    ensures AllBounded(ts[1..]) && Old(ts[1], horizon) <= ids
    ensures fs[0] ==> OwesLess(ts[1], horizon, ids, q)
    ensures !fs[0] ==> q > 0 && OwesLess(ts[1], horizon, ids, q - 1)
  {
    hide Debt, Old, Bags.Sum, RetriesBounded;
    assert Round(ts[0], ts[0 + 1], bs[0], fs[0], horizon);
    hide Round, Rounds;
    RoundPays(ts[0], ts[1], bs[0], fs[0], horizon, ids);
    OldShrinks(ts[0], ts[1], bs[0], fs[0], horizon);
  }

  lemma {:induction false} FailuresHead(fs: seq<bool>)
    requires fs != []
    ensures Failures(fs) == (if fs[0] then 1 else 0) + Failures(fs[1..])
  {
    FailuresSplit(fs, 1);
    FailuresStep(fs, 0);
    NoFailures(fs);
  }

  lemma {:induction false} OldSettles(ts: seq<Table>, bs: seq<seq<Row>>, fs: seq<bool>, horizon: int)
    requires Rounds(ts, bs, fs, horizon) && |Old(ts[0], horizon)| < BATCH && |bs| - Failures(fs) > MAX_RETRIES
    ensures Old(ts[|bs|], horizon) == {}
  {
    var n := |bs|;
    assert fs[..n] == fs;
    hide Rounds, Failures;
    forall id | id in ts[n]
      ensures id !in Old(ts[n], horizon)
    {
      if id in Old(ts[n], horizon) {
        OldWasOld(ts, bs, fs, horizon, id, n);
        SubsetCount(Ahead(ts[0], id), Old(ts[0], horizon));
        FrontSettles(ts, bs, fs, horizon, id, n);
      }
    }
  }

  /**
   * Drain bound. Whatever ties there are among the times, N rows pending up to some time are all completed or
   * failed after 6 * N / 100 + 6 rounds and one more for each round with a failed update, whatever Kafka does and
   * whatever newer rows arrive.
   */
  lemma {:induction false} DrainedWithin(ts: seq<Table>, bs: seq<seq<Row>>, fs: seq<bool>, horizon: int)
    requires Rounds(ts, bs, fs, horizon) && AllBounded(ts)
    requires |bs| >= 6 * |Old(ts[0], horizon)| / 100 + 6 + Failures(fs)
    ensures Old(ts[|bs|], horizon) == {}
  {
    var ids := Old(ts[0], horizon);
    Bags.SumBounded(ids, Debt(ts[0], horizon), MAX_RETRIES + 1);
    DebtDrains(ts, bs, fs, horizon, ids, Bags.Sum(ids, Debt(ts[0], horizon)) / BATCH);
  }
}
