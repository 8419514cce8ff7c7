/** Rounds of the interleaved machine are rounds on the table, so the drain bounds hold of its runs. */
module OutboxRounds {
  import opened Payloads
  import opened OutboxMachine
  import opened OutboxSafety
  import opened OutboxDrain

  /**
   * Steps a round may contain after its fetch. Anything may fail: calls, publishes, inserts into the outbox, the
   * worker's updates, and ticks that then fetch nothing. Rows that are inserted are newer than the horizon.
   */
  ghost predicate Calm(step: Step, horizon: int) {
    && (step.StepFetch? ==> !step.ok)
    && (step.StepSave? && step.ok ==> step.now > horizon)
  }

  /** A worker's update that fails. */
  predicate FailsUpdate(step: Step) {
    step.StepUpdate? && !step.ok
  }

  predicate AnyUpdateFails(steps: seq<Step>) {
    exists i :: 0 <= i < |steps| && FailsUpdate(steps[i])
  }

  ghost predicate AllCalm(steps: seq<Step>, horizon: int) {
    forall i :: 0 <= i < |steps| ==> Calm(steps[i], horizon)
  }

  /** From one fetch to the next: the worker fetches, and is done with its batch at the end. */
  ghost predicate WorkerRound(s: State, steps: seq<Step>, horizon: int) {
    && steps != [] && steps[0].StepFetch? && steps[0].ok
    && s.worker.Idle? && IsBatch(s.outbox, steps[0].batch, BATCH)
    && AllCalm(steps[1..], horizon)
    && Run(s, steps).worker.Idle?
  }

  /** The worker still holds the end of the batch; the rows before it have been visited, if no update failed. */
  ghost predicate PartDone(batch: seq<Row>, failed: bool, t: Table, held: seq<Row>) {
    && |held| <= |batch| && held == batch[|batch| - |held|..]
    && forall i :: 0 <= i < |batch| - |held| ==> batch[i].id in t && VisitedOrLeft(batch[i], t[batch[i].id], failed)
  }

  /** Rows outside the batch are as they were; new rows are newer than the horizon. */
  ghost predicate RestKept(before: Table, batch: seq<Row>, after: Table, horizon: int) {
    && (forall id :: id in before ==> id in after)
    && (forall id :: id in before && !HasId(batch, id) ==> after[id] == before[id])
    && (forall id :: id in after && id !in before ==> after[id].createdAt > horizon)
  }

  /** In the middle of a round that began with table t. */
  ghost predicate MidRound(t: Table, batch: seq<Row>, failed: bool, s: State, horizon: int) {
    PartDone(batch, failed, s.outbox, Held(s.worker)) && RestKept(t, batch, s.outbox, horizon)
  }

  lemma {:induction false} SaveKeepsMid(t: Table, batch: seq<Row>, failed: bool, s: State, horizon: int, step: Step)
    requires MidRound(t, batch, failed, s, horizon) && step.StepSave? && Calm(step, horizon)
    ensures MidRound(t, batch, failed, Apply(s, step), horizon)
  {
    var s' := Apply(s, step);
    assert s'.worker == s.worker;
    assert forall id :: id in s.outbox ==> id in s'.outbox && s'.outbox[id] == s.outbox[id];
    assert forall id :: id in s'.outbox && id !in s.outbox ==> s'.outbox[id].createdAt > horizon;
  }

  lemma {:induction false} VisitKeepsMid(t: Table, batch: seq<Row>, failed: bool, before: Table, after: Table, held: seq<Row>, horizon: int)
    requires IsBatch(t, batch, BATCH) && PartDone(batch, failed, before, held) && RestKept(t, batch, before, horizon)
    requires held != [] && held[0].id in before && held[0].id in after
    requires after == before[held[0].id := after[held[0].id]] && VisitedOrLeft(held[0], after[held[0].id], failed)
    ensures PartDone(batch, failed, after, held[1..]) && RestKept(t, batch, after, horizon)
  {
    var k := |batch| - |held|;
    assert held[0] == batch[k] && held[1..] == batch[k + 1..];
    assert HasId(batch, batch[k].id);
    forall i | 0 <= i < k + 1
      ensures batch[i].id in after && VisitedOrLeft(batch[i], after[batch[i].id], failed)
    {
      assert i < k ==> batch[i].id != batch[k].id;
    }
  }

  lemma {:induction false} UpdateVisits(s: State, now: int, ok: bool)
    requires Inv(s) && Updating(s.worker)
    ensures var s', held := Update(s, now, ok), Held(s.worker);
            && held != [] && Held(s'.worker) == held[1..]
            && held[0].id in s.outbox && held[0].id in s'.outbox
            && s'.outbox == s.outbox[held[0].id := s'.outbox[held[0].id]]
            && VisitedOrLeft(held[0], s'.outbox[held[0].id], !ok)
  {
    UpdateShape(s, now, ok);
    assert s.worker.Marking? ==> Held(s.worker)[0] == s.worker.row;
  }

  lemma {:induction false} UpdateKeepsMid(t: Table, batch: seq<Row>, failed: bool, s: State, horizon: int, now: int, ok: bool)
    requires Inv(s) && IsBatch(t, batch, BATCH) && MidRound(t, batch, failed, s, horizon)
    requires ok || failed
    ensures MidRound(t, batch, failed, Update(s, now, ok), horizon)
  {
    if Updating(s.worker) {
      UpdateVisits(s, now, ok);
      VisitKeepsMid(t, batch, failed, s.outbox, Update(s, now, ok).outbox, Held(s.worker), horizon);
    }
  }

  lemma {:induction false} AttemptKeepsHeld(s: State, up: bool)
    requires Inv(s)
    ensures Held(Attempt(s, up).worker) == Held(s.worker)
  {
  }

  lemma {:induction false} OthersKeepHeld(s: State, step: Step)
    requires Inv(s) && (step.StepFetch? ==> !step.ok) && !step.StepSave? && !step.StepUpdate?
    ensures Apply(s, step).outbox == s.outbox && Held(Apply(s, step).worker) == Held(s.worker)
  {
    if step.StepAttempt? {
      AttemptKeepsHeld(s, step.up);
    }
  }

  lemma {:induction false} StepKeepsMid(t: Table, batch: seq<Row>, failed: bool, s: State, horizon: int, step: Step)
    requires Inv(s) && IsBatch(t, batch, BATCH) && MidRound(t, batch, failed, s, horizon) && Calm(step, horizon)
    requires FailsUpdate(step) ==> failed
    ensures MidRound(t, batch, failed, Apply(s, step), horizon)
  {
    if step.StepUpdate? {
      UpdateKeepsMid(t, batch, failed, s, horizon, step.now, step.ok);
    } else if step.StepSave? {
      SaveKeepsMid(t, batch, failed, s, horizon, step);
    } else {
      OthersKeepHeld(s, step);
      SameTableKeepsMid(t, batch, failed, s, Apply(s, step), horizon);
    }
  }

  lemma {:induction false} SameTableKeepsMid(t: Table, batch: seq<Row>, failed: bool, s: State, s': State, horizon: int)
    requires MidRound(t, batch, failed, s, horizon) && s'.outbox == s.outbox && Held(s'.worker) == Held(s.worker)
    ensures MidRound(t, batch, failed, s', horizon)
  {
  }

  lemma {:induction false} StartOfRound(t: Table, batch: seq<Row>, failed: bool, s: State, horizon: int)
    requires s.worker == Continue(batch) && s.outbox == t
    ensures MidRound(t, batch, failed, s, horizon)
  {
    assert Held(s.worker) == batch && batch == batch[0..];
  }

  lemma {:induction false} EndOfRound(t: Table, batch: seq<Row>, failed: bool, t': Table, horizon: int)
    requires IsBatch(t, batch, BATCH) && PartDone(batch, failed, t', []) && RestKept(t, batch, t', horizon)
    ensures Round(t, t', batch, failed, horizon)
  {
  }

  lemma {:induction false} RunKeepsMid(t: Table, batch: seq<Row>, failed: bool, s: State, horizon: int, steps: seq<Step>)
    requires Inv(s) && IsBatch(t, batch, BATCH) && MidRound(t, batch, failed, s, horizon) && AllCalm(steps, horizon)
    requires forall i :: 0 <= i < |steps| && FailsUpdate(steps[i]) ==> failed
    ensures MidRound(t, batch, failed, Run(s, steps), horizon)
    decreases |steps|
  {
    if steps != [] {
      StepKeepsMid(t, batch, failed, s, horizon, steps[0]);
      StepKeeps(s, steps[0]);
      RunKeepsMid(t, batch, failed, Apply(s, steps[0]), horizon, steps[1..]);
    }
  }

  /** A worker round of the machine, service calls interleaved, is a round on the table. */
  lemma {:induction false} WorkerRoundIsRound(s: State, steps: seq<Step>, horizon: int)
    requires Inv(s) && WorkerRound(s, steps, horizon)
    ensures Round(s.outbox, Run(s, steps).outbox, steps[0].batch, AnyUpdateFails(steps), horizon)
  {
    var batch, failed, s' := steps[0].batch, AnyUpdateFails(steps), Apply(s, steps[0]);
    assert forall i :: 0 <= i < |steps[1..]| && FailsUpdate(steps[1..][i]) ==> FailsUpdate(steps[i + 1]);
    StartOfRound(s.outbox, batch, failed, s', horizon);
    StepKeeps(s, steps[0]);
    RunKeepsMid(s.outbox, batch, failed, s', horizon, steps[1..]);
    EndOfRound(s.outbox, batch, failed, Run(s, steps).outbox, horizon);
  }

  // ---- Runs made of whole rounds ----

  ghost function RunAll(s: State, rounds: seq<seq<Step>>): State
    decreases |rounds|
  {
    if rounds == [] then s else RunAll(Run(s, rounds[0]), rounds[1..])
  }

  ghost predicate WorkerRounds(s: State, rounds: seq<seq<Step>>, horizon: int)
    decreases |rounds|
  {
    rounds != [] ==> WorkerRound(s, rounds[0], horizon) && WorkerRounds(Run(s, rounds[0]), rounds[1..], horizon)
  }

  ghost function Tables(s: State, rounds: seq<seq<Step>>): (ts: seq<Table>)
    ensures |ts| == |rounds| + 1 && ts[0] == s.outbox && ts[|rounds|] == RunAll(s, rounds).outbox
    decreases |rounds|
  {
    if rounds == [] then [s.outbox] else [s.outbox] + Tables(Run(s, rounds[0]), rounds[1..])
  }

  ghost function Batches(rounds: seq<seq<Step>>): (bs: seq<seq<Row>>)
    requires forall i :: 0 <= i < |rounds| ==> rounds[i] != [] && rounds[i][0].StepFetch?
    ensures |bs| == |rounds|
  {
    seq(|rounds|, i requires 0 <= i < |rounds| => rounds[i][0].batch)
  }

  /** Which rounds have an update that fails. */
  ghost function Failed(rounds: seq<seq<Step>>): (fs: seq<bool>)
    ensures |fs| == |rounds|
  {
    seq(|rounds|, i requires 0 <= i < |rounds| => AnyUpdateFails(rounds[i]))
  }

  lemma {:induction false} RoundsStartWithFetch(s: State, rounds: seq<seq<Step>>, horizon: int)
    requires WorkerRounds(s, rounds, horizon)
    ensures forall i :: 0 <= i < |rounds| ==> rounds[i] != [] && rounds[i][0].StepFetch?
    decreases |rounds|
  {
    if rounds != [] {
      RoundsStartWithFetch(Run(s, rounds[0]), rounds[1..], horizon);
      forall i | 0 <= i < |rounds|
        ensures rounds[i] != [] && rounds[i][0].StepFetch?
      {
        assert i > 0 ==> rounds[i] == rounds[1..][i - 1];
      }
    }
  }

  lemma {:induction false} RoundsCons(
    ts: seq<Table>, bs: seq<seq<Row>>, fs: seq<bool>, t: Table, batch: seq<Row>, failed: bool, horizon: int)
    requires Rounds(ts, bs, fs, horizon) && |ts| > 0 && Round(t, ts[0], batch, failed, horizon)
    ensures Rounds([t] + ts, [batch] + bs, [failed] + fs, horizon)
  {
    forall i | 0 <= i < |bs| + 1
      ensures Round(([t] + ts)[i], ([t] + ts)[i + 1], ([batch] + bs)[i], ([failed] + fs)[i], horizon)
    {
      if i > 0 {
        assert Round(ts[i - 1], ts[i - 1 + 1], bs[i - 1], fs[i - 1], horizon);
      }
    }
  }

  /** The tables between the worker rounds are separated by rounds. */
  lemma {:induction false} RunIsRounds(s: State, rounds: seq<seq<Step>>, horizon: int)
    requires Inv(s) && WorkerRounds(s, rounds, horizon)
    ensures forall i :: 0 <= i < |rounds| ==> rounds[i] != [] && rounds[i][0].StepFetch?
    ensures Rounds(Tables(s, rounds), Batches(rounds), Failed(rounds), horizon)
    decreases |rounds|
  {
    RoundsStartWithFetch(s, rounds, horizon);
    if rounds != [] {
      var s' := Run(s, rounds[0]);
      RunKeeps(s, rounds[0]);
      RunIsRounds(s', rounds[1..], horizon);
      WorkerRoundIsRound(s, rounds[0], horizon);
      RoundsCons(Tables(s', rounds[1..]), Batches(rounds[1..]), Failed(rounds[1..]), s.outbox, rounds[0][0].batch,
                 AnyUpdateFails(rounds[0]), horizon);
      assert Batches(rounds) == [rounds[0][0].batch] + Batches(rounds[1..]);
      assert Failed(rounds) == [AnyUpdateFails(rounds[0])] + Failed(rounds[1..]);
    }
  }

  lemma {:induction false} TablesBounded(s: State, rounds: seq<seq<Step>>, i: nat)
    requires Inv(s) && i <= |rounds|
    ensures RetriesBounded(Tables(s, rounds)[i])
    decreases |rounds|
  {
    hide Inv, Run, RetriesBounded;
    if i == 0 {
      InvBounds(s);
    } else {
      RunKeeps(s, rounds[0]);
      TablesBounded(Run(s, rounds[0]), rounds[1..], i - 1);
    }
  }

  lemma {:induction false} InvBounds(s: State)
    requires Inv(s)
    ensures RetriesBounded(s.outbox)
  {
  }

  /**
   * Starvation bound for runs. A pending row with k older pending rows is completed or failed after
   * 6 * (k / 100 + 1) worker rounds of any interleaving, and one more for each round in which an update failed, if
   * no two pending rows up to its time share their times at the start and the rows saved meanwhile are newer.
   */
  lemma {:induction false} NoStarvation(s: State, rounds: seq<seq<Step>>, id: string)
    requires Inv(s) && id in s.outbox && WorkerRounds(s, rounds, s.outbox[id].createdAt)
    requires DistinctTimes(s.outbox, s.outbox[id].createdAt)
    requires |rounds| >= 6 * (|Ahead(s.outbox, id)| / 100 + 1) + Failures(Failed(rounds))
    ensures id in RunAll(s, rounds).outbox && RunAll(s, rounds).outbox[id].status != Pending
  {
    hide Inv, WorkerRounds, DistinctTimes, Ahead, Failures, Rounds;
    RunIsRounds(s, rounds, s.outbox[id].createdAt);
    SettledWithin(Tables(s, rounds), Batches(rounds), Failed(rounds), id);
  }

  /** Drain bound for runs, times distinct or not: what is pending up to the horizon is settled in time. */
  lemma {:induction false} NoBacklog(s: State, rounds: seq<seq<Step>>, horizon: int)
    requires Inv(s) && WorkerRounds(s, rounds, horizon)
    requires |rounds| >= 6 * |Old(s.outbox, horizon)| / 100 + 6 + Failures(Failed(rounds))
    ensures Old(RunAll(s, rounds).outbox, horizon) == {}
  {
    RunIsRounds(s, rounds, horizon);
    forall i | 0 <= i <= |rounds|
      ensures RetriesBounded(Tables(s, rounds)[i])
    {
      TablesBounded(s, rounds, i);
    }
    DrainedWithin(Tables(s, rounds), Batches(rounds), Failed(rounds), horizon);
  }
}
