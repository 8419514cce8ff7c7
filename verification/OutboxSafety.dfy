/** What every run of the service and its worker keeps. */
module OutboxSafety {
  import opened Payloads
  import opened OutboxMachine
  import Bags
  import ChatIds
  import ReadMarks

  // ---- Conservation ----

  /** The event a row stands for. */
  function RowEvent(row: Row): KafkaCall
    requires Decode(row.eventType, row.payload).Call?
  {
    Decode(row.eventType, row.payload).call
  }

  ghost function Open(row: Row): multiset<KafkaCall> {
    if row.status != Completed && Decode(row.eventType, row.payload).Call? then multiset{RowEvent(row)} else multiset{}
  }

  ghost function Owed(p: Phase): multiset<KafkaCall> {
    if p.Committed? || p.Unpublished? then multiset{p.event} else multiset{}
  }

  /** Published by the worker and not yet marked. */
  ghost function InHand(w: Worker): multiset<KafkaCall> {
    if w.Marking? && w.outcome == Sent && Decode(w.row.eventType, w.row.payload).Call?
    then multiset{RowEvent(w.row)} else multiset{}
  }

  ghost predicate RowsSound(t: Table) {
    forall id :: id in t ==>
      && t[id].id == id
      && Decode(t[id].eventType, t[id].payload).Call?
      && t[id].retryCount <= MAX_RETRIES
      && (t[id].status == Failed ==> t[id].retryCount == MAX_RETRIES)
  }

  /** The rows the worker holds, the one being marked first. */
  function Held(w: Worker): seq<Row> {
    match w
    case Idle => []
    case Ready(todo) => todo
    case Marking(row, _, todo) => [row] + todo
  }

  /** The worker's copies are the table's rows, pending and distinct. */
  ghost predicate WorkerSound(t: Table, w: Worker) {
    && Distinct(Held(w))
    && (w.Ready? ==> w.todo != [])
    && (w.Marking? ==> w.row.retryCount < MAX_RETRIES)
    && forall i :: 0 <= i < |Held(w)| ==>
         Held(w)[i].id in t && t[Held(w)[i].id] == Held(w)[i] && Held(w)[i].status == Pending
  }

  /** Every applied event is accounted for, whatever fails: the copies of one event balance. */
  ghost predicate Balanced(s: State, e: KafkaCall) {
    s.applied[e] + InHand(s.worker)[e] + s.resent[e]
    == multiset(s.log)[e] + Bags.Bag(s.outbox, Open)[e] + Bags.Bag(s.calls, Owed)[e] + s.lost[e]
  }

  ghost predicate Conserved(s: State) {
    forall e :: Balanced(s, e)
  }

  /** The worker's tries explain each row. */
  ghost predicate TriesSound(s: State) {
    && s.tries.Keys == s.outbox.Keys
    && forall id :: id in s.outbox ==>
         && Decode(s.outbox[id].eventType, s.outbox[id].payload).Call?
         && s.outbox[id].retryCount + (if s.worker.Marking? && s.worker.row.id == id && s.worker.outcome == Refused then 1 else 0)
            <= s.tries[id].refused
         && (s.tries[id].sent > 0 ==> RowEvent(s.outbox[id]) in s.log)
         && (s.outbox[id].status == Completed ==> s.tries[id].sent > 0)
         && (s.worker.Marking? && s.worker.row.id == id && s.worker.outcome == Sent ==> s.tries[id].sent > 0)
  }

  ghost predicate Inv(s: State) {
    && RowsSound(s.outbox)
    && WorkerSound(s.outbox, s.worker)
    && TriesSound(s)
    && Conserved(s)
  }

  lemma InitInv()
    ensures Inv(INIT)
  {
  }

  // Steps of a service call: the worker and its rows stay, one event may move.

  lemma {:induction false} CallMoves(s: State, s': State, c: nat)
    requires Conserved(s) && c in s.calls && c in s'.calls && s'.calls == s.calls[c := s'.calls[c]]
    requires s'.outbox == s.outbox && s'.worker == s.worker && s'.resent == s.resent
    requires forall e :: s'.applied[e] + multiset(s.log)[e] + s.lost[e] + Owed(s.calls[c])[e]
                      == s.applied[e] + multiset(s'.log)[e] + s'.lost[e] + Owed(s'.calls[c])[e]
    ensures Conserved(s')
  {
    Bags.BagUpdate(s.calls, Owed, c, s'.calls[c]);
    var owed, owed' := Bags.Bag(s.calls, Owed), Bags.Bag(s'.calls, Owed);
    forall e
      ensures Balanced(s', e)
    {
      assert Balanced(s, e);
      assert (owed' + Owed(s.calls[c]))[e] == (owed + Owed(s'.calls[c]))[e];
      assert s'.applied[e] + multiset(s.log)[e] + s.lost[e] + Owed(s.calls[c])[e]
          == s.applied[e] + multiset(s'.log)[e] + s'.lost[e] + Owed(s'.calls[c])[e];
    }
  }

  lemma {:induction false} TriesKept(s: State, s': State)
    requires TriesSound(s) && s'.outbox == s.outbox && s'.tries == s.tries && s'.worker == s.worker
    requires s'.log == s.log || exists e :: s'.log == s.log + [e]
    ensures TriesSound(s')
  {
  }

  lemma {:induction false} ReceiveKeeps(s: State, c: nat, req: Request)
    requires Inv(s)
    ensures Inv(Receive(s, c, req))
  {
    if c !in s.calls {
      var p := if Valid(req) then Received(req) else Done(Error(InvalidInput));
      NewCallConserves(s, c, p);
      TriesKept(s, Receive(s, c, req));
    }
  }

  lemma {:induction false} NewCallConserves(s: State, c: nat, p: Phase)
    requires Conserved(s) && c !in s.calls && Owed(p) == multiset{}
    ensures Conserved(s.(calls := s.calls[c := p]))
  {
    var s' := s.(calls := s.calls[c := p]);
    Bags.BagInsert(s.calls, Owed, c, p);
    assert Bags.Bag(s.calls, Owed) + multiset{} == Bags.Bag(s.calls, Owed);
    forall e
      ensures Balanced(s', e)
    {
      assert Balanced(s, e);
    }
  }

  lemma {:induction false} LoadKeeps(s: State, c: nat, ok: bool)
    requires Inv(s)
    ensures Inv(Load(s, c, ok))
  {
    var s' := Load(s, c, ok);
    if s' != s {
      assert Owed(s'.calls[c]) == Owed(s.calls[c]) == multiset{};
      CallMoves(s, s', c);
      TriesKept(s, s');
    }
  }

  lemma {:induction false} CommitKeeps(s: State, c: nat, id: string, now: int, ok: bool)
    requires Inv(s)
    ensures Inv(Commit(s, c, id, now, ok))
  {
    if c in s.calls && s.calls[c].Received? && s.calls[c].req.Send? {
      CommitSendKeeps(s, c, id, now, ok);
    } else if c in s.calls && s.calls[c].Loaded? {
      CommitLoadedKeeps(s, c, ok);
    }
  }

  lemma {:induction false} CommitSendKeeps(s: State, c: nat, id: string, now: int, ok: bool)
    requires Inv(s) && c in s.calls && s.calls[c].Received? && s.calls[c].req.Send?
    ensures Inv(CommitSend(s, c, id, now, ok))
  {
    var s' := CommitSend(s, c, id, now, ok);
    if id !in s.ids {
      CallMoves(s, s', c);
      TriesKept(s, s');
    }
  }

  lemma {:induction false} CommitLoadedKeeps(s: State, c: nat, ok: bool)
    requires Inv(s) && c in s.calls && s.calls[c].Loaded?
    ensures Inv(CommitLoaded(s, c, ok))
  {
    var s' := CommitLoaded(s, c, ok);
    if !s.calls[c].req.Send? {
      CallMoves(s, s', c);
      TriesKept(s, s');
    }
  }

  lemma {:induction false} PublishKeeps(s: State, c: nat, up: bool)
    requires Inv(s)
    ensures Inv(Publish(s, c, up))
  {
    var s' := Publish(s, c, up);
    if c in s.calls && s.calls[c].Committed? {
      assert multiset(s.log + [s.calls[c].event]) == multiset(s.log) + multiset{s.calls[c].event};
      CallMoves(s, s', c);
      TriesKept(s, s');
    }
  }

  lemma {:induction false} SaveKeeps(s: State, c: nat, id: string, now: int, ok: bool)
    requires Inv(s)
    ensures Inv(Save(s, c, id, now, ok))
  {
    var s' := Save(s, c, id, now, ok);
    if c in s.calls && s.calls[c].Unpublished? {
      if ok && id !in s.outbox {
        RetryIsOriginal(s.calls[c].event);
        SaveTables(s, s', c, id);
        SaveConserves(s, s', c, id);
      } else {
        CallMoves(s, s', c);
        TriesKept(s, s');
      }
    }
  }

  ghost predicate Inserted(s: State, s': State, c: nat, id: string) {
    && id !in s.outbox && c in s.calls && s.calls[c].Unpublished? && id in s'.outbox
    && Decode(s'.outbox[id].eventType, s'.outbox[id].payload) == Call(s.calls[c].event)
    && s'.outbox[id].id == id && s'.outbox[id].retryCount == 0 && s'.outbox[id].status == Pending
    && s' == s.(calls := s.calls[c := Done(ReplyTo(s.calls[c].event))],
                outbox := s.outbox[id := s'.outbox[id]], tries := s.tries[id := Tries(0, 0)])
  }

  lemma {:induction false} SaveTables(s: State, s': State, c: nat, id: string)
    requires Inv(s) && Inserted(s, s', c, id)
    ensures RowsSound(s'.outbox) && WorkerSound(s'.outbox, s'.worker) && TriesSound(s')
  {
    if s.worker.Marking? {
      assert Held(s.worker)[0] == s.worker.row;
    }
  }

  lemma {:induction false} SaveConserves(s: State, s': State, c: nat, id: string)
    requires Inv(s) && Inserted(s, s', c, id)
    ensures Conserved(s')
  {
    var event := s.calls[c].event;
    Bags.BagUpdate(s.calls, Owed, c, s'.calls[c]);
    Bags.BagInsert(s.outbox, Open, id, s'.outbox[id]);
    var rows, rows' := Bags.Bag(s.outbox, Open), Bags.Bag(s'.outbox, Open);
    var owed, owed' := Bags.Bag(s.calls, Owed), Bags.Bag(s'.calls, Owed);
    forall e
      ensures Balanced(s', e)
    {
      assert Balanced(s, e);
      assert rows'[e] == (rows + multiset{event})[e];
      assert (owed' + multiset{event})[e] == (owed + multiset{})[e];
    }
  }

  // Steps of the worker: the calls stay.

  lemma {:induction false} FetchKeeps(s: State, batch: seq<Row>, ok: bool)
    requires Inv(s)
    ensures Inv(Fetch(s, batch, ok))
  {
    forall e
      ensures Balanced(Fetch(s, batch, ok), e)
    {
      assert Balanced(s, e);
    }
  }

  /** The worker has published, or tried to publish, the head of its batch. */
  ghost predicate Attempted(s: State, s': State) {
    && s.worker.Ready? && s.worker.todo != [] && s.worker.todo[0].retryCount < MAX_RETRIES
    && s'.worker.Marking? && s'.worker.row == s.worker.todo[0] && s'.worker.todo == s.worker.todo[1..]
    && s.worker.todo[0].id in s.tries && s.worker.todo[0].id in s'.tries
    && s' == s.(worker := s'.worker, log := s'.log, tries := s.tries[s.worker.todo[0].id := s'.tries[s.worker.todo[0].id]])
    && Decode(s'.worker.row.eventType, s'.worker.row.payload).Call?
    && var before, after := s.tries[s'.worker.row.id], s'.tries[s'.worker.row.id];
       if s'.worker.outcome == Sent
       then s'.log == s.log + [RowEvent(s'.worker.row)] && after == before.(sent := before.sent + 1)
       else s'.log == s.log && after == before.(refused := before.refused + 1)
  }

  lemma {:induction false} AttemptKeeps(s: State, up: bool)
    requires Inv(s)
    ensures Inv(Attempt(s, up))
  {
    var s' := Attempt(s, up);
    if s.worker.Ready? && s.worker.todo[0].retryCount < MAX_RETRIES {
      assert Held(s.worker)[0] == s.worker.todo[0];
      assert Attempted(s, s');
      AttemptTables(s, s');
      AttemptTries(s, s');
      AttemptConserves(s, s');
    }
  }

  lemma {:induction false} AttemptTables(s: State, s': State)
    requires Inv(s) && Attempted(s, s')
    ensures RowsSound(s'.outbox) && WorkerSound(s'.outbox, s'.worker)
  {
    assert Held(s'.worker) == Held(s.worker);
  }

  lemma {:induction false} AttemptTries(s: State, s': State)
    requires Inv(s) && Attempted(s, s')
    ensures TriesSound(s')
  {
    assert Held(s.worker)[0] == s'.worker.row;
    assert s.outbox[s'.worker.row.id] == s'.worker.row;
  }

  lemma {:induction false} AttemptConserves(s: State, s': State)
    requires Inv(s) && Attempted(s, s')
    ensures Conserved(s')
  {
    forall e
      ensures Balanced(s', e)
    {
      assert Balanced(s, e);
      assert InHand(s.worker) == multiset{};
      if s'.worker.outcome == Sent {
        assert multiset(s'.log) == multiset(s.log) + multiset{RowEvent(s'.worker.row)};
        assert InHand(s'.worker) == multiset{RowEvent(s'.worker.row)};
      } else {
        assert InHand(s'.worker) == multiset{};
      }
    }
  }

  /** The row the worker updates next, and the rest of its batch. */
  ghost predicate Updating(w: Worker) {
    w.Marking? || (w.Ready? && w.todo != [] && w.todo[0].retryCount >= MAX_RETRIES)
  }

  /** How one row leaves the worker's hands. */
  ghost predicate Handled(w: Worker, before: Row, after: Row, now: int, ok: bool)
    requires Updating(w)
  {
    if !ok then after == before
    else if w.Ready? then after == Fail(before)
    else if w.outcome == Refused then after == Retry(before)
    else after == Complete(before, now)
  }

  ghost predicate Updated(s: State, s': State, now: int, ok: bool) {
    && Updating(s.worker)
    && var row := Held(s.worker)[0];
       && row.id in s.outbox && row.id in s'.outbox
       && Handled(s.worker, row, s'.outbox[row.id], now, ok)
       && Held(s'.worker) == Held(s.worker)[1..] && !s'.worker.Marking?
       && (s'.worker.Ready? ==> s'.worker.todo != [])
       && s' == s.(outbox := s.outbox[row.id := s'.outbox[row.id]], worker := s'.worker, resent := s'.resent)
       && s'.resent == (if ok then s.resent else s.resent + InHand(s.worker))
  }

  lemma {:induction false} UpdateShape(s: State, now: int, ok: bool)
    requires Inv(s) && Updating(s.worker)
    ensures Updated(s, Update(s, now, ok), now, ok)
  {
    var row := Held(s.worker)[0];
    assert s.outbox[row.id] == row;
    assert s.outbox[row.id := row] == s.outbox;
    assert s.resent + multiset{} == s.resent;
    assert Held(Continue(Held(s.worker)[1..])) == Held(s.worker)[1..];
    if s.worker.Marking? {
      assert Held(s.worker)[1..] == s.worker.todo;
    }
  }

  lemma {:induction false} UpdateKeeps(s: State, now: int, ok: bool)
    requires Inv(s)
    ensures Inv(Update(s, now, ok))
  {
    if Updating(s.worker) {
      UpdateShape(s, now, ok);
      var s' := Update(s, now, ok);
      UpdateRows(s, s', now, ok);
      UpdateWorker(s, s', now, ok);
      UpdateTries(s, s', now, ok);
      UpdateConserves(s, s', now, ok);
    }
  }

  lemma {:induction false} UpdateRows(s: State, s': State, now: int, ok: bool)
    requires Inv(s) && Updated(s, s', now, ok)
    ensures RowsSound(s'.outbox)
  {
    var row := Held(s.worker)[0];
    assert s.outbox[row.id] == row;
    assert s.worker.Marking? ==> row == s.worker.row;
  }

  lemma {:induction false} UpdateWorker(s: State, s': State, now: int, ok: bool)
    requires Inv(s) && Updated(s, s', now, ok)
    ensures WorkerSound(s'.outbox, s'.worker)
  {
    var held, rest := Held(s.worker), Held(s'.worker);
    forall i | 0 <= i < |rest|
      ensures rest[i].id in s'.outbox && s'.outbox[rest[i].id] == rest[i] && rest[i].status == Pending
    {
      assert rest[i] == held[i + 1] && held[i + 1].id != held[0].id;
    }
    forall i, j | 0 <= i < j < |rest|
      ensures rest[i].id != rest[j].id
    {
      assert rest[i] == held[i + 1] && rest[j] == held[j + 1];
    }
  }

  lemma {:induction false} UpdateTries(s: State, s': State, now: int, ok: bool)
    requires Inv(s) && Updated(s, s', now, ok)
    ensures TriesSound(s')
  {
    var row := Held(s.worker)[0];
    assert s.outbox[row.id] == row;
    assert s.worker.Marking? ==> row == s.worker.row;
  }

  lemma {:induction false} UpdateConserves(s: State, s': State, now: int, ok: bool)
    requires Inv(s) && Updated(s, s', now, ok)
    ensures Conserved(s')
  {
    var row := Held(s.worker)[0];
    assert s.outbox[row.id] == row;
    assert s.worker.Marking? ==> row == s.worker.row;
    Bags.BagUpdate(s.outbox, Open, row.id, s'.outbox[row.id]);
    UpdateBalance(s, s', now, ok);
    var rows, rows' := Bags.Bag(s.outbox, Open), Bags.Bag(s'.outbox, Open);
    forall e
      ensures Balanced(s', e)
    {
      assert Balanced(s, e);
      assert (rows' + Open(row))[e] == (rows + Open(s'.outbox[row.id]))[e];
    }
  }

  lemma {:induction false} UpdateBalance(s: State, s': State, now: int, ok: bool)
    requires Inv(s) && Updated(s, s', now, ok)
    ensures forall e :: s'.resent[e] + Open(Held(s.worker)[0])[e]
                     == s.resent[e] + InHand(s.worker)[e] + Open(s'.outbox[Held(s.worker)[0].id])[e]
    ensures InHand(s'.worker) == multiset{}
  {
    var row := Held(s.worker)[0];
    assert s.outbox[row.id] == row;
    assert s.worker.Marking? ==> row == s.worker.row;
    assert Open(row) == multiset{RowEvent(row)};
  }

  lemma StepKeeps(s: State, step: Step)
    requires Inv(s)
    ensures Inv(Apply(s, step))
  {
    match step
    case StepReceive(c, req) => ReceiveKeeps(s, c, req);
    case StepLoad(c, ok) => LoadKeeps(s, c, ok);
    case StepCommit(c, id, now, ok) => CommitKeeps(s, c, id, now, ok);
    case StepPublish(c, up) => PublishKeeps(s, c, up);
    case StepSave(c, id, now, ok) => SaveKeeps(s, c, id, now, ok);
    case StepFetch(batch, ok) => FetchKeeps(s, batch, ok);
    case StepAttempt(up) => AttemptKeeps(s, up);
    case StepUpdate(now, ok) => UpdateKeeps(s, now, ok);
  }

  lemma {:induction false} RunKeeps(s: State, steps: seq<Step>)
    requires Inv(s)
    ensures Inv(Run(s, steps))
    decreases |steps|
  {
    if steps != [] {
      StepKeeps(s, steps[0]);
      RunKeeps(Apply(s, steps[0]), steps[1..]);
    }
  }

  // ---- Conservation over whole runs ----

  /** No statement on the outbox fails: neither the insert nor the worker's update. */
  ghost predicate OutboxUp(s: State, steps: seq<Step>)
    decreases |steps|
  {
    steps != [] ==>
      && (steps[0].StepSave? ==> steps[0].ok && steps[0].id !in s.outbox)
      && (steps[0].StepUpdate? ==> steps[0].ok)
      && OutboxUp(Apply(s, steps[0]), steps[1..])
  }

  /** No call is half done and the worker is between batches. */
  ghost predicate Quiet(s: State) {
    s.worker.Idle? && forall c :: c in s.calls ==> !s.calls[c].Committed? && !s.calls[c].Unpublished?
  }

  ghost function OpenWith(status: RowStatus): Row -> multiset<KafkaCall> {
    (row: Row) => if row.status == status then Open(row) else multiset{}
  }

  lemma {:induction false} OpenSplits(t: Table, e: KafkaCall)
    ensures Bags.Bag(t, Open)[e] == Bags.Bag(t, OpenWith(Pending))[e] + Bags.Bag(t, OpenWith(Failed))[e]
    decreases |t|
  {
    if t != map[] {
      var id :| id in t;
      OpenSplits(t - {id}, e);
      Bags.BagRemove(t, Open, id);
      Bags.BagRemove(t, OpenWith(Pending), id);
      Bags.BagRemove(t, OpenWith(Failed), id);
      OneSplits(t[id], e);
    }
  }

  lemma OneSplits(row: Row, e: KafkaCall)
    ensures Open(row)[e] == OpenWith(Pending)(row)[e] + OpenWith(Failed)(row)[e]
  {
  }

  lemma {:induction false} NothingOwed(calls: map<nat, Phase>)
    requires forall c :: c in calls ==> !calls[c].Committed? && !calls[c].Unpublished?
    ensures Bags.Bag(calls, Owed) == multiset{}
    decreases |calls|
  {
    if calls != map[] {
      var c :| c in calls;
      Bags.BagRemove(calls, Owed, c);
      NothingOwed(calls - {c});
    }
  }

  lemma {:induction false} OutboxUpLosesNothing(s: State, steps: seq<Step>)
    requires OutboxUp(s, steps)
    ensures Run(s, steps).lost == s.lost && Run(s, steps).resent == s.resent
    decreases |steps|
  {
    if steps != [] {
      var s' := Apply(s, steps[0]);
      assert s'.lost == s.lost && s'.resent == s.resent;
      OutboxUpLosesNothing(s', steps[1..]);
    }
  }

  /**
   * Conservation. In every interleaving of service calls and worker rounds, with publishes failing at
   * will and no outbox statement failing, the events of the calls that changed the database are exactly
   * those published, pending and failed: none is lost, duplicated or invented.
   */
  lemma {:induction false} EventsConserved(steps: seq<Step>)
    requires OutboxUp(INIT, steps) && Quiet(Run(INIT, steps))
    ensures var s := Run(INIT, steps);
            s.applied == multiset(s.log) + Bags.Bag(s.outbox, OpenWith(Pending)) + Bags.Bag(s.outbox, OpenWith(Failed))
  {
    var s := Run(INIT, steps);
    InitInv();
    RunKeeps(INIT, steps);
    OutboxUpLosesNothing(INIT, steps);
    NothingOwed(s.calls);
    forall e
      ensures s.applied[e] == multiset(s.log)[e] + Bags.Bag(s.outbox, OpenWith(Pending))[e]
                              + Bags.Bag(s.outbox, OpenWith(Failed))[e]
    {
      OpenSplits(s.outbox, e);
      assert Balanced(s, e);
    }
  }

  /** Nothing reaches Kafka, a row or a call's hands that no call applied. */
  ghost predicate NothingInvented(s: State) {
    && (forall e :: e in s.log ==> e in s.applied)
    && (forall id :: id in s.outbox ==>
          var d := Decode(s.outbox[id].eventType, s.outbox[id].payload); d.Call? && d.call in s.applied)
    && (forall c :: c in s.calls && (s.calls[c].Committed? || s.calls[c].Unpublished?) ==> s.calls[c].event in s.applied)
  }

  lemma {:induction false} SaveInventsNothing(s: State, c: nat, id: string, now: int, ok: bool)
    requires Inv(s) && NothingInvented(s)
    ensures NothingInvented(Save(s, c, id, now, ok))
  {
    if c in s.calls && s.calls[c].Unpublished? {
      RetryIsOriginal(s.calls[c].event);
    }
  }

  lemma {:induction false} AttemptInventsNothing(s: State, up: bool)
    requires Inv(s) && NothingInvented(s)
    ensures NothingInvented(Attempt(s, up))
  {
    if s.worker.Ready? && s.worker.todo != [] {
      assert Held(s.worker)[0] == s.worker.todo[0];
    }
  }

  lemma {:induction false} UpdateInventsNothing(s: State, now: int, ok: bool)
    requires Inv(s) && NothingInvented(s)
    ensures NothingInvented(Update(s, now, ok))
  {
    if Updating(s.worker) {
      UpdateShape(s, now, ok);
      var row, s' := Held(s.worker)[0], Update(s, now, ok);
      assert s.outbox[row.id] == row;
      assert s'.log == s.log && s'.applied == s.applied && s'.calls == s.calls;
    }
  }

  /** A commit applies the event it leaves in the call's hands. */
  ghost predicate CommitFrame(s: State, s': State, c: nat) {
    && c in s'.calls && s'.calls == s.calls[c := s'.calls[c]]
    && s'.log == s.log && s'.outbox == s.outbox
    && (forall e :: e in s.applied ==> e in s'.applied)
    && !s'.calls[c].Unpublished? && (s'.calls[c].Committed? ==> s'.calls[c].event in s'.applied)
  }

  lemma {:induction false} SendFrame(s: State, c: nat, id: string, now: int, ok: bool)
    requires c in s.calls && s.calls[c].Received? && s.calls[c].req.Send?
    ensures CommitFrame(s, CommitSend(s, c, id, now, ok), c)
  {
    assert s.calls == s.calls[c := s.calls[c]];
  }

  lemma {:induction false} LoadedFrame(s: State, c: nat, ok: bool)
    requires c in s.calls && s.calls[c].Loaded?
    ensures CommitFrame(s, CommitLoaded(s, c, ok), c)
  {
    assert s.calls == s.calls[c := s.calls[c]];
  }

  lemma {:induction false} FrameInventsNothing(s: State, s': State, c: nat)
    requires NothingInvented(s) && CommitFrame(s, s', c)
    ensures NothingInvented(s')
  {
  }

  lemma {:induction false} CommitInventsNothing(s: State, c: nat, id: string, now: int, ok: bool)
    requires NothingInvented(s)
    ensures NothingInvented(Commit(s, c, id, now, ok))
  {
    if c in s.calls && s.calls[c].Received? && s.calls[c].req.Send? {
      SendFrame(s, c, id, now, ok);
      FrameInventsNothing(s, CommitSend(s, c, id, now, ok), c);
    } else if c in s.calls && s.calls[c].Loaded? {
      LoadedFrame(s, c, ok);
      FrameInventsNothing(s, CommitLoaded(s, c, ok), c);
    }
  }

  lemma {:induction false} PublishInventsNothing(s: State, c: nat, up: bool)
    requires NothingInvented(s)
    ensures NothingInvented(Publish(s, c, up))
  {
  }

  lemma {:induction false} StepInventsNothing(s: State, step: Step)
    requires Inv(s) && NothingInvented(s)
    ensures NothingInvented(Apply(s, step))
  {
    match step
    case StepReceive(c, req) =>
    case StepLoad(c, ok) =>
    case StepCommit(c, id, now, ok) => CommitInventsNothing(s, c, id, now, ok);
    case StepPublish(c, up) => PublishInventsNothing(s, c, up);
    case StepSave(c, id, now, ok) => SaveInventsNothing(s, c, id, now, ok);
    case StepFetch(batch, ok) =>
    case StepAttempt(up) => AttemptInventsNothing(s, up);
    case StepUpdate(now, ok) => UpdateInventsNothing(s, now, ok);
  }

  lemma {:induction false} RunInventsNothing(s: State, steps: seq<Step>)
    requires Inv(s) && NothingInvented(s)
    ensures Inv(Run(s, steps)) && NothingInvented(Run(s, steps))
    decreases |steps|
  {
    if steps != [] {
      StepKeeps(s, steps[0]);
      StepInventsNothing(s, steps[0]);
      RunInventsNothing(Apply(s, steps[0]), steps[1..]);
    }
  }

  /**
   * At least once, whatever fails: an applied event is on the log, in a pending or failed row, still
   * owed by a running call, or was lost because publish and outbox insert both failed. What is on
   * the log was applied, and more copies of it than calls come only from rows that could not be marked.
   */
  lemma {:induction false} AtLeastOnce(steps: seq<Step>, e: KafkaCall)
    ensures var s := Run(INIT, steps);
            && (e in s.applied ==>
                  || e in s.log
                  || (exists id :: id in s.outbox && s.outbox[id].status != Completed
                                   && Decode(s.outbox[id].eventType, s.outbox[id].payload) == Call(e))
                  || (exists c :: c in s.calls && e in Owed(s.calls[c]))
                  || e in s.lost)
            && (e in s.log ==> e in s.applied)
            && multiset(s.log)[e] <= s.applied[e] + s.resent[e] + InHand(s.worker)[e]
  {
    var s := Run(INIT, steps);
    InitInv();
    RunInventsNothing(INIT, steps);
    assert Balanced(s, e);
    if e in Bags.Bag(s.outbox, Open) {
      var id := Bags.BagWitness(s.outbox, Open, e);
    } else if e in Bags.Bag(s.calls, Owed) {
      var c := Bags.BagWitness(s.calls, Owed, e);
    }
  }

  // ---- One row ----

  /** Completed and failed rows never change again; a row never disappears and keeps its event. */
  ghost predicate RowsSettle(before: Table, after: Table) {
    forall id :: id in before ==>
      && id in after
      && after[id].eventType == before[id].eventType && after[id].payload == before[id].payload
      && after[id].createdAt == before[id].createdAt
      && before[id].retryCount <= after[id].retryCount
      && (before[id].status != Pending ==> after[id] == before[id])
  }

  lemma {:induction false} UpdateSettles(s: State, now: int, ok: bool)
    requires Inv(s)
    ensures RowsSettle(s.outbox, Update(s, now, ok).outbox)
  {
    if Updating(s.worker) {
      UpdateShape(s, now, ok);
      assert s.outbox[Held(s.worker)[0].id] == Held(s.worker)[0];
    }
  }

  lemma {:induction false} SaveSettles(s: State, c: nat, id: string, now: int, ok: bool)
    ensures RowsSettle(s.outbox, Save(s, c, id, now, ok).outbox)
  {
  }

  lemma {:induction false} StepSettles(s: State, step: Step)
    requires Inv(s)
    ensures RowsSettle(s.outbox, Apply(s, step).outbox)
  {
    if step.StepUpdate? {
      UpdateSettles(s, step.now, step.ok);
    } else if step.StepSave? {
      SaveSettles(s, step.c, step.id, step.now, step.ok);
    } else {
      assert Apply(s, step).outbox == s.outbox;
    }
  }

  lemma {:induction false} RunSettles(s: State, steps: seq<Step>)
    requires Inv(s)
    ensures RowsSettle(s.outbox, Run(s, steps).outbox)
    decreases |steps|
  {
    if steps != [] {
      StepSettles(s, steps[0]);
      StepKeeps(s, steps[0]);
      RunSettles(Apply(s, steps[0]), steps[1..]);
    }
  }

  /**
   * The life of a row over every run, outbox updates failing at will: completed means published,
   * failed means five counted retries, the count never passes five nor the failed publishes, and
   * completed and failed are final.
   */
  lemma {:induction false} RowLife(before: seq<Step>, later: seq<Step>, id: string)
    requires id in Run(INIT, before).outbox
    ensures var s, t := Run(INIT, before), Run(INIT, before + later);
            && id in t.outbox && id in t.tries
            && (s.outbox[id].status != Pending ==> t.outbox[id] == s.outbox[id])
            && t.outbox[id].retryCount <= 5 && t.outbox[id].retryCount <= t.tries[id].refused
            && (t.outbox[id].status == Failed ==> t.outbox[id].retryCount == 5)
            && (t.outbox[id].status == Completed ==>
                  t.tries[id].sent >= 1
                  && Decode(t.outbox[id].eventType, t.outbox[id].payload).Call?
                  && Decode(t.outbox[id].eventType, t.outbox[id].payload).call in t.log)
  {
    InitInv();
    RunKeeps(INIT, before);
    RunConcat(INIT, before, later);
    RunKeeps(Run(INIT, before), later);
    RunSettles(Run(INIT, before), later);
  }

  // ---- Messages and chats ----

  /** Every stored message names its chat by its two users, and both sides have a chats row. */
  ghost predicate MessagesSound(s: State) {
    && s.messages.Keys <= s.ids
    && forall id :: id in s.messages ==>
         var m := s.messages[id];
         && m.chatId == ChatIds.ChatId(m.senderId, m.recipientId)
         && (m.senderId, m.recipientId) in s.chats && (m.recipientId, m.senderId) in s.chats
  }

  /** A message that is still there has not lost status, and a used id is never used again. */
  ghost predicate MessagesAdvance(s: State, s': State) {
    && s.ids <= s'.ids
    && forall id :: id in s.ids && id in s'.messages ==>
         && id in s.messages
         && s.messages[id].status <= s'.messages[id].status
         && s'.messages[id] == s.messages[id].(status := s'.messages[id].status, content := s'.messages[id].content)
  }

  lemma {:induction false} SendAdvances(s: State, c: nat, id: string, now: int, ok: bool)
    requires MessagesSound(s) && c in s.calls && s.calls[c].Received? && s.calls[c].req.Send?
    ensures MessagesSound(CommitSend(s, c, id, now, ok)) && MessagesAdvance(s, CommitSend(s, c, id, now, ok))
  {
  }

  lemma {:induction false} ChangedAdvances(messages: map<string, Message>, req: Request)
    requires !req.Send?
    ensures var after := Changed(messages, req);
            forall id :: id in after ==>
              && id in messages && messages[id].status <= after[id].status
              && after[id] == messages[id].(status := after[id].status, content := after[id].content)
  {
  }

  lemma {:induction false} LoadedAdvances(s: State, c: nat, ok: bool)
    requires MessagesSound(s) && c in s.calls && s.calls[c].Loaded?
    ensures MessagesSound(CommitLoaded(s, c, ok)) && MessagesAdvance(s, CommitLoaded(s, c, ok))
  {
    var s' := CommitLoaded(s, c, ok);
    if s'.messages == s.messages {
      Unmoved(s, s');
    } else {
      ChangedAdvances(s.messages, s.calls[c].req);
    }
  }

  lemma {:induction false} Unmoved(s: State, s': State)
    requires MessagesSound(s) && s'.messages == s.messages && s'.chats == s.chats && s'.ids == s.ids
    ensures MessagesSound(s') && MessagesAdvance(s, s')
  {
  }

  lemma {:induction false} CommitAdvances(s: State, c: nat, id: string, now: int, ok: bool)
    requires MessagesSound(s)
    ensures MessagesSound(Commit(s, c, id, now, ok)) && MessagesAdvance(s, Commit(s, c, id, now, ok))
  {
    if c in s.calls && s.calls[c].Received? && s.calls[c].req.Send? {
      SendAdvances(s, c, id, now, ok);
    } else if c in s.calls && s.calls[c].Loaded? {
      LoadedAdvances(s, c, ok);
    } else {
      Unmoved(s, s);
    }
  }

  lemma {:induction false} StepAdvances(s: State, step: Step)
    requires MessagesSound(s)
    ensures MessagesSound(Apply(s, step)) && MessagesAdvance(s, Apply(s, step))
  {
    var s' := Apply(s, step);
    match step
    case StepReceive(c, req) => Unmoved(s, s');
    case StepLoad(c, ok) => Unmoved(s, s');
    case StepCommit(c, id, now, ok) => CommitAdvances(s, c, id, now, ok);
    case StepPublish(c, up) => Unmoved(s, s');
    case StepSave(c, id, now, ok) => Unmoved(s, s');
    case StepFetch(batch, ok) => Unmoved(s, s');
    case StepAttempt(up) => Unmoved(s, s');
    case StepUpdate(now, ok) => Unmoved(s, s');
  }

  /** In every run, message statuses never fall, and direct messages keep their chat id and chats rows. */
  lemma {:induction false} StatusesRise(s: State, steps: seq<Step>)
    requires MessagesSound(s)
    ensures MessagesSound(Run(s, steps)) && MessagesAdvance(s, Run(s, steps))
    decreases |steps|
  {
    if steps != [] {
      StepAdvances(s, steps[0]);
      StatusesRise(Apply(s, steps[0]), steps[1..]);
    }
  }

  // ---- Who may change a message ----

  /** A call that read its message and passed the ownership check still speaks of the same author. */
  ghost predicate LoadedSound(s: State) {
    forall c :: c in s.calls && s.calls[c].Loaded? ==> AuthorKnown(s, s.calls[c].req, s.calls[c].msg)
  }

  ghost predicate AuthorKnown(s: State, req: Request, msg: Message) {
    && !req.Send? && MayTouch(req, msg) && Target(req) in s.ids
    && (Target(req) in s.messages ==> s.messages[Target(req)].senderId == msg.senderId)
  }

  /** Senders do not change and ids are not used again, so what was read of an author stays true. */
  lemma {:induction false} AuthorsStay(s: State, t: State)
    requires MessagesAdvance(s, t)
    ensures forall req, msg :: AuthorKnown(s, req, msg) ==> AuthorKnown(t, req, msg)
  {
  }

  lemma {:induction false} WorkerLeavesCalls(s: State, step: Step)
    requires step.StepFetch? || step.StepAttempt? || step.StepUpdate?
    ensures Apply(s, step).calls == s.calls
  {
    hide Decode, IsBatch;
  }

  /** These steps move one call, and not to Loaded. */
  lemma {:induction false} CallsMoveOn(s: State, step: Step, c: nat)
    requires step.StepReceive? || step.StepCommit? || step.StepPublish? || step.StepSave?
    requires c in Apply(s, step).calls && Apply(s, step).calls[c].Loaded?
    ensures c in s.calls && s.calls[c] == Apply(s, step).calls[c]
  {
    hide Changed, NewMessage, EventOf, NewRow, ReplyTo, Valid;
  }

  /** A call becomes Loaded only by its own load. */
  lemma {:induction false} LoadedBefore(s: State, step: Step, c: nat)
    requires c in Apply(s, step).calls && Apply(s, step).calls[c].Loaded?
    ensures c in s.calls
    ensures s.calls[c] == Apply(s, step).calls[c]
            || (step == StepLoad(c, true) && var p := Apply(s, step).calls[c];
                !p.req.Send? && Target(p.req) in s.messages && s.messages[Target(p.req)] == p.msg && MayTouch(p.req, p.msg))
  {
    if step.StepFetch? || step.StepAttempt? || step.StepUpdate? {
      WorkerLeavesCalls(s, step);
    } else if !step.StepLoad? {
      CallsMoveOn(s, step, c);
    } else {
      hide Target, MayTouch;
      assert Apply(s, step) == Load(s, step.c, step.ok);
    }
  }

  lemma {:induction false} StepKeepsLoaded(s: State, step: Step)
    requires MessagesSound(s) && LoadedSound(s)
    ensures LoadedSound(Apply(s, step))
  {
    hide Apply, AuthorKnown;
    var t := Apply(s, step);
    StepAdvances(s, step);
    AuthorsStay(s, t);
    forall c | c in t.calls && t.calls[c].Loaded?
      ensures AuthorKnown(t, t.calls[c].req, t.calls[c].msg)
    {
      LoadedBefore(s, step, c);
      if s.calls[c] != t.calls[c] {
        JustLoaded(s, t.calls[c].req, t.calls[c].msg);
      }
    }
  }

  lemma {:induction false} JustLoaded(s: State, req: Request, msg: Message)
    requires MessagesSound(s) && !req.Send? && MayTouch(req, msg)
    requires Target(req) in s.messages && s.messages[Target(req)] == msg
    ensures AuthorKnown(s, req, msg)
  {
  }

  lemma {:induction false} RunKeepsLoaded(s: State, steps: seq<Step>)
    requires MessagesSound(s) && LoadedSound(s)
    ensures MessagesSound(Run(s, steps)) && LoadedSound(Run(s, steps))
    decreases |steps|
  {
    hide Apply, MessagesSound, LoadedSound;
    if steps != [] {
      StepAdvances(s, steps[0]);
      StepKeepsLoaded(s, steps[0]);
      RunKeepsLoaded(Apply(s, steps[0]), steps[1..]);
    }
  }

  /** The call that commits in this step has this request. */
  ghost predicate CommitsRequest(s: State, step: Step, req: Request) {
    step.StepCommit? && step.c in s.calls && s.calls[step.c].Loaded? && s.calls[step.c].req == req
  }

  /**
   * Whatever interleaves between a call's check and its write: a message only disappears or changes its content by
   * a delete or edit of its own author, and its status only rises by a read mark of its recipient in its chat.
   */
  lemma {:induction false} OnlyOwnersChange(steps: seq<Step>, step: Step, id: string)
    requires id in Run(INIT, steps).messages
    ensures var s, t := Run(INIT, steps), Apply(Run(INIT, steps), step);
            var m := s.messages[id];
            && (id !in t.messages ==> CommitsRequest(s, step, Delete(id, m.senderId)))
            && (id in t.messages && t.messages[id].content != m.content ==>
                  CommitsRequest(s, step, Alter(id, m.senderId, t.messages[id].content)))
            && (id in t.messages && t.messages[id].status != m.status ==>
                  step.StepCommit? && step.c in s.calls && s.calls[step.c].Loaded?
                  && CommitsRequest(s, step, Read(m.chatId, m.recipientId, Target(s.calls[step.c].req))))
  {
    RunKeepsLoaded(INIT, steps);
    var s := Run(INIT, steps);
    hide Run, MessagesSound, LoadedSound;
    if step.StepCommit? && step.c in s.calls {
      CommitTouches(s, step.c, step.id, step.now, step.ok, id);
    } else {
      OthersLeaveMessages(s, step);
    }
  }

  lemma {:induction false} OthersLeaveMessages(s: State, step: Step)
    requires step.StepCommit? ==> step.c !in s.calls
    ensures Apply(s, step).messages == s.messages
  {
  }

  lemma {:induction false} CommitTouches(s: State, c: nat, newId: string, now: int, ok: bool, id: string)
    requires MessagesSound(s) && LoadedSound(s) && c in s.calls && id in s.messages
    ensures var t, m := Commit(s, c, newId, now, ok), s.messages[id];
            && (id !in t.messages ==> s.calls[c].Loaded? && s.calls[c].req == Delete(id, m.senderId))
            && (id in t.messages && t.messages[id].content != m.content ==>
                  s.calls[c].Loaded? && s.calls[c].req == Alter(id, m.senderId, t.messages[id].content))
            && (id in t.messages && t.messages[id].status != m.status ==>
                  s.calls[c].Loaded? && s.calls[c].req == Read(m.chatId, m.recipientId, Target(s.calls[c].req)))
  {
    if s.calls[c].Loaded? {
      assert AuthorKnown(s, s.calls[c].req, s.calls[c].msg);
    }
  }
}
