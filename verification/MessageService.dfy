/**
 * The message service and the outbox worker as written: methods that change the tables and the log in
 * order. Each method is proved to do what a run of the machine does when nothing interleaves with it.
 */
module MessageService {
  import opened Options
  import opened Payloads
  import opened OutboxMachine
  import opened OutboxSafety
  import opened OutboxDrain
  import opened OutboxRounds
  import ChatIds
  import ReadMarks

  /** What the database, Kafka, the clock and the uuid generator answer during one call. */
  datatype Env = Env(readOk: bool, id: string, now: int, writeOk: bool, up: bool, rowId: string, rowNow: int, saveOk: bool)

  /** What they answer during one worker round, event by event; no answer counts as a failure. */
  datatype Tick = Tick(publishes: seq<bool>, updates: seq<bool>, times: seq<int>) {
    predicate Up(i: nat) {
      i < |publishes| && publishes[i]
    }

    predicate SqlOk(i: nat) {
      i < |updates| && updates[i]
    }

    function Now(i: nat): int {
      if i < |times| then times[i] else 0
    }
  }

  // ---- One call and one round, as runs of the machine ----

  /** The whole of call 0, alone; steps that are not enabled change nothing. */
  function CallSteps(req: Request, env: Env): seq<Step> {
    [StepReceive(0, req), StepLoad(0, env.readOk), StepCommit(0, env.id, env.now, env.writeOk),
     StepPublish(0, env.up), StepSave(0, env.rowId, env.rowNow, env.saveOk)]
  }

  lemma {:induction false} FiveSteps(s: State, req: Request, env: Env)
    ensures Run(s, CallSteps(req, env))
            == Delivered(Commit(Load(Receive(s, 0, req), 0, env.readOk), 0, env.id, env.now, env.writeOk), env)
  {
    hide Run, Receive, Load, Commit, Publish, Save;
    var steps := CallSteps(req, env);
    RunConcat(s, steps[..3], steps[3..]);
    assert steps == steps[..3] + steps[3..];
    assert steps[..3] == [steps[0], steps[1], steps[2]] && steps[3..] == [steps[3], steps[4]];
    ThreeSteps(s, steps[0], steps[1], steps[2]);
    TwoSteps(Run(s, steps[..3]), steps[3], steps[4]);
  }

  lemma {:induction false} TwoSteps(s: State, a: Step, b: Step)
    ensures Run(s, [a, b]) == Apply(Apply(s, a), b)
  {
    assert [a, b][1..] == [b] && [b][1..] == [];
    assert Run(s, [a, b]) == Run(Apply(s, a), [b]);
    assert Run(Apply(s, a), [b]) == Run(Apply(Apply(s, a), b), []);
  }

  lemma {:induction false} ThreeSteps(s: State, a: Step, b: Step, c: Step)
    ensures Run(s, [a, b, c]) == Apply(Apply(Apply(s, a), b), c)
  {
    assert [a, b, c][1..] == [b, c];
    assert Run(s, [a, b, c]) == Run(Apply(s, a), [b, c]);
    TwoSteps(Apply(s, a), b, c);
  }

  function Delivered(s: State, env: Env): State {
    Save(Publish(s, 0, env.up), 0, env.rowId, env.rowNow, env.saveOk)
  }

  function OneCall(p: Phase): map<nat, Phase> {
    map[0 := p]
  }

  lemma Overwrite(p: Phase, q: Phase)
    ensures OneCall(p)[0 := q] == OneCall(q)
  {
  }

  /** The three ways a committed event can go. */
  lemma {:induction false} DeliveredCases(s: State, event: KafkaCall, aggregateId: string, env: Env)
    requires s.calls == OneCall(Committed(event, aggregateId))
    ensures Delivered(s, env) ==
            if env.up then s.(log := s.log + [event], calls := OneCall(Done(ReplyTo(event))))
            else if env.saveOk && env.rowId !in s.outbox then
              s.(outbox := s.outbox[env.rowId := NewRow(event, aggregateId, env.rowId, env.rowNow)],
                 tries := s.tries[env.rowId := Tries(0, 0)], calls := OneCall(Done(ReplyTo(event))))
            else s.(lost := s.lost + multiset{event}, calls := OneCall(Done(ReplyTo(event))))
  {
    Overwrite(Committed(event, aggregateId), Done(ReplyTo(event)));
    Overwrite(Committed(event, aggregateId), Unpublished(event, aggregateId));
    Overwrite(Unpublished(event, aggregateId), Done(ReplyTo(event)));
  }

  lemma {:induction false} ReceivedAlone(s: State, req: Request)
    requires s.calls == map[] && Valid(req)
    ensures Receive(s, 0, req) == s.(calls := OneCall(Received(req)))
  {
  }

  /** A call that is refused before it reads anything. */
  lemma {:induction false} RefusedCall(s: State, req: Request, env: Env)
    requires s.calls == map[] && !Valid(req)
    ensures Run(s, CallSteps(req, env)) == s.(calls := OneCall(Done(Error(InvalidInput))))
  {
    FiveSteps(s, req, env);
    assert Receive(s, 0, req) == s.(calls := OneCall(Done(Error(InvalidInput))));
  }

  /** A send, its transaction failing or committing. */
  lemma {:induction false} SentCall(s: State, req: Request, env: Env)
    requires s.calls == map[] && env.id !in s.ids && Valid(req) && req.Send?
    ensures var msg := NewMessage(req, env.id, env.now);
            Run(s, CallSteps(req, env)) ==
            if !env.writeOk then s.(calls := OneCall(Done(Error(Database))))
            else Delivered(s.(messages := s.messages[env.id := msg],
                              chats := s.chats + {(req.sender, req.recipient), (req.recipient, req.sender)},
                              calls := OneCall(Committed(MessageSent(msg), env.id)),
                              ids := s.ids + {env.id},
                              applied := s.applied + multiset{MessageSent(msg)}), env)
  {
    var msg := NewMessage(req, env.id, env.now);
    FiveSteps(s, req, env);
    ReceivedAlone(s, req);
    Overwrite(Received(req), Done(Error(Database)));
    Overwrite(Received(req), Committed(MessageSent(msg), env.id));
  }

  /** What GetByID and the ownership check make of a delete, read or alter. */
  function LoadResult(messages: map<string, Message>, req: Request, readOk: bool): Phase {
    if !readOk then Done(Error(Database))
    else if Target(req) !in messages then Done(Error(NotFound))
    else if !MayTouch(req, messages[Target(req)]) then Done(Error(NotYourMessage))
    else Loaded(req, messages[Target(req)])
  }

  lemma {:induction false} LoadAlone(s: State, req: Request, readOk: bool)
    requires s.calls == map[] && Valid(req) && !req.Send?
    ensures Load(Receive(s, 0, req), 0, readOk) == s.(calls := OneCall(LoadResult(s.messages, req, readOk)))
  {
    ReceivedAlone(s, req);
    Overwrite(Received(req), LoadResult(s.messages, req, readOk));
  }

  /** A delete, read or alter that finds no row of its own. */
  lemma {:induction false} UnloadedCall(s: State, req: Request, env: Env)
    requires s.calls == map[] && Valid(req) && !req.Send? && LoadResult(s.messages, req, env.readOk).Done?
    ensures Run(s, CallSteps(req, env)) == s.(calls := OneCall(LoadResult(s.messages, req, env.readOk)))
  {
    FiveSteps(s, req, env);
    LoadAlone(s, req, env.readOk);
  }

  /** A delete, read or alter that does, its statement failing or committing. */
  lemma {:induction false} LoadedCall(s: State, req: Request, env: Env)
    requires s.calls == map[] && Valid(req) && !req.Send? && LoadResult(s.messages, req, env.readOk).Loaded?
    ensures var msg := s.messages[Target(req)];
            Run(s, CallSteps(req, env)) ==
            if !env.writeOk then s.(calls := OneCall(Done(Error(Database))))
            else Delivered(s.(messages := Changed(s.messages, req),
                              calls := OneCall(Committed(EventOf(req, msg), Target(req))),
                              applied := s.applied + multiset{EventOf(req, msg)}), env)
  {
    var msg := s.messages[Target(req)];
    FiveSteps(s, req, env);
    LoadAlone(s, req, env.readOk);
    Overwrite(Loaded(req, msg), Done(Error(Database)));
    Overwrite(Loaded(req, msg), Committed(EventOf(req, msg), Target(req)));
  }

  /** What one pass of the worker's loop does: publish, then update. */
  function Visit(s: State, up: bool, now: int, sqlOk: bool): State {
    Update(Attempt(s, up), now, sqlOk)
  }

  function Pass(tick: Tick, k: nat): seq<Step> {
    [StepAttempt(tick.Up(k)), StepUpdate(tick.Now(k), tick.SqlOk(k))]
  }

  /** The first k passes of a round, as steps of the machine. */
  function VisitSteps(tick: Tick, k: nat): seq<Step> {
    if k == 0 then []
    else VisitSteps(tick, k - 1) + Pass(tick, k - 1)
  }

  function TickSteps(events: seq<Row>, fetchOk: bool, tick: Tick): seq<Step> {
    [StepFetch(events, fetchOk)] + VisitSteps(tick, |events|)
  }

  /** A publish of the worker, or one of its updates. */
  predicate WorkerOnly(step: Step) {
    step.StepAttempt? || step.StepUpdate?
  }

  /** The database takes the first k updates. */
  ghost predicate SqlUp(tick: Tick, k: nat) {
    forall i: nat :: i < k ==> tick.SqlOk(i)
  }

  lemma {:induction false} VisitsAreWorkerOnly(tick: Tick, k: nat)
    ensures forall i :: 0 <= i < |VisitSteps(tick, k)| ==> WorkerOnly(VisitSteps(tick, k)[i])
    ensures SqlUp(tick, k) ==> !AnyUpdateFails(VisitSteps(tick, k))
  {
    if k > 0 {
      VisitsAreWorkerOnly(tick, k - 1);
    }
  }

  lemma {:induction false} PairIsVisit(s: State, up: bool, now: int, sqlOk: bool)
    ensures Run(s, [StepAttempt(up), StepUpdate(now, sqlOk)]) == Visit(s, up, now, sqlOk)
  {
    TwoSteps(s, StepAttempt(up), StepUpdate(now, sqlOk));
  }

  lemma {:induction false} NextVisit(s: State, tick: Tick, k: nat, after: State)
    requires after == Run(Run(s, VisitSteps(tick, k)), Pass(tick, k))
    ensures Run(s, VisitSteps(tick, k + 1)) == after
  {
    RunConcat(s, VisitSteps(tick, k), Pass(tick, k));
  }

  lemma {:induction false} FetchFirst(s: State, events: seq<Row>, fetchOk: bool, tick: Tick)
    ensures Run(s, TickSteps(events, fetchOk, tick)) == Run(Fetch(s, events, fetchOk), VisitSteps(tick, |events|))
  {
    var all := TickSteps(events, fetchOk, tick);
    assert all[0] == StepFetch(events, fetchOk) && all[1..] == VisitSteps(tick, |events|);
  }

  // ---- The service ----

  /** A committed event is published, or else saved for the worker if the outbox takes it. */
  ghost predicate Handed(log: seq<KafkaCall>, outbox: Table, log': seq<KafkaCall>, outbox': Table,
                         event: KafkaCall, eventType: string, aggregateId: string, env: Env) {
    if env.up then log' == log + [event] && outbox' == outbox
    else log' == log
         && outbox' == if env.saveOk && env.rowId !in outbox
                       then outbox[env.rowId := Row(env.rowId, eventType, aggregateId, Marshal(event), env.rowNow, 0, None, None, Pending)]
                       else outbox
  }

  class Service {
    var messages: map<string, Message>
    var chats: set<(string, string)>
    var log: seq<KafkaCall>
    var outbox: Table
    ghost var ids: set<string>
    ghost var applied: multiset<KafkaCall>
    ghost var lost: multiset<KafkaCall>
    ghost var resent: multiset<KafkaCall>
    ghost var tries: map<string, Tries>

    /** The machine's state between calls. */
    ghost function View(): State
      reads this
    {
      State(messages, chats, map[], log, outbox, Idle, ids, applied, lost, resent, tries)
    }

    constructor ()
      ensures View() == INIT
    {
      messages, chats, log, outbox := map[], {}, [], map[];
      ids, applied, lost, resent, tries := {}, multiset{}, multiset{}, multiset{}, map[];
    }

    /** The tail of all four calls: publish, or fall back on the outbox. */
    method Deliver(event: KafkaCall, aggregateId: string, env: Env)
      modifies this`log, this`outbox, this`tries, this`lost
      ensures View().(calls := OneCall(Done(ReplyTo(event))))
              == Delivered(old(View()).(calls := OneCall(Committed(event, aggregateId))), env)
      ensures Handed(old(log), old(outbox), log, outbox, event, EventType(event), aggregateId, env)
    {
      DeliveredCases(View().(calls := OneCall(Committed(event, aggregateId))), event, aggregateId, env);
      if env.up {
        log := log + [event];
      } else if env.saveOk && env.rowId !in outbox {
        outbox := outbox[env.rowId := NewRow(event, aggregateId, env.rowId, env.rowNow)];
        tries := tries[env.rowId := Tries(0, 0)];
      } else {
        lost := lost + multiset{event};
      }
    }

    method SendMessage(sender: string, recipient: string, content: string, msgType: string, env: Env) returns (reply: Reply)
      requires env.id !in ids
      modifies this
      ensures View().(calls := OneCall(Done(reply)))
              == Run(old(View()), CallSteps(Send(sender, recipient, content, msgType), env))
      ensures reply == if sender == "" || recipient == "" || content == "" then Error(InvalidInput)
                       else if !env.writeOk then Error(Database)
                       else Created(Message(env.id, ChatIds.ChatId(sender, recipient), sender, recipient, content,
                                            if msgType == "" then "text" else msgType, env.now, 0, "", 0))
      ensures reply.Created? ==>
                && messages == old(messages)[env.id := reply.msg]
                && chats == old(chats) + {(sender, recipient), (recipient, sender)}
                && Handed(old(log), old(outbox), log, outbox, MessageSent(reply.msg), "message_sent", env.id, env)
      ensures !reply.Created? ==>
                messages == old(messages) && chats == old(chats) && log == old(log) && outbox == old(outbox)
    {
      hide Run, CallSteps, Delivered, Handed, Marshal;
      ghost var req, s := Send(sender, recipient, content, msgType), View();
      if sender == "" || recipient == "" || content == "" {
        RefusedCall(s, req, env);
        return Error(InvalidInput);
      }
      SentCall(s, req, env);
      var chatId := ChatIds.ChatId(sender, recipient);
      var kind := if msgType == "" then "text" else msgType;
      var msg := Message(env.id, chatId, sender, recipient, content, kind, env.now, 0, "", 0);
      if !env.writeOk {
        return Error(Database);
      }
      messages := messages[env.id := msg];
      chats := chats + {(sender, recipient), (recipient, sender)};
      ids, applied := ids + {env.id}, applied + multiset{MessageSent(msg)};
      assert View().(calls := OneCall(Committed(MessageSent(msg), env.id)))
          == s.(messages := s.messages[env.id := msg], chats := s.chats + {(sender, recipient), (recipient, sender)},
                calls := OneCall(Committed(MessageSent(msg), env.id)), ids := s.ids + {env.id},
                applied := s.applied + multiset{MessageSent(msg)});
      Deliver(MessageSent(msg), env.id, env);
      reply := Created(msg);
    }

    /** GetByID: a database error, a missing row, or the row. */
    method GetByID(id: string, readOk: bool) returns (failure: Failure, found: Option<Message>)
      ensures found.Some? <==> readOk && id in messages
      ensures found.Some? ==> found.value == messages[id]
      ensures found.None? ==> failure == if !readOk then Database else NotFound
    {
      if !readOk {
        return Database, None;
      }
      if id !in messages {
        return NotFound, None;
      }
      return NotFound, Some(messages[id]);
    }

    method DeleteMessage(messageId: string, user: string, env: Env) returns (reply: Reply)
      modifies this
      ensures View().(calls := OneCall(Done(reply))) == Run(old(View()), CallSteps(Delete(messageId, user), env))
      ensures chats == old(chats)
      ensures reply == if messageId == "" || user == "" then Error(InvalidInput)
                       else if !env.readOk then Error(Database)
                       else if messageId !in old(messages) then Error(NotFound)
                       else if old(messages)[messageId].senderId != user then Error(NotYourMessage)
                       else if !env.writeOk then Error(Database)
                       else Ok
      ensures reply == Ok ==>
                && messages == old(messages) - {messageId}
                && Handed(old(log), old(outbox), log, outbox, MessageDeleted(old(messages)[messageId]), "message_deleted", messageId, env)
      ensures reply != Ok ==> messages == old(messages) && log == old(log) && outbox == old(outbox)
    {
      hide Run, CallSteps, Delivered, Handed, Marshal;
      ghost var req, s := Delete(messageId, user), View();
      if messageId == "" || user == "" {
        RefusedCall(s, req, env);
        return Error(InvalidInput);
      }
      var failure, found := GetByID(messageId, env.readOk);
      if found.None? {
        UnloadedCall(s, req, env);
        return Error(failure);
      }
      var msg := found.value;
      if msg.senderId != user {
        UnloadedCall(s, req, env);
        return Error(NotYourMessage);
      }
      LoadedCall(s, req, env);
      if !env.writeOk {
        return Error(Database);
      }
      messages := messages - {messageId};
      applied := applied + multiset{MessageDeleted(msg)};
      Deliver(MessageDeleted(msg), messageId, env);
      reply := Ok;
    }

    method MarkAsRead(chatId: string, user: string, lastMessageId: string, env: Env) returns (reply: Reply)
      modifies this
      ensures View().(calls := OneCall(Done(reply))) == Run(old(View()), CallSteps(Read(chatId, user, lastMessageId), env))
      ensures chats == old(chats)
      ensures reply == if chatId == "" || user == "" || lastMessageId == "" then Error(InvalidInput)
                       else if !env.readOk then Error(Database)
                       else if lastMessageId !in old(messages) then Error(NotFound)
                       else if !env.writeOk then Error(Database)
                       else Ok
      ensures reply == Ok ==>
                && messages.Keys == old(messages).Keys
                && (forall id :: id in messages ==>
                      var m := old(messages)[id];
                      messages[id] == if m.chatId == chatId && m.recipientId == user && m.status < 2
                                         && m.createdAt <= old(messages)[lastMessageId].createdAt
                                      then m.(status := 2) else m)
                && Handed(old(log), old(outbox), log, outbox, MessageRead(chatId, user, old(messages)[lastMessageId].senderId, lastMessageId), "message_read", lastMessageId, env)
      ensures reply != Ok ==> messages == old(messages) && log == old(log) && outbox == old(outbox)
    {
      hide Run, CallSteps, Delivered, Handed, Marshal;
      ghost var req, s := Read(chatId, user, lastMessageId), View();
      if chatId == "" || user == "" || lastMessageId == "" {
        RefusedCall(s, req, env);
        return Error(InvalidInput);
      }
      var failure, found := GetByID(lastMessageId, env.readOk);
      if found.None? {
        UnloadedCall(s, req, env);
        return Error(failure);
      }
      LoadedCall(s, req, env);
      if !env.writeOk {
        return Error(Database);
      }
      messages := ReadMarks.MarkRead(messages, chatId, user, lastMessageId);
      var event := MessageRead(chatId, user, found.value.senderId, lastMessageId);
      applied := applied + multiset{event};
      Deliver(event, lastMessageId, env);
      reply := Ok;
    }

    method AlterMessage(messageId: string, user: string, newContent: string, env: Env) returns (reply: Reply)
      modifies this
      ensures View().(calls := OneCall(Done(reply))) == Run(old(View()), CallSteps(Alter(messageId, user, newContent), env))
      ensures chats == old(chats)
      ensures reply == if messageId == "" || user == "" || newContent == "" then Error(InvalidInput)
                       else if !env.readOk then Error(Database)
                       else if messageId !in old(messages) then Error(NotFound)
                       else if old(messages)[messageId].senderId != user then Error(NotYourMessage)
                       else if !env.writeOk then Error(Database)
                       else Ok
      ensures reply == Ok ==>
                && messages == old(messages)[messageId := old(messages)[messageId].(content := newContent)]
                && Handed(old(log), old(outbox), log, outbox, MessageAltered(old(messages)[messageId], newContent), "message_altered", messageId, env)
      ensures reply != Ok ==> messages == old(messages) && log == old(log) && outbox == old(outbox)
    {
      hide Run, CallSteps, Delivered, Handed, Marshal;
      ghost var req, s := Alter(messageId, user, newContent), View();
      if messageId == "" || user == "" || newContent == "" {
        RefusedCall(s, req, env);
        return Error(InvalidInput);
      }
      var failure, found := GetByID(messageId, env.readOk);
      if found.None? {
        UnloadedCall(s, req, env);
        return Error(failure);
      }
      var msg := found.value;
      if msg.senderId != user {
        UnloadedCall(s, req, env);
        return Error(NotYourMessage);
      }
      LoadedCall(s, req, env);
      if !env.writeOk {
        return Error(Database);
      }
      if messageId in messages {
        messages := messages[messageId := messages[messageId].(content := newContent)];
      }
      applied := applied + multiset{MessageAltered(msg, newContent)};
      Deliver(MessageAltered(msg, newContent), messageId, env);
      reply := Ok;
    }

    // ---- The worker ----

    /** SELECT ... WHERE status = 'pending' ORDER BY created_at LIMIT, ties in any order. */
    method GetPendingEvents(limit: nat) returns (events: seq<Row>)
      requires RowsSound(outbox)
      ensures IsBatch(outbox, events, limit)
    {
      events := [];
      var left := set id | id in outbox && outbox[id].status == Pending;
      while left != {} && |events| < limit
        invariant |events| <= limit && Distinct(events)
        invariant left <= outbox.Keys
        invariant forall i :: 0 <= i < |events| ==>
                    events[i].id in outbox && outbox[events[i].id] == events[i] && events[i].status == Pending
        invariant forall i, j :: 0 <= i < j < |events| ==> events[i].createdAt <= events[j].createdAt
        invariant forall id :: id in left <==> id in outbox && outbox[id].status == Pending && !HasId(events, id)
        invariant forall i, id :: 0 <= i < |events| && id in left ==> events[i].createdAt <= outbox[id].createdAt
        decreases left
      {
        ghost var oldest := Oldest(outbox, left);
        var id :| id in left && forall x :: x in left ==> outbox[id].createdAt <= outbox[x].createdAt;
        ghost var before := events;
        events := events + [outbox[id]];
        left := left - {id};
        OneMore(before, outbox[id]);
      }
    }

    /** publishEvent: whether the call succeeded, Kafka being up or not. */
    method PublishEvent(row: Row, ghost todo: seq<Row>, up: bool) returns (ok: bool)
      requires row.retryCount < MAX_RETRIES
      modifies this`log, this`tries
      ensures View().(worker := Marking(row, if ok then Sent else Refused, todo))
              == Attempt(old(View()).(worker := Ready([row] + todo)), up)
      ensures var d := Decode(row.eventType, row.payload);
              && ok == (d.Ignored? || (d.Call? && up))
              && log == if d.Call? && up then old(log) + [d.call] else old(log)
    {
      assert ([row] + todo)[0] == row && ([row] + todo)[1..] == todo;
      ghost var known := if row.id in tries then tries[row.id] else Tries(0, 0);
      match Decode(row.eventType, row.payload)
      case Call(event) =>
        if up {
          log := log + [event];
          tries := tries[row.id := known.(sent := known.sent + 1)];
        } else {
          tries := tries[row.id := known.(refused := known.refused + 1)];
        }
        ok := up;
      case Malformed =>
        tries := tries[row.id := known.(refused := known.refused + 1)];
        ok := false;
      case Ignored =>
        ok := true;
    }

    method MarkEventFailed(id: string, sqlOk: bool)
      modifies this`outbox
      ensures outbox == if sqlOk then Put(old(outbox), id, Fail) else old(outbox)
      ensures outbox == if sqlOk && id in old(outbox)
                        then old(outbox)[id := old(outbox)[id].(status := Failed, lastError := Some("max retries exceeded"))]
                        else old(outbox)
    {
      if sqlOk && id in outbox {
        outbox := outbox[id := outbox[id].(status := Failed, lastError := Some("max retries exceeded"))];
      }
    }

    method IncrementRetryCount(id: string, sqlOk: bool)
      modifies this`outbox
      ensures outbox == if sqlOk then Put(old(outbox), id, Retry) else old(outbox)
      ensures outbox == if sqlOk && id in old(outbox)
                        then old(outbox)[id := old(outbox)[id].(retryCount := old(outbox)[id].retryCount + 1)]
                        else old(outbox)
    {
      if sqlOk && id in outbox {
        outbox := outbox[id := outbox[id].(retryCount := outbox[id].retryCount + 1)];
      }
    }

    method MarkEventProcessed(id: string, now: int, sqlOk: bool)
      modifies this`outbox
      ensures outbox == if sqlOk then Put(old(outbox), id, r => Complete(r, now)) else old(outbox)
      ensures outbox == if sqlOk && id in old(outbox)
                        then old(outbox)[id := old(outbox)[id].(status := Completed, processedAt := Some(now))]
                        else old(outbox)
    {
      if sqlOk && id in outbox {
        outbox := outbox[id := outbox[id].(status := Completed, processedAt := Some(now))];
      }
    }

    /** The body of the worker's loop; todo is the rest of its batch. */
    method ProcessEvent(event: Row, ghost todo: seq<Row>, up: bool, now: int, sqlOk: bool)
      modifies this`log, this`tries, this`outbox, this`resent
      ensures View().(worker := Continue(todo))
              == Run(old(View()).(worker := Ready([event] + todo)), [StepAttempt(up), StepUpdate(now, sqlOk)])
      ensures var d := Decode(event.eventType, event.payload);
              log == if event.retryCount < 5 && d.Call? && up then old(log) + [d.call] else old(log)
      ensures !sqlOk || event.id !in old(outbox) ==> outbox == old(outbox)
      ensures sqlOk && event.id in old(outbox) ==>
                var d, row := Decode(event.eventType, event.payload), old(outbox)[event.id];
                outbox == old(outbox)[event.id :=
                  if event.retryCount >= 5 then row.(status := Failed, lastError := Some("max retries exceeded"))
                  else if d.Ignored? || (d.Call? && up) then row.(status := Completed, processedAt := Some(now))
                  else row.(retryCount := row.retryCount + 1)]
    {
      hide Run, Decode, Attempt, Update, Put, Complete;
      ghost var v := View();
      PairIsVisit(v.(worker := Ready([event] + todo)), up, now, sqlOk);
      if event.retryCount >= MAX_RETRIES {
        MarkEventFailed(event.id, sqlOk);
        GivenUp(v, event, todo, up, now, sqlOk);
        return;
      }
      var ok := PublishEvent(event, todo, up);
      Marked(View(), event, if ok then Sent else Refused, todo, now, sqlOk);
      if !ok {
        IncrementRetryCount(event.id, sqlOk);
      } else {
        MarkEventProcessed(event.id, now, sqlOk);
        if !sqlOk && Decode(event.eventType, event.payload).Call? {
          resent := resent + multiset{Decode(event.eventType, event.payload).call};
        }
      }
    }

    /** The worker's loop over its batch. */
    method ProcessBatch(events: seq<Row>, tick: Tick)
      modifies this`log, this`tries, this`outbox, this`resent
      ensures View() == Run(old(View()).(worker := Continue(events)), VisitSteps(tick, |events|))
    {
      hide Apply;
      ghost var s0 := View().(worker := Continue(events));
      var i := 0;
      assert events[0..] == events;
      while i < |events|
        invariant 0 <= i <= |events|
        invariant Run(s0, VisitSteps(tick, i)) == View().(worker := Continue(events[i..]))
      {
        var event := events[i];
        ghost var todo := events[i + 1..];
        assert events[i..] == [event] + todo;
        ghost var before := View().(worker := Ready([event] + todo));
        assert before == Run(s0, VisitSteps(tick, i));
        var up, now, sqlOk := tick.Up(i), tick.Now(i), tick.SqlOk(i);
        ProcessEvent(event, todo, up, now, sqlOk);
        ghost var after := View().(worker := Continue(todo));
        assert after == Run(before, [StepAttempt(up), StepUpdate(now, sqlOk)]);
        NextVisit(s0, tick, i, after);
        i := i + 1;
      }
      assert events[|events|..] == [];
    }

    /** One tick of the worker. */
    method ProcessEvents(fetchOk: bool, tick: Tick) returns (events: seq<Row>)
      requires RowsSound(outbox)
      modifies this`log, this`tries, this`outbox, this`resent
      ensures IsBatch(old(outbox), events, 100) || (!fetchOk && events == [])
      ensures View() == Run(old(View()), TickSteps(events, fetchOk, tick))
    {
      ghost var s := View();
      if !fetchOk {
        FetchFirst(s, [], false, tick);
        return [];
      }
      events := GetPendingEvents(BATCH);
      FetchFirst(s, events, true, tick);
      ProcessBatch(events, tick);
    }
  }

  /** An exhausted row is marked failed without another publish. */
  lemma {:induction false} GivenUp(s: State, row: Row, todo: seq<Row>, up: bool, now: int, ok: bool)
    requires row.retryCount >= MAX_RETRIES
    ensures Visit(s.(worker := Ready([row] + todo)), up, now, ok)
            == s.(worker := Continue(todo), outbox := if ok then Put(s.outbox, row.id, Fail) else s.outbox)
  {
    assert ([row] + todo)[0] == row && ([row] + todo)[1..] == todo;
  }

  lemma {:induction false} Marked(s: State, row: Row, outcome: Outcome, todo: seq<Row>, now: int, ok: bool)
    ensures var d := Decode(row.eventType, row.payload);
            Update(s.(worker := Marking(row, outcome, todo)), now, ok)
            == s.(worker := Continue(todo),
                  outbox := if !ok then s.outbox
                            else if outcome == Refused then Put(s.outbox, row.id, Retry)
                            else Put(s.outbox, row.id, r => Complete(r, now)),
                  resent := if !ok && outcome == Sent && d.Call? then s.resent + multiset{d.call} else s.resent)
  {
  }

  /** A batch extended by a row no older than its rows. */
  lemma {:induction false} OneMore(batch: seq<Row>, row: Row)
    requires Distinct(batch) && !HasId(batch, row.id)
    requires forall i, j :: 0 <= i < j < |batch| ==> batch[i].createdAt <= batch[j].createdAt
    requires forall i :: 0 <= i < |batch| ==> batch[i].createdAt <= row.createdAt
    ensures var more := batch + [row];
            && Distinct(more)
            && (forall i, j :: 0 <= i < j < |more| ==> more[i].createdAt <= more[j].createdAt)
            && (forall x :: HasId(more, x) <==> HasId(batch, x) || x == row.id)
  {
    var more := batch + [row];
    forall x
      ensures HasId(more, x) <==> HasId(batch, x) || x == row.id
    {
      assert more[|batch|].id == row.id;
      assert forall i :: 0 <= i < |batch| ==> more[i] == batch[i];
    }
    forall i, j | 0 <= i < j < |more|
      ensures more[i].id != more[j].id && more[i].createdAt <= more[j].createdAt
    {
      if j == |batch| {
        assert !HasId(batch, row.id);
      }
    }
  }

  lemma {:induction false} Oldest(t: Table, left: set<string>) returns (id: string)
    requires left != {} && left <= t.Keys
    ensures id in left && forall x :: x in left ==> t[id].createdAt <= t[x].createdAt
    decreases |left|
  {
    id :| id in left;
    if left - {id} != {} {
      var rest := Oldest(t, left - {id});
      if t[rest].createdAt < t[id].createdAt {
        id := rest;
      }
    }
  }

  // ---- A round with nothing interleaved ----

  lemma {:induction false} VisitAdvances(s: State, up: bool, now: int, sqlOk: bool)
    requires Inv(s) && s.worker.Ready?
    ensures Run(s, [StepAttempt(up), StepUpdate(now, sqlOk)]).worker == Continue(s.worker.todo[1..])
  {
    PairIsVisit(s, up, now, sqlOk);
    assert Held(s.worker)[0] == s.worker.todo[0];
  }

  lemma {:induction false} AdvanceFrom(s: State, t: State, events: seq<Row>, tick: Tick, k: nat)
    requires Inv(s) && k < |events| && s.worker == Continue(events[k..])
    requires t == Run(s, Pass(tick, k))
    ensures t.worker == Continue(events[k + 1..])
  {
    hide Run, Inv;
    VisitAdvances(s, tick.Up(k), tick.Now(k), tick.SqlOk(k));
    assert events[k..][1..] == events[k + 1..];
  }

  lemma {:induction false} NoVisits(s0: State, events: seq<Row>, tick: Tick)
    requires s0.worker == Continue(events)
    ensures Run(s0, VisitSteps(tick, 0)).worker == Continue(events[0..])
  {
    assert events[0..] == events;
  }

  /** Each visit takes one row off the worker's list. */
  lemma {:induction false} VisitsAdvance(s0: State, events: seq<Row>, tick: Tick, k: nat)
    requires Inv(s0) && s0.worker == Continue(events) && k <= |events|
    ensures Run(s0, VisitSteps(tick, k)).worker == Continue(events[k..])
    decreases k
  {
    hide Apply, Run, Inv, VisitSteps, Pass, Continue;
    if k == 0 {
      NoVisits(s0, events, tick);
    } else {
      var s := Run(s0, VisitSteps(tick, k - 1));
      var t := Run(s, Pass(tick, k - 1));
      VisitsAdvance(s0, events, tick, k - 1);
      RunKeeps(s0, VisitSteps(tick, k - 1));
      NextVisit(s0, tick, k - 1, t);
      AdvanceFrom(s, t, events, tick, k - 1);
    }
  }

  /**
   * What ProcessEvents does keeps the machine's invariant, and is a worker round and so a round on the table, with
   * no failure if the updates succeed: the drain bounds count calls of ProcessEvents.
   */
  lemma {:induction false} TickIsRound(s: State, events: seq<Row>, tick: Tick, horizon: int)
    requires Inv(s) && s.worker.Idle? && IsBatch(s.outbox, events, BATCH)
    ensures var steps := TickSteps(events, true, tick);
            var v := Run(s, steps);
            && Inv(v) && v.worker.Idle?
            && WorkerRound(s, steps, horizon) && Round(s.outbox, v.outbox, events, AnyUpdateFails(steps), horizon)
            && (SqlUp(tick, |events|) ==> !AnyUpdateFails(steps))
  {
    hide Inv, Run, Round, VisitSteps, SqlUp, Apply, IsBatch;
    var all := TickSteps(events, true, tick);
    RunKeeps(s, all);
    FetchFirst(s, events, true, tick);
    FetchKeeps(s, events, true);
    VisitsAdvance(Fetch(s, events, true), events, tick, |events|);
    TickIsCalm(events, tick, horizon);
    WorkerRoundIsRound(s, all, horizon);
  }

  lemma {:induction false} TickIsCalm(events: seq<Row>, tick: Tick, horizon: int)
    ensures var steps := TickSteps(events, true, tick);
            AllCalm(steps[1..], horizon) && (SqlUp(tick, |events|) ==> !AnyUpdateFails(steps))
  {
    hide SqlUp, VisitSteps;
    var all := TickSteps(events, true, tick);
    assert all[1..] == VisitSteps(tick, |events|);
    VisitsAreWorkerOnly(tick, |events|);
    assert forall i :: 0 < i < |all| ==> all[i] == all[1..][i - 1];
  }
}
