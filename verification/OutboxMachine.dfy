/**
 * The message service and its outbox worker as one machine: each SQL statement (or transaction) and
 * each Kafka publish is one atomic step, and steps of any number of calls and of the one worker interleave.
 */
module OutboxMachine {
  import opened Options
  import opened Payloads
  import ChatIds
  import ReadMarks

  const MAX_RETRIES := 5
  const BATCH := 100

  // ---- Tables and calls ----

  datatype RowStatus = Pending | Completed | Failed

  datatype Row = Row(
    id: string, eventType: string, aggregateId: string, payload: Json, createdAt: int,
    retryCount: nat, lastError: Option<string>, processedAt: Option<int>, status: RowStatus)

  type Table = map<string, Row>

  datatype Request =
    | Send(sender: string, recipient: string, content: string, msgType: string)
    | Delete(messageId: string, user: string)
    | Read(chatId: string, user: string, lastMessageId: string)
    | Alter(messageId: string, user: string, newContent: string)

  datatype Failure = InvalidInput | NotFound | NotYourMessage | Database

  datatype Reply = Created(msg: Message) | Ok | Error(failure: Failure)

  /** Where a service call stands. */
  datatype Phase =
    | Received(req: Request)
    | Loaded(req: Request, msg: Message)
    | Committed(event: KafkaCall, aggregateId: string)
    | Unpublished(event: KafkaCall, aggregateId: string)
    | Done(reply: Reply)

  datatype Outcome = Sent | Refused

  /** The worker holds local copies of the rows of its batch. */
  datatype Worker =
    | Idle
    | Ready(todo: seq<Row>)
    | Marking(row: Row, outcome: Outcome, todo: seq<Row>)

  /** How often the worker published a row, and how often the publish failed. */
  datatype Tries = Tries(sent: nat, refused: nat)

  datatype State = State(
    messages: map<string, Message>, chats: set<(string, string)>, calls: map<nat, Phase>,
    log: seq<KafkaCall>, outbox: Table, worker: Worker,
    // History, read by no statement:
    ids: set<string>,              // message ids ever used
    applied: multiset<KafkaCall>,  // events of the calls that changed the database
    lost: multiset<KafkaCall>,     // publish failed and the outbox insert failed too
    resent: multiset<KafkaCall>,   // published by the worker, but the row could not be marked
    tries: map<string, Tries>)

  const INIT := State(map[], {}, map[], [], map[], Idle, {}, multiset{}, multiset{}, multiset{}, map[])

  // ---- The four mutating calls ----

  predicate Valid(req: Request) {
    match req
    case Send(sender, recipient, content, _) => sender != "" && recipient != "" && content != ""
    case Delete(messageId, user) => messageId != "" && user != ""
    case Read(chatId, user, lastMessageId) => chatId != "" && user != "" && lastMessageId != ""
    case Alter(messageId, user, newContent) => messageId != "" && user != "" && newContent != ""
  }

  function Receive(s: State, c: nat, req: Request): (r: State)
    ensures r.messages == s.messages && r.chats == s.chats && r.ids == s.ids && r.outbox == s.outbox
    ensures r.lost == s.lost && r.resent == s.resent
  {
    if c in s.calls then s
    else s.(calls := s.calls[c := if Valid(req) then Received(req) else Done(Error(InvalidInput))])
  }

  function Target(req: Request): string {
    match req
    case Send(_, _, _, _) => ""
    case Delete(messageId, _) => messageId
    case Read(_, _, lastMessageId) => lastMessageId
    case Alter(messageId, _, _) => messageId
  }

  predicate MayTouch(req: Request, msg: Message) {
    (req.Delete? || req.Alter?) ==> msg.senderId == req.user
  }

  /** GetByID, and the ownership check made on its result. */
  function Load(s: State, c: nat, ok: bool): (r: State)
    ensures r.messages == s.messages && r.chats == s.chats && r.ids == s.ids && r.outbox == s.outbox
    ensures r.lost == s.lost && r.resent == s.resent
  {
    if !(c in s.calls && s.calls[c].Received? && !s.calls[c].req.Send?) then s
    else
      var req := s.calls[c].req;
      s.(calls := s.calls[c :=
        if !ok then Done(Error(Database))
        else if Target(req) !in s.messages then Done(Error(NotFound))
        else if !MayTouch(req, s.messages[Target(req)]) then Done(Error(NotYourMessage))
        else Loaded(req, s.messages[Target(req)])])
  }

  function NewMessage(req: Request, id: string, now: int): Message
    requires req.Send?
  {
    Message(id, ChatIds.ChatId(req.sender, req.recipient), req.sender, req.recipient, req.content,
            if req.msgType == "" then "text" else req.msgType, now, 0, "", 0)
  }

  function Changed(messages: map<string, Message>, req: Request): map<string, Message>
    requires !req.Send?
  {
    match req
    case Delete(messageId, _) => messages - {messageId}
    case Read(chatId, user, lastMessageId) => ReadMarks.MarkRead(messages, chatId, user, lastMessageId)
    case Alter(messageId, _, newContent) =>
      if messageId in messages then messages[messageId := messages[messageId].(content := newContent)]
      else messages
  }

  function EventOf(req: Request, msg: Message): KafkaCall {
    match req
    case Send(_, _, _, _) => MessageSent(msg)
    case Delete(_, _) => MessageDeleted(msg)
    case Read(chatId, user, lastMessageId) => MessageRead(chatId, user, msg.senderId, lastMessageId)
    case Alter(_, _, newContent) => MessageAltered(msg, newContent)
  }

  /** The transaction of CreateWithChats. A fresh uuid is never a used one. */
  function CommitSend(s: State, c: nat, id: string, now: int, ok: bool): State
    requires c in s.calls && s.calls[c].Received? && s.calls[c].req.Send?
  {
    var req := s.calls[c].req;
    var msg := NewMessage(req, id, now);
    if id in s.ids then s
    else if !ok then s.(calls := s.calls[c := Done(Error(Database))])
    else s.(messages := s.messages[id := msg],
            chats := s.chats + {(req.sender, req.recipient), (req.recipient, req.sender)},
            calls := s.calls[c := Committed(MessageSent(msg), id)],
            ids := s.ids + {id},
            applied := s.applied + multiset{MessageSent(msg)})
  }

  /** The DELETE or UPDATE of the other three calls. */
  function CommitLoaded(s: State, c: nat, ok: bool): State
    requires c in s.calls && s.calls[c].Loaded?
  {
    var req, msg := s.calls[c].req, s.calls[c].msg;
    if req.Send? then s
    else if !ok then s.(calls := s.calls[c := Done(Error(Database))])
    else s.(messages := Changed(s.messages, req),
            calls := s.calls[c := Committed(EventOf(req, msg), Target(req))],
            applied := s.applied + multiset{EventOf(req, msg)})
  }

  function Commit(s: State, c: nat, id: string, now: int, ok: bool): (r: State)
    ensures r.outbox == s.outbox
    ensures r.lost == s.lost && r.resent == s.resent
  {
    if c !in s.calls then s
    else if s.calls[c].Received? && s.calls[c].req.Send? then CommitSend(s, c, id, now, ok)
    else if s.calls[c].Loaded? then CommitLoaded(s, c, ok)
    else s
  }

  function ReplyTo(event: KafkaCall): Reply {
    if event.MessageSent? then Created(event.msg) else Ok
  }

  function Publish(s: State, c: nat, up: bool): (r: State)
    ensures r.messages == s.messages && r.chats == s.chats && r.ids == s.ids && r.outbox == s.outbox
    ensures r.lost == s.lost && r.resent == s.resent
  {
    if !(c in s.calls && s.calls[c].Committed?) then s
    else
      var event := s.calls[c].event;
      if up then s.(log := s.log + [event], calls := s.calls[c := Done(ReplyTo(event))])
      else s.(calls := s.calls[c := Unpublished(event, s.calls[c].aggregateId)])
  }

  function NewRow(event: KafkaCall, aggregateId: string, id: string, now: int): Row {
    Row(id, EventType(event), aggregateId, Marshal(event), now, 0, None, None, Pending)
  }

  /** SaveToOutbox: the insert fails when the database does or when the primary key is taken. */
  function Save(s: State, c: nat, id: string, now: int, ok: bool): (r: State)
    ensures r.messages == s.messages && r.chats == s.chats && r.ids == s.ids
  {
    if !(c in s.calls && s.calls[c].Unpublished?) then s
    else
      var event := s.calls[c].event;
      var calls := s.calls[c := Done(ReplyTo(event))];
      if ok && id !in s.outbox
      then s.(calls := calls, outbox := s.outbox[id := NewRow(event, s.calls[c].aggregateId, id, now)],
              tries := s.tries[id := Tries(0, 0)])
      else s.(calls := calls, lost := s.lost + multiset{event})
  }

  // ---- The worker ----

  ghost predicate HasId(batch: seq<Row>, id: string) {
    exists i :: 0 <= i < |batch| && batch[i].id == id
  }

  ghost predicate Distinct(batch: seq<Row>) {
    forall i, j :: 0 <= i < j < |batch| ==> batch[i].id != batch[j].id
  }

  /** A possible answer of GetPendingEvents: the oldest pending rows, ties broken in any way. */
  ghost predicate IsBatch(t: Table, batch: seq<Row>, limit: nat) {
    && |batch| <= limit
    && Distinct(batch)
    && (forall i :: 0 <= i < |batch| ==>
          batch[i].id in t && t[batch[i].id] == batch[i] && batch[i].status == Pending)
    && (forall i, j :: 0 <= i < j < |batch| ==> batch[i].createdAt <= batch[j].createdAt)
    && (forall id :: id in t && t[id].status == Pending && !HasId(batch, id) ==>
          |batch| == limit && forall i :: 0 <= i < |batch| ==> batch[i].createdAt <= t[id].createdAt)
  }

  function Continue(todo: seq<Row>): Worker {
    if todo == [] then Idle else Ready(todo)
  }

  /** A tick of the worker reads its batch. */
  ghost function Fetch(s: State, batch: seq<Row>, ok: bool): (r: State)
    ensures r.messages == s.messages && r.chats == s.chats && r.ids == s.ids && r.outbox == s.outbox
    ensures r.lost == s.lost && r.resent == s.resent
  {
    if !ok || !s.worker.Idle? || !IsBatch(s.outbox, batch, BATCH) then s
    else s.(worker := Continue(batch))
  }

  /** publishEvent on the head of the batch. */
  function Attempt(s: State, up: bool): (r: State)
    ensures r.messages == s.messages && r.chats == s.chats && r.ids == s.ids && r.outbox == s.outbox
    ensures r.lost == s.lost && r.resent == s.resent
  {
    if !s.worker.Ready? || s.worker.todo == [] || s.worker.todo[0].retryCount >= MAX_RETRIES then s
    else
      var row, rest := s.worker.todo[0], s.worker.todo[1..];
      var known := if row.id in s.tries then s.tries[row.id] else Tries(0, 0);
      match Decode(row.eventType, row.payload)
      case Call(event) =>
        if up then s.(log := s.log + [event], worker := Marking(row, Sent, rest),
                      tries := s.tries[row.id := known.(sent := known.sent + 1)])
        else s.(worker := Marking(row, Refused, rest), tries := s.tries[row.id := known.(refused := known.refused + 1)])
      case Malformed => s.(worker := Marking(row, Refused, rest), tries := s.tries[row.id := known.(refused := known.refused + 1)])
      case Ignored => s.(worker := Marking(row, Sent, rest))
  }

  function Fail(row: Row): Row {
    row.(status := Failed, lastError := Some("max retries exceeded"))
  }

  function Complete(row: Row, now: int): Row {
    row.(status := Completed, processedAt := Some(now))
  }

  function Retry(row: Row): Row {
    row.(retryCount := row.retryCount + 1)
  }

  /** The UPDATE by primary key; it reports no error when the row is missing. */
  function Put(t: Table, id: string, change: Row --> Row): Table
    requires id in t ==> change.requires(t[id])
  {
    if id in t then t[id := change(t[id])] else t
  }

  /** The worker's UPDATE for the row in hand; its error is ignored. */
  function Update(s: State, now: int, ok: bool): (r: State)
    ensures r.messages == s.messages && r.chats == s.chats && r.ids == s.ids
  {
    if s.worker.Ready? && s.worker.todo != [] && s.worker.todo[0].retryCount >= MAX_RETRIES then
      var row, rest := s.worker.todo[0], s.worker.todo[1..];
      s.(outbox := if ok then Put(s.outbox, row.id, Fail) else s.outbox, worker := Continue(rest))
    else if s.worker.Marking? then
      var row, rest := s.worker.row, s.worker.todo;
      if s.worker.outcome == Refused then
        s.(outbox := if ok then Put(s.outbox, row.id, Retry) else s.outbox, worker := Continue(rest))
      else if ok then
        s.(outbox := Put(s.outbox, row.id, r => Complete(r, now)), worker := Continue(rest))
      else
        var d := Decode(row.eventType, row.payload);
        s.(worker := Continue(rest), resent := if d.Call? then s.resent + multiset{d.call} else s.resent)
    else s
  }

  // ---- Runs ----

  datatype Step =
    | StepReceive(c: nat, req: Request)
    | StepLoad(c: nat, ok: bool)
    | StepCommit(c: nat, id: string, now: int, ok: bool)
    | StepPublish(c: nat, up: bool)
    | StepSave(c: nat, id: string, now: int, ok: bool)
    | StepFetch(batch: seq<Row>, ok: bool)
    | StepAttempt(up: bool)
    | StepUpdate(now: int, ok: bool)

  /** One step; a step that is not enabled changes nothing. */
  ghost function Apply(s: State, step: Step): State {
    match step
    case StepReceive(c, req) => Receive(s, c, req)
    case StepLoad(c, ok) => Load(s, c, ok)
    case StepCommit(c, id, now, ok) => Commit(s, c, id, now, ok)
    case StepPublish(c, up) => Publish(s, c, up)
    case StepSave(c, id, now, ok) => Save(s, c, id, now, ok)
    case StepFetch(batch, ok) => Fetch(s, batch, ok)
    case StepAttempt(up) => Attempt(s, up)
    case StepUpdate(now, ok) => Update(s, now, ok)
  }

  ghost function Run(s: State, steps: seq<Step>): State
    decreases |steps|
  {
    if steps == [] then s else Run(Apply(s, steps[0]), steps[1..])
  }

  lemma {:induction false} RunConcat(s: State, a: seq<Step>, b: seq<Step>)
    ensures Run(s, a + b) == Run(Run(s, a), b)
    decreases |a|
  {
    if a == [] {
      assert a + b == b;
    } else {
      assert (a + b)[0] == a[0] && (a + b)[1..] == a[1..] + b;
      RunConcat(Apply(s, a[0]), a[1..], b);
    }
  }
}
