/** What each step of a call and of the worker does to the tables and the log, field by field. */
module OutboxMeaning {
  import opened Options
  import opened Payloads
  import opened OutboxMachine
  import ChatIds

  predicate Refused(req: Request) {
    match req
    case Send(sender, recipient, content, _) => sender == "" || recipient == "" || content == ""
    case Delete(messageId, user) => messageId == "" || user == ""
    case Read(chatId, user, lastMessageId) => chatId == "" || user == "" || lastMessageId == ""
    case Alter(messageId, user, newContent) => messageId == "" || user == "" || newContent == ""
  }

  lemma {:induction false} ReceiveMeans(s: State, c: nat, req: Request)
    requires c !in s.calls
    ensures Receive(s, c, req)
            == s.(calls := s.calls[c := if Refused(req) then Done(Error(InvalidInput)) else Received(req)])
  {
  }

  /** The row a delete, read mark or edit is about, and whether the caller must be its author. */
  lemma {:induction false} LoadMeans(s: State, c: nat, ok: bool)
    requires c in s.calls && s.calls[c].Received? && !s.calls[c].req.Send?
    ensures var req := s.calls[c].req;
            var id := if req.Read? then req.lastMessageId else req.messageId;
            Load(s, c, ok) == s.(calls := s.calls[c :=
              if !ok then Done(Error(Database))
              else if id !in s.messages then Done(Error(NotFound))
              else if !req.Read? && s.messages[id].senderId != req.user then Done(Error(NotYourMessage))
              else Loaded(req, s.messages[id])])
  {
  }

  /** A send stores its row, with status 0, and both chats rows. */
  lemma {:induction false} SendCommits(s: State, c: nat, id: string, now: int)
    requires c in s.calls && s.calls[c].Received? && s.calls[c].req.Send? && id !in s.ids
    ensures var req, t := s.calls[c].req, Commit(s, c, id, now, true);
            var row := Message(id, ChatIds.ChatId(req.sender, req.recipient), req.sender, req.recipient, req.content,
                               if req.msgType == "" then "text" else req.msgType, now, 0, "", 0);
            && t.messages == s.messages[id := row]
            && t.chats == s.chats + {(req.sender, req.recipient), (req.recipient, req.sender)}
            && t.calls == s.calls[c := Committed(MessageSent(row), id)]
            && t.log == s.log && t.outbox == s.outbox
  {
  }

  /** A delete removes exactly its row. */
  lemma {:induction false} DeleteCommits(s: State, c: nat, id: string, now: int)
    requires c in s.calls && s.calls[c].Loaded? && s.calls[c].req.Delete?
    ensures var req, t := s.calls[c].req, Commit(s, c, id, now, true);
            && t.messages == s.messages - {req.messageId}
            && t.calls == s.calls[c := Committed(MessageDeleted(s.calls[c].msg), req.messageId)]
            && t.chats == s.chats && t.log == s.log && t.outbox == s.outbox
  {
  }

  /** A read mark raises to 2 the rows of its chat sent to the reader, up to the time of the marked row. */
  lemma {:induction false} ReadCommits(s: State, c: nat, id: string, now: int)
    requires c in s.calls && s.calls[c].Loaded? && s.calls[c].req.Read?
    ensures var req, t := s.calls[c].req, Commit(s, c, id, now, true);
            && t.messages.Keys == s.messages.Keys
            && (forall x :: x in s.messages ==>
                  var m := s.messages[x];
                  t.messages[x] == if m.chatId == req.chatId && m.recipientId == req.user && m.status < 2
                                      && req.lastMessageId in s.messages
                                      && m.createdAt <= s.messages[req.lastMessageId].createdAt
                                   then m.(status := 2) else m)
            && t.calls == s.calls[c := Committed(MessageRead(req.chatId, req.user, s.calls[c].msg.senderId, req.lastMessageId),
                                                 req.lastMessageId)]
            && t.chats == s.chats && t.log == s.log && t.outbox == s.outbox
  {
  }

  /** An edit replaces the content, if the row is still there; its event carries the row as it was read. */
  lemma {:induction false} AlterCommits(s: State, c: nat, id: string, now: int)
    requires c in s.calls && s.calls[c].Loaded? && s.calls[c].req.Alter?
    ensures var req, t := s.calls[c].req, Commit(s, c, id, now, true);
            && t.messages == (if req.messageId in s.messages
                              then s.messages[req.messageId := s.messages[req.messageId].(content := req.newContent)]
                              else s.messages)
            && t.calls == s.calls[c := Committed(MessageAltered(s.calls[c].msg, req.newContent), req.messageId)]
            && t.chats == s.chats && t.log == s.log && t.outbox == s.outbox
  {
  }

  /** A transaction that fails changes no table. */
  lemma {:induction false} FailedCommit(s: State, c: nat, id: string, now: int)
    requires c in s.calls && id !in s.ids
    requires (s.calls[c].Received? && s.calls[c].req.Send?) || (s.calls[c].Loaded? && !s.calls[c].req.Send?)
    ensures Commit(s, c, id, now, false) == s.(calls := s.calls[c := Done(Error(Database))])
  {
  }

  predicate Replies(event: KafkaCall, reply: Reply) {
    reply == match event
             case MessageSent(msg) => Created(msg)
             case _ => Ok
  }

  lemma {:induction false} PublishMeans(s: State, c: nat, up: bool)
    requires c in s.calls && s.calls[c].Committed?
    ensures var event, t := s.calls[c].event, Publish(s, c, up);
            && c in t.calls && t == s.(calls := s.calls[c := t.calls[c]], log := t.log)
            && (if up then t.log == s.log + [event] && t.calls[c].Done? && Replies(event, t.calls[c].reply)
                else t.log == s.log && t.calls[c] == Unpublished(event, s.calls[c].aggregateId))
  {
  }

  /** The outbox row of an event that was not published; the call succeeds whether the insert does or not. */
  lemma {:induction false} SaveMeans(s: State, c: nat, id: string, now: int, ok: bool)
    requires c in s.calls && s.calls[c].Unpublished?
    ensures var event, t := s.calls[c].event, Save(s, c, id, now, ok);
            && c in t.calls && t.calls == s.calls[c := t.calls[c]] && t.calls[c].Done? && Replies(event, t.calls[c].reply)
            && t.log == s.log && t.messages == s.messages
            && t.outbox == (if ok && id !in s.outbox
                            then s.outbox[id := Row(id, EventType(event), s.calls[c].aggregateId, Marshal(event), now, 0, None, None, Pending)]
                            else s.outbox)
  {
  }
}
