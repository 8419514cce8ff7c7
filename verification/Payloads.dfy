/** Outbox payloads: what the service marshals and what the worker makes of it. */
module Payloads {
  import opened Options

  /** service/models.go: one row of the messages table. Status is 0 sent, 1 delivered, 2 read. */
  datatype Message = Message(
    id: string, chatId: string, senderId: string, recipientId: string,
    content: string, messageType: string, createdAt: int, status: int,
    groupId: string, keyVersion: int)

  /** A call on the KafkaProducer interface, with its arguments. */
  datatype KafkaCall =
    | MessageSent(msg: Message)
    | MessageDeleted(msg: Message)
    | MessageAltered(msg: Message, newContent: string)
    | MessageRead(chatId: string, readerId: string, senderId: string, lastMessageId: string)

  /** JSON values as the JSONB column keeps them: the order of an object's keys is not significant. */
  datatype Json =
    | Text(text: string)
    | Number(number: int)
    | Object(fields: map<string, Json>)

  const MESSAGE_SENT := "message_sent"
  const MESSAGE_DELETED := "message_deleted"
  const MESSAGE_ALTERED := "message_altered"
  const MESSAGE_READ := "message_read"

  // ---- Marshalling, in the service ----

  function EventType(c: KafkaCall): string {
    match c
    case MessageSent(_) => MESSAGE_SENT
    case MessageDeleted(_) => MESSAGE_DELETED
    case MessageAltered(_, _) => MESSAGE_ALTERED
    case MessageRead(_, _, _, _) => MESSAGE_READ
  }

  function MarshalMessage(m: Message): Json {
    Object(map[
      "ID" := Text(m.id), "ChatID" := Text(m.chatId),
      "SenderID" := Text(m.senderId), "RecipientID" := Text(m.recipientId),
      "EncryptedContent" := Text(m.content), "MessageType" := Text(m.messageType),
      "CreatedAt" := Number(m.createdAt), "Status" := Number(m.status),
      "GroupID" := Text(m.groupId), "KeyVersion" := Number(m.keyVersion)])
  }

  function Marshal(c: KafkaCall): Json {
    match c
    case MessageSent(m) => MarshalMessage(m)
    case MessageDeleted(m) => MarshalMessage(m)
    case MessageAltered(m, newContent) =>
      Object(map["message" := MarshalMessage(m), "new_content" := Text(newContent)])
    case MessageRead(chatId, readerId, senderId, lastMessageId) =>
      Object(map["chat_id" := Text(chatId), "user_id" := Text(readerId),
                 "sender_id" := Text(senderId), "last_message_id" := Text(lastMessageId)])
  }

  // ---- Unmarshalling, in the worker ----

  /** A string field: absent means "", another kind of value is an error. */
  function TextField(fields: map<string, Json>, key: string): Option<string> {
    if key !in fields then Some("")
    else if fields[key].Text? then Some(fields[key].text)
    else None
  }

  function NumberField(fields: map<string, Json>, key: string): Option<int> {
    if key !in fields then Some(0)
    else if fields[key].Number? then Some(fields[key].number)
    else None
  }

  function UnmarshalMessage(j: Json): Option<Message> {
    if !j.Object? then None
    else
      var f := j.fields;
      var id, chat := TextField(f, "ID"), TextField(f, "ChatID");
      var sender, recipient := TextField(f, "SenderID"), TextField(f, "RecipientID");
      var content, kind := TextField(f, "EncryptedContent"), TextField(f, "MessageType");
      var created, status := NumberField(f, "CreatedAt"), NumberField(f, "Status");
      var group, version := TextField(f, "GroupID"), NumberField(f, "KeyVersion");
      if id.None? || chat.None? || sender.None? || recipient.None? || content.None? || kind.None?
         || created.None? || status.None? || group.None? || version.None?
      then None
      else Some(Message(id.value, chat.value, sender.value, recipient.value, content.value,
                        kind.value, created.value, status.value, group.value, version.value))
  }

  /** What publishEvent does with a row: call Kafka, report an error, or do nothing and report success. */
  datatype Dispatch = Call(call: KafkaCall) | Malformed | Ignored

  /** worker.go publishEvent: dispatch on the event type, decoding the payload. */
  function Decode(eventType: string, payload: Json): Dispatch {
    if eventType == MESSAGE_SENT then
      var m := UnmarshalMessage(payload);
      if m.None? then Malformed else Call(MessageSent(m.value))
    else if eventType == MESSAGE_DELETED then
      var m := UnmarshalMessage(payload);
      if m.None? then Malformed else Call(MessageDeleted(m.value))
    else if eventType == MESSAGE_ALTERED then
      if !payload.Object? then Malformed
      else
        var m := if "message" in payload.fields then UnmarshalMessage(payload.fields["message"])
                 else Some(Message("", "", "", "", "", "", 0, 0, "", 0));
        var newContent := TextField(payload.fields, "new_content");
        if m.None? || newContent.None? then Malformed
        else Call(MessageAltered(m.value, newContent.value))
    else if eventType == MESSAGE_READ then
      if !payload.Object? || exists k :: k in payload.fields && !payload.fields[k].Text? then Malformed
      else
        Call(MessageRead(TextField(payload.fields, "chat_id").value, TextField(payload.fields, "user_id").value,
                         TextField(payload.fields, "sender_id").value,
                         TextField(payload.fields, "last_message_id").value))
    else
      Ignored
  }

  /** What publishEvent makes of rows the service does not write. */
  lemma {:induction false} OddPayloads(eventType: string, payload: Json)
    ensures eventType !in ["message_sent", "message_deleted", "message_altered", "message_read"] ==>
              Decode(eventType, payload) == Ignored
    ensures !payload.Object? && eventType in ["message_sent", "message_deleted", "message_altered", "message_read"] ==>
              Decode(eventType, payload) == Malformed
    ensures Decode("message_sent", Object(map[])) == Call(MessageSent(Message("", "", "", "", "", "", 0, 0, "", 0)))
  {
  }

  lemma {:induction false} MessageRoundTrip(m: Message)
    ensures UnmarshalMessage(MarshalMessage(m)) == Some(m)
  {
    var f := MarshalMessage(m).fields;
    assert TextField(f, "ID") == Some(m.id) && TextField(f, "ChatID") == Some(m.chatId);
    assert TextField(f, "SenderID") == Some(m.senderId) && TextField(f, "RecipientID") == Some(m.recipientId);
    assert TextField(f, "EncryptedContent") == Some(m.content) && TextField(f, "MessageType") == Some(m.messageType);
    assert NumberField(f, "CreatedAt") == Some(m.createdAt) && NumberField(f, "Status") == Some(m.status);
    assert TextField(f, "GroupID") == Some(m.groupId) && NumberField(f, "KeyVersion") == Some(m.keyVersion);
  }

  /**
   * A retry is the original call: for each of the four kinds of event, the worker decodes the stored
   * row into the very KafkaProducer call, arguments included, that the service had tried.
   */
  lemma {:induction false} RetryIsOriginal(c: KafkaCall)
    ensures Decode(EventType(c), Marshal(c)) == Call(c)
  {
    match c
    case MessageSent(m) => MessageRoundTrip(m);
    case MessageDeleted(m) => MessageRoundTrip(m);
    case MessageAltered(m, _) => MessageRoundTrip(m);
    case MessageRead(chatId, readerId, senderId, lastMessageId) =>
      var f := Marshal(c).fields;
      assert f.Keys == {"chat_id", "user_id", "sender_id", "last_message_id"};
      assert TextField(f, "chat_id") == Some(chatId) && TextField(f, "user_id") == Some(readerId);
      assert TextField(f, "sender_id") == Some(senderId) && TextField(f, "last_message_id") == Some(lastMessageId);
  }
}
