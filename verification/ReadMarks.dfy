/** UpdateStatusBatch and the read flags the author's client derives from a message_read event. */
module ReadMarks {
  import opened Payloads

  const READ := 2

  type Messages = map<string, Message>

  /** The WHERE clause of UpdateStatusBatch: a missing cutoff row makes the comparison NULL. */
  predicate Covered(messages: Messages, m: Message, chatId: string, reader: string, lastId: string, status: int) {
    && m.chatId == chatId
    && m.recipientId == reader
    && lastId in messages
    && m.createdAt <= messages[lastId].createdAt
    && m.status < status
  }

  function UpdateStatus(messages: Messages, chatId: string, reader: string, lastId: string, status: int): (r: Messages)
    ensures r.Keys == messages.Keys
  {
    map id | id in messages ::
      if Covered(messages, messages[id], chatId, reader, lastId, status)
      then messages[id].(status := status) else messages[id]
  }

  function MarkRead(messages: Messages, chatId: string, reader: string, lastId: string): (r: Messages)
    ensures r.Keys == messages.Keys
  {
    UpdateStatus(messages, chatId, reader, lastId, READ)
  }

  /** One reader marking a chat over and over. */
  function MarkAll(messages: Messages, chatId: string, reader: string, cutoffs: seq<string>): (r: Messages)
    ensures r.Keys == messages.Keys
    decreases |cutoffs|
  {
    if cutoffs == [] then messages
    else MarkAll(MarkRead(messages, chatId, reader, cutoffs[0]), chatId, reader, cutoffs[1..])
  }

  /** Row by row: read up to the latest of the cutoffs that name a row, everything else untouched. */
  ghost predicate MarkedUpTo(before: Messages, after: Messages, chatId: string, reader: string, cutoffs: seq<string>) {
    && after.Keys == before.Keys
    && forall id :: id in before ==>
         after[id] == (if exists c :: c in cutoffs && Covered(before, before[id], chatId, reader, c, READ)
                       then before[id].(status := READ) else before[id])
  }

  lemma {:induction false} MarkAllMeans(messages: Messages, chatId: string, reader: string, cutoffs: seq<string>)
    ensures MarkedUpTo(messages, MarkAll(messages, chatId, reader, cutoffs), chatId, reader, cutoffs)
    decreases |cutoffs|
  {
    if cutoffs != [] {
      var mid := MarkRead(messages, chatId, reader, cutoffs[0]);
      MarkAllMeans(mid, chatId, reader, cutoffs[1..]);
      var after := MarkAll(messages, chatId, reader, cutoffs);
      forall id | id in messages
        ensures after[id] == (if exists c :: c in cutoffs && Covered(messages, messages[id], chatId, reader, c, READ)
                              then messages[id].(status := READ) else messages[id])
      {
        OneMark(messages, mid, chatId, reader, cutoffs, id);
      }
    }
  }

  lemma {:induction false} OneMark(messages: Messages, mid: Messages, chatId: string, reader: string, cutoffs: seq<string>, id: string)
    requires cutoffs != [] && id in messages && mid == MarkRead(messages, chatId, reader, cutoffs[0])
    ensures (exists c :: c in cutoffs && Covered(messages, messages[id], chatId, reader, c, READ)) <==>
            Covered(messages, messages[id], chatId, reader, cutoffs[0], READ)
            || (exists c :: c in cutoffs[1..] && Covered(mid, mid[id], chatId, reader, c, READ))
  {
    assert forall c :: c in mid ==> mid[c].createdAt == messages[c].createdAt;
    forall c | c in cutoffs && Covered(messages, messages[id], chatId, reader, c, READ)
      ensures Covered(messages, messages[id], chatId, reader, cutoffs[0], READ)
              || (c in cutoffs[1..] && Covered(mid, mid[id], chatId, reader, c, READ))
    {
      assert cutoffs == [cutoffs[0]] + cutoffs[1..];
    }
    forall c | c in cutoffs[1..] && Covered(mid, mid[id], chatId, reader, c, READ)
      ensures c in cutoffs && Covered(messages, messages[id], chatId, reader, c, READ)
    {
    }
    assert cutoffs[0] in cutoffs;
  }

  /** The cutoff whose row is the latest. */
  ghost predicate IsLatest(messages: Messages, cutoffs: seq<string>, last: string) {
    && last in cutoffs && last in messages
    && forall c :: c in cutoffs && c in messages ==> messages[c].createdAt <= messages[last].createdAt
  }

  /** Any sequence of marks by one reader in one chat equals a single mark at the latest cutoff. */
  lemma {:induction false} MarksCollapse(messages: Messages, chatId: string, reader: string, cutoffs: seq<string>, last: string)
    requires IsLatest(messages, cutoffs, last)
    ensures MarkAll(messages, chatId, reader, cutoffs) == MarkRead(messages, chatId, reader, last)
  {
    MarkAllMeans(messages, chatId, reader, cutoffs);
    var once := MarkRead(messages, chatId, reader, last);
    var all := MarkAll(messages, chatId, reader, cutoffs);
    forall id | id in messages
      ensures all[id] == once[id]
    {
      if Covered(messages, messages[id], chatId, reader, last, READ) {
        assert last in cutoffs;
      }
    }
  }

  // ---- The author's client ----

  /** The part of a DecryptedMessage the message_read handler looks at. */
  datatype Shown = Shown(id: string, senderId: string, read: bool)

  /** findIndex: the first position showing the id, or |list|. */
  function IndexOf(list: seq<Shown>, id: string): (k: nat)
    ensures k <= |list|
    ensures k < |list| ==> list[k].id == id
    ensures forall j :: 0 <= j < k ==> list[j].id != id
  {
    if list == [] then 0
    else if list[0].id == id then 0
    else 1 + IndexOf(list[1..], id)
  }

  /** ChatWindow.tsx, message_read: our messages up to the marked one become read. */
  function ApplyReadEvent(list: seq<Shown>, companion: string, lastId: string): (r: seq<Shown>)
    ensures |r| == |list|
  {
    var k := IndexOf(list, lastId);
    if k == |list| then list
    else seq(|list|, i requires 0 <= i < |list| =>
               if i <= k && list[i].senderId != companion then list[i].(read := true) else list[i])
  }

  /** Exactly our messages up to the marked one become read; no other flag changes. */
  lemma {:induction false} ReadEventMeans(list: seq<Shown>, companion: string, lastId: string, k: nat)
    requires k < |list| && list[k].id == lastId && forall j :: 0 <= j < k ==> list[j].id != lastId
    ensures forall i :: 0 <= i < |list| ==>
              ApplyReadEvent(list, companion, lastId)[i]
              == Shown(list[i].id, list[i].senderId, list[i].read || (i <= k && list[i].senderId != companion))
  {
    var n := IndexOf(list, lastId);
    assert n == k;
  }

  /** The list shows rows of one direct chat, oldest first, with distinct times. */
  ghost predicate ShowsChat(messages: Messages, list: seq<Shown>, chatId: string, author: string, companion: string) {
    && author != companion
    && (forall i :: 0 <= i < |list| ==>
          && list[i].id in messages
          && messages[list[i].id].chatId == chatId
          && messages[list[i].id].senderId == list[i].senderId
          && {list[i].senderId, messages[list[i].id].recipientId} == {author, companion})
    && (forall i, j :: 0 <= i < j < |list| ==> messages[list[i].id].createdAt < messages[list[j].id].createdAt)
  }

  /** The flags of the author's own messages are the server's. */
  ghost predicate FlagsAgree(messages: Messages, list: seq<Shown>, companion: string) {
    forall i :: 0 <= i < |list| && list[i].senderId != companion && list[i].id in messages ==>
      (list[i].read <==> messages[list[i].id].status >= READ)
  }

  /** After a read event whose message is loaded, the author's flags are the server's flags again. */
  lemma {:induction false} ReadEventAgrees(messages: Messages, list: seq<Shown>, chatId: string,
                                           author: string, companion: string, lastId: string)
    requires ShowsChat(messages, list, chatId, author, companion)
    requires FlagsAgree(messages, list, companion)
    requires IndexOf(list, lastId) < |list|
    ensures FlagsAgree(MarkRead(messages, chatId, companion, lastId),
                       ApplyReadEvent(list, companion, lastId), companion)
  {
    var k := IndexOf(list, lastId);
    var after, shown := MarkRead(messages, chatId, companion, lastId), ApplyReadEvent(list, companion, lastId);
    forall i | 0 <= i < |shown| && shown[i].senderId != companion && shown[i].id in after
      ensures shown[i].read <==> after[shown[i].id].status >= READ
    {
      var m := messages[list[i].id];
      assert m.recipientId == companion by {
        assert companion in {list[i].senderId, m.recipientId};
      }
      assert i <= k <==> m.createdAt <= messages[lastId].createdAt;
    }
  }

  /** When the marked message is not loaded, the client keeps its flags: they may now lag the server. */
  lemma {:induction false} UnloadedMarkLags(messages: Messages, list: seq<Shown>, chatId: string,
                                            author: string, companion: string, lastId: string)
    requires ShowsChat(messages, list, chatId, author, companion)
    requires FlagsAgree(messages, list, companion)
    requires IndexOf(list, lastId) == |list|
    ensures FlagsAgree(MarkRead(messages, chatId, companion, lastId),
                       ApplyReadEvent(list, companion, lastId), companion)
            <==> forall i :: 0 <= i < |list| && list[i].senderId != companion && !list[i].read ==>
                   lastId !in messages || messages[list[i].id].createdAt > messages[lastId].createdAt
  {
    var after := MarkRead(messages, chatId, companion, lastId);
    forall i | 0 <= i < |list| && list[i].senderId != companion
      ensures (list[i].read <==> after[list[i].id].status >= READ) <==>
              (list[i].read || lastId !in messages || messages[list[i].id].createdAt > messages[lastId].createdAt)
    {
      var m := messages[list[i].id];
      assert m.recipientId == companion by {
        assert companion in {list[i].senderId, m.recipientId};
      }
    }
  }
}
