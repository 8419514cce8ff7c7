/**
 * Changing the password: the client re-encrypts every chat key under the new private key, the saga changes
 * the account and then the chat rows, the latter in one transaction.
 */
module Rekeying {
  import opened Options
  import opened ChatKeys
  import Codec

  datatype User = User(id: string, authHash: string, publicKey: string)

  /** encrypted_key and key_iv of a chats row; NULL is None. */
  datatype ChatRow = ChatRow(encryptedKey: Option<string>, keyIv: Option<string>)

  /** Rows by user_id and companion_id. */
  type Chats = map<(string, string), ChatRow>

  datatype KeyUpdate = KeyUpdate(companionId: string, encryptedKey: string, keyIv: string)

  /** A chat as GetChats lists it: COALESCE turns NULL into the empty text. */
  datatype Chat = Chat(companionId: string, encryptedKey: string)

  function Coalesce(text: Option<string>): (s: string)
    ensures text.None? ==> s == ""
    ensures text.Some? ==> text == Some(s)
  {
    match text
    case None => ""
    case Some(s) => s
  }

  // ---- The transaction ----

  function Set1(chats: Chats, userId: string, key: KeyUpdate): Chats {
    if (userId, key.companionId) in chats
    then chats[(userId, key.companionId) := ChatRow(Some(key.encryptedKey), Some(key.keyIv))]
    else chats
  }

  function Rekeyed(chats: Chats, userId: string, keys: seq<KeyUpdate>): (r: Chats)
    ensures r.Keys == chats.Keys
  {
    if keys == [] then chats else Set1(Rekeyed(chats, userId, keys[..|keys| - 1]), userId, keys[|keys| - 1])
  }

  function RowsHit(chats: Chats, userId: string, keys: seq<KeyUpdate>): (n: nat)
    ensures n <= |keys|
  {
    if keys == [] then 0
    else RowsHit(chats, userId, keys[..|keys| - 1]) + if (userId, keys[|keys| - 1].companionId) in chats then 1 else 0
  }

  ghost predicate IsLast(keys: seq<KeyUpdate>, i: nat) {
    i < |keys| && forall j :: i < j < |keys| ==> keys[j].companionId != keys[i].companionId
  }

  /** No companion is named twice. */
  ghost predicate AllLast(keys: seq<KeyUpdate>) {
    forall i :: 0 <= i < |keys| ==> IsLast(keys, i)
  }

  lemma {:induction false} RowUntouched(chats: Chats, userId: string, keys: seq<KeyUpdate>, at: (string, string))
    requires at in chats && (at.0 != userId || forall k :: k in keys ==> k.companionId != at.1)
    ensures Rekeyed(chats, userId, keys)[at] == chats[at]
    decreases |keys|
  {
    if keys != [] {
      var front, last := keys[..|keys| - 1], keys[|keys| - 1];
      assert last in keys;
      RowUntouched(chats, userId, front, at);
    }
  }

  /** The last update of a companion wins. */
  lemma {:induction false} LastUpdateWins(chats: Chats, userId: string, keys: seq<KeyUpdate>, i: nat)
    requires IsLast(keys, i) && (userId, keys[i].companionId) in chats
    ensures Rekeyed(chats, userId, keys)[(userId, keys[i].companionId)] == ChatRow(Some(keys[i].encryptedKey), Some(keys[i].keyIv))
    decreases |keys|
  {
    var n := |keys| - 1;
    if i < n {
      assert keys[n].companionId != keys[i].companionId;
      LastUpdateWins(chats, userId, keys[..n], i);
    }
  }

  // ---- The client's loop ----

  /** What the loop pushes for one chat: nothing when the key cannot be decrypted or encrypted again. */
  function ReEncrypted(aead: Aead, chat: Chat, oldKey: Bytes, newKey: Bytes, nonce: Bytes): seq<KeyUpdate> {
    match Unwrapped(aead, chat.encryptedKey, oldKey)
    case None => []
    case Some(chatKey) =>
      match Wrapped(aead, chatKey, newKey, nonce)
      case None => []
      case Some(ciphertext) => [KeyUpdate(chat.companionId, ciphertext, "")]
  }

  function Updates(aead: Aead, chats: seq<Chat>, oldKey: Bytes, newKey: Bytes, nonces: seq<Bytes>): seq<KeyUpdate>
    requires |nonces| == |chats|
  {
    if chats == [] then []
    else
      var n := |chats| - 1;
      Updates(aead, chats[..n], oldKey, newKey, nonces[..n]) + ReEncrypted(aead, chats[n], oldKey, newKey, nonces[n])
  }

  method ReEncryptChatKeys(aead: Aead, chats: seq<Chat>, oldKey: Bytes, newKey: Bytes, nonces: seq<Bytes>)
    returns (chatKeys: seq<KeyUpdate>)
    requires |nonces| == |chats|
    ensures chatKeys == Updates(aead, chats, oldKey, newKey, nonces)
  {
    chatKeys := [];
    for i := 0 to |chats|
      invariant chatKeys == Updates(aead, chats[..i], oldKey, newKey, nonces[..i])
    {
      assert chats[..i + 1][..i] == chats[..i] && nonces[..i + 1][..i] == nonces[..i];
      var chatKey := DecryptChatKeyWithPrivateKey(aead, chats[i].encryptedKey, oldKey);
      if chatKey.Some? {
        var ciphertext := EncryptChatKeyWithPrivateKey(aead, chatKey.value, newKey, nonces[i]);
        if ciphertext.Some? {
          chatKeys := chatKeys + [KeyUpdate(chats[i].companionId, ciphertext.value, "")];
        }
      }
    }
    assert chats[..|chats|] == chats && nonces[..|chats|] == nonces;
  }

  predicate TwelveByteNonces(nonces: seq<Bytes>) {
    forall i :: 0 <= i < |nonces| ==> |nonces[i]| == NONCE_BYTES
  }

  ghost predicate DistinctCompanions(chats: seq<Chat>) {
    forall i, j :: 0 <= i < j < |chats| ==> chats[i].companionId != chats[j].companionId
  }

  ghost predicate MayDecrypt(aead: Aead, chat: Chat, oldKey: Bytes) {
    Unwrapped(aead, chat.encryptedKey, oldKey).Some?
  }

  ghost function Decryptable(aead: Aead, chats: seq<Chat>, oldKey: Bytes): nat {
    if chats == [] then 0
    else Decryptable(aead, chats[..|chats| - 1], oldKey) + if MayDecrypt(aead, chats[|chats| - 1], oldKey) then 1 else 0
  }

  /** An update opens under the new key to what its chat opened to under the old one. */
  ghost predicate Carries(aead: Aead, key: KeyUpdate, chat: Chat, oldKey: Bytes, newKey: Bytes) {
    && key.companionId == chat.companionId && key.keyIv == ""
    && MayDecrypt(aead, chat, oldKey)
    && Unwrapped(aead, key.encryptedKey, newKey) == Unwrapped(aead, chat.encryptedKey, oldKey)
  }

  lemma {:induction false} ReEncryptedCarries(aead: Aead, chat: Chat, oldKey: Bytes, newKey: Bytes, nonce: Bytes)
    requires Correct(aead) && AesKey(newKey) && |nonce| == NONCE_BYTES
    ensures var r := ReEncrypted(aead, chat, oldKey, newKey, nonce);
            if MayDecrypt(aead, chat, oldKey) then |r| == 1 && Carries(aead, r[0], chat, oldKey, newKey) else r == []
  {
    match Unwrapped(aead, chat.encryptedKey, oldKey)
    case None =>
    case Some(chatKey) => WrapRoundTrip(aead, chatKey, newKey, nonce);
  }

  /** One update per chat that opens ... */
  lemma {:induction false} UpdatesCount(aead: Aead, chats: seq<Chat>, oldKey: Bytes, newKey: Bytes, nonces: seq<Bytes>)
    requires Correct(aead) && AesKey(newKey) && |nonces| == |chats| && TwelveByteNonces(nonces)
    ensures |Updates(aead, chats, oldKey, newKey, nonces)| == Decryptable(aead, chats, oldKey)
    decreases |chats|
  {
    hide ReEncrypted, Carries, Correct, Wrapped, Unwrapped;
    if chats != [] {
      var n := |chats| - 1;
      UpdatesCount(aead, chats[..n], oldKey, newKey, nonces[..n]);
      ReEncryptedCarries(aead, chats[n], oldKey, newKey, nonces[n]);
    }
  }

  /** ... every update carries the key of a chat ... */
  lemma {:induction false} UpdateHasChat(
    aead: Aead, chats: seq<Chat>, oldKey: Bytes, newKey: Bytes, nonces: seq<Bytes>, k: KeyUpdate) returns (c: Chat)
    requires Correct(aead) && AesKey(newKey) && |nonces| == |chats| && TwelveByteNonces(nonces)
    requires k in Updates(aead, chats, oldKey, newKey, nonces)
    ensures c in chats && Carries(aead, k, c, oldKey, newKey)
    decreases |chats|
  {
    hide ReEncrypted, Carries, Correct, Wrapped, Unwrapped;
    var n := |chats| - 1;
    ReEncryptedCarries(aead, chats[n], oldKey, newKey, nonces[n]);
    if k in Updates(aead, chats[..n], oldKey, newKey, nonces[..n]) {
      c := UpdateHasChat(aead, chats[..n], oldKey, newKey, nonces[..n], k);
    } else {
      c := chats[n];
    }
  }

  /** ... and the key of every chat that opens is carried by one. */
  lemma {:induction false} ChatHasUpdate(
    aead: Aead, chats: seq<Chat>, oldKey: Bytes, newKey: Bytes, nonces: seq<Bytes>, c: Chat) returns (k: KeyUpdate)
    requires Correct(aead) && AesKey(newKey) && |nonces| == |chats| && TwelveByteNonces(nonces)
    requires c in chats && MayDecrypt(aead, c, oldKey)
    ensures k in Updates(aead, chats, oldKey, newKey, nonces) && Carries(aead, k, c, oldKey, newKey)
    decreases |chats|
  {
    hide ReEncrypted, Carries, Correct, Wrapped, Unwrapped;
    var n := |chats| - 1;
    ReEncryptedCarries(aead, chats[n], oldKey, newKey, nonces[n]);
    if c == chats[n] {
      k := ReEncrypted(aead, chats[n], oldKey, newKey, nonces[n])[0];
    } else {
      k := ChatHasUpdate(aead, chats[..n], oldKey, newKey, nonces[..n], c);
    }
  }

  lemma {:induction false} ReEncryptedCompanion(aead: Aead, chat: Chat, oldKey: Bytes, newKey: Bytes, nonce: Bytes)
    ensures var r := ReEncrypted(aead, chat, oldKey, newKey, nonce);
            |r| <= 1 && forall k :: k in r ==> k.companionId == chat.companionId
  {
  }

  lemma {:induction false} UpdateNamesChat(
    aead: Aead, chats: seq<Chat>, oldKey: Bytes, newKey: Bytes, nonces: seq<Bytes>, k: KeyUpdate) returns (i: nat)
    requires |nonces| == |chats| && k in Updates(aead, chats, oldKey, newKey, nonces)
    ensures i < |chats| && chats[i].companionId == k.companionId
    decreases |chats|
  {
    hide ReEncrypted;
    var n := |chats| - 1;
    ReEncryptedCompanion(aead, chats[n], oldKey, newKey, nonces[n]);
    if k in Updates(aead, chats[..n], oldKey, newKey, nonces[..n]) {
      i := UpdateNamesChat(aead, chats[..n], oldKey, newKey, nonces[..n], k);
    } else {
      i := n;
    }
  }

  lemma {:induction false} NoneLast()
    ensures AllLast([])
  {
  }

  lemma {:induction false} LastsExtend(keys: seq<KeyUpdate>, more: seq<KeyUpdate>)
    requires AllLast(keys)
    requires |more| <= 1 && forall k, m :: k in keys && m in more ==> k.companionId != m.companionId
    ensures AllLast(keys + more)
  {
    forall i | 0 <= i < |keys + more|
      ensures IsLast(keys + more, i)
    {
      if i < |keys| {
        assert IsLast(keys, i) && keys[i] in keys;
      }
    }
  }

  /** No two updates name the same companion. */
  lemma {:induction false} UpdatesDistinct(aead: Aead, chats: seq<Chat>, oldKey: Bytes, newKey: Bytes, nonces: seq<Bytes>)
    requires |nonces| == |chats| && DistinctCompanions(chats)
    ensures AllLast(Updates(aead, chats, oldKey, newKey, nonces))
    decreases |chats|
  {
    hide ReEncrypted, AllLast;
    NoneLast();
    if chats != [] {
      var n := |chats| - 1;
      var ks := Updates(aead, chats[..n], oldKey, newKey, nonces[..n]);
      UpdatesDistinct(aead, chats[..n], oldKey, newKey, nonces[..n]);
      ReEncryptedCompanion(aead, chats[n], oldKey, newKey, nonces[n]);
      forall k | k in ks
        ensures k.companionId != chats[n].companionId
      {
        var i := UpdateNamesChat(aead, chats[..n], oldKey, newKey, nonces[..n], k);
      }
      LastsExtend(ks, ReEncrypted(aead, chats[n], oldKey, newKey, nonces[n]));
    }
  }

  // ---- What a password change does to the chat rows ----

  /** The list GetChats returns: every row of the user once. */
  ghost predicate Lists(chats: Chats, userId: string, list: seq<Chat>) {
    && DistinctCompanions(list)
    && (forall c :: c in list ==> (userId, c.companionId) in chats && c.encryptedKey == Coalesce(chats[(userId, c.companionId)].encryptedKey))
    && (forall companion :: (userId, companion) in chats ==>
          Chat(companion, Coalesce(chats[(userId, companion)].encryptedKey)) in list)
  }

  ghost function KeyOf(aead: Aead, row: ChatRow, privateKey: Bytes): Option<Bytes> {
    Unwrapped(aead, Coalesce(row.encryptedKey), privateKey)
  }

  /**
   * Meaning is preserved. The list was read from `listed`; `chats` is the table when the update arrives. Every row
   * of the user that opened under the old private key when it was listed opens under the new one to the same chat
   * key; every other row, those of other users included, is untouched. No row comes or goes. So a key saved in
   * between is lost exactly when its row was listed with a key that opened.
   */
  lemma {:induction false} RekeyPreserves(
    aead: Aead, listed: Chats, chats: Chats, userId: string, list: seq<Chat>, oldKey: Bytes, newKey: Bytes,
    nonces: seq<Bytes>, at: (string, string))
    requires Correct(aead) && AesKey(newKey) && |nonces| == |list| && TwelveByteNonces(nonces)
    requires Lists(listed, userId, list) && listed.Keys <= chats.Keys && at in chats
    ensures var after := Rekeyed(chats, userId, Updates(aead, list, oldKey, newKey, nonces));
            && after.Keys == chats.Keys
            && if at.0 == userId && at in listed && KeyOf(aead, listed[at], oldKey).Some?
               then KeyOf(aead, after[at], newKey) == KeyOf(aead, listed[at], oldKey)
               else after[at] == chats[at]
  {
    hide Updates, Rekeyed, Unwrapped, Correct;
    var ks := Updates(aead, list, oldKey, newKey, nonces);
    UpdatesDistinct(aead, list, oldKey, newKey, nonces);
    if at.0 == userId && at in listed && KeyOf(aead, listed[at], oldKey).Some? {
      var chat := Chat(at.1, Coalesce(listed[at].encryptedKey));
      assert chat in list;
      var k := ChatHasUpdate(aead, list, oldKey, newKey, nonces, chat);
      var i :| 0 <= i < |ks| && ks[i] == k;
      LastUpdateWins(chats, userId, ks, i);
    } else {
      forall k | k in ks && at.0 == userId
        ensures k.companionId != at.1
      {
        var c := UpdateHasChat(aead, list, oldKey, newKey, nonces, k);
        assert (userId, c.companionId) in listed;
      }
      RowUntouched(chats, userId, ks, at);
    }
  }

  /** What the user could open with the old key when it was listed opens with the new one; the rest is as before. */
  ghost predicate MeaningKept(
    aead: Aead, listed: Chats, before: Chats, after: Chats, userId: string, oldKey: Bytes, newKey: Bytes) {
    && after.Keys == before.Keys
    && forall at :: at in before ==>
         if at.0 == userId && at in listed && KeyOf(aead, listed[at], oldKey).Some?
         then KeyOf(aead, after[at], newKey) == KeyOf(aead, listed[at], oldKey)
         else after[at] == before[at]
  }

  lemma {:induction false} RekeyKeepsMeaning(
    aead: Aead, listed: Chats, chats: Chats, userId: string, list: seq<Chat>, oldKey: Bytes, newKey: Bytes, nonces: seq<Bytes>)
    requires Correct(aead) && AesKey(newKey) && |nonces| == |list| && TwelveByteNonces(nonces)
    requires Lists(listed, userId, list) && listed.Keys <= chats.Keys
    ensures MeaningKept(aead, listed, chats, Rekeyed(chats, userId, Updates(aead, list, oldKey, newKey, nonces)),
                        userId, oldKey, newKey)
  {
    hide Updates, Rekeyed, Correct, KeyOf;
    forall at | at in chats
      ensures var after := Rekeyed(chats, userId, Updates(aead, list, oldKey, newKey, nonces));
              && after.Keys == chats.Keys
              && if at.0 == userId && at in listed && KeyOf(aead, listed[at], oldKey).Some?
                 then KeyOf(aead, after[at], newKey) == KeyOf(aead, listed[at], oldKey)
                 else after[at] == chats[at]
    {
      RekeyPreserves(aead, listed, chats, userId, list, oldKey, newKey, nonces, at);
    }
  }

  /** The reported count is the number of chats re-encrypted. */
  lemma {:induction false} CountIsUpdates(
    aead: Aead, chats: Chats, userId: string, list: seq<Chat>, oldKey: Bytes, newKey: Bytes, nonces: seq<Bytes>)
    requires Correct(aead) && AesKey(newKey) && |nonces| == |list| && TwelveByteNonces(nonces) && Lists(chats, userId, list)
    ensures RowsHit(chats, userId, Updates(aead, list, oldKey, newKey, nonces)) == Decryptable(aead, list, oldKey)
  {
    var ks := Updates(aead, list, oldKey, newKey, nonces);
    UpdatesCount(aead, list, oldKey, newKey, nonces);
    forall k | k in ks
      ensures (userId, k.companionId) in chats
    {
      var i := UpdateNamesChat(aead, list, oldKey, newKey, nonces, k);
      assert list[i] in list;
    }
    AllHit(chats, userId, ks);
  }

  lemma {:induction false} AllHit(chats: Chats, userId: string, keys: seq<KeyUpdate>)
    requires forall k :: k in keys ==> (userId, k.companionId) in chats
    ensures RowsHit(chats, userId, keys) == |keys|
    decreases |keys|
  {
    if keys != [] {
      AllHit(chats, userId, keys[..|keys| - 1]);
    }
  }

  // ---- The services and the saga ----

  /** Where the transaction fails, if it does. */
  datatype TxFault = NoFault | BeginFails | ExecFails(at: nat) | CommitFails

  predicate Commits(fault: TxFault, n: nat) {
    match fault
    case NoFault => true
    case BeginFails => false
    case ExecFails(at) => at >= n
    case CommitFails => false
  }

  datatype Faults = Faults(chats: bool, auth: bool, keys: TxFault, reply: bool)

  datatype Request = Request(login: string, oldAuthHash: string, newAuthHash: string, newPublicKey: string, chatKeys: seq<KeyUpdate>)

  type Users = map<string, User>

  predicate AuthAccepts(users: Users, req: Request, fails: bool) {
    && req.oldAuthHash != "" && req.newAuthHash != ""
    && req.login in users && users[req.login].authHash == req.oldAuthHash && !fails
  }

  function AuthChanged(users: Users, req: Request): Users
    requires req.login in users
  {
    users[req.login := users[req.login].(authHash := req.newAuthHash, publicKey := req.newPublicKey)]
  }

  predicate KeysAccepted(userId: string, keys: seq<KeyUpdate>, fault: TxFault) {
    keys == [] || (userId != "" && Commits(fault, |keys|))
  }

  predicate SagaSucceeds(users: Users, req: Request, f: Faults) {
    AuthAccepts(users, req, f.auth) && KeysAccepted(users[req.login].id, req.chatKeys, f.keys)
  }

  datatype Save = Save(userId: string, companionId: string, encryptedKey: string, keyIv: string)

  function Saved(chats: Chats, saves: seq<Save>): (r: Chats)
    ensures chats.Keys <= r.Keys
  {
    if saves == [] then chats
    else
      var s := saves[|saves| - 1];
      Saved(chats, saves[..|saves| - 1])[(s.userId, s.companionId) := ChatRow(Some(s.encryptedKey), Some(s.keyIv))]
  }

  class Servers {
    /** By login. */
    var users: Users
    var chats: Chats

    constructor (users: Users, chats: Chats)
      ensures this.users == users && this.chats == chats
    {
      this.users, this.chats := users, chats;
    }

    /** auth-service. */
    method AuthChangePassword(req: Request, fails: bool) returns (userId: Option<string>)
      modifies `users
      ensures userId == if AuthAccepts(old(users), req, fails) then Some(old(users)[req.login].id) else None
      ensures users == if userId.Some? then AuthChanged(old(users), req) else old(users)
      ensures userId.Some? <==>
                && req.oldAuthHash != "" && req.newAuthHash != "" && !fails
                && req.login in old(users) && old(users)[req.login].authHash == req.oldAuthHash
      ensures userId.Some? ==>
                && userId.value == old(users)[req.login].id
                && users == old(users)[req.login := User(old(users)[req.login].id, req.newAuthHash, req.newPublicKey)]
      ensures userId.None? ==> users == old(users)
    {
      if req.oldAuthHash == "" || req.newAuthHash == "" || req.login !in users {
        return None;
      }
      var user := users[req.login];
      if user.authHash != req.oldAuthHash || fails {
        return None;
      }
      users := users[req.login := user.(authHash := req.newAuthHash, publicKey := req.newPublicKey)];
      userId := Some(user.id);
    }

    /** message-service: all updates or none. */
    method UpdateChatKeys(userId: string, keys: seq<KeyUpdate>, fault: TxFault) returns (count: Option<nat>)
      modifies `chats
      ensures count.Some? <==> userId != "" && keys != [] && (fault.NoFault? || (fault.ExecFails? && fault.at >= |keys|))
      ensures chats == if count.Some? then Rekeyed(old(chats), userId, keys) else old(chats)
      ensures count.Some? ==> count.value == RowsHit(old(chats), userId, keys)
    {
      if userId == "" || |keys| == 0 || fault == BeginFails {
        return None;
      }
      var tx := chats;
      var n := 0;
      for i := 0 to |keys|
        invariant tx == Rekeyed(chats, userId, keys[..i]) && n == RowsHit(chats, userId, keys[..i])
        invariant chats == old(chats) && !(fault.ExecFails? && fault.at < i)
      {
        if fault == ExecFails(i) {
          return None;
        }
        assert keys[..i + 1][..i] == keys[..i];
        if (userId, keys[i].companionId) in tx {
          tx := tx[(userId, keys[i].companionId) := ChatRow(Some(keys[i].encryptedKey), Some(keys[i].keyIv))];
          n := n + 1;
        }
      }
      if fault == CommitFails {
        return None;
      }
      assert keys[..|keys|] == keys;
      chats := tx;
      count := Some(n);
    }

    /**
     * The saga: when a step fails no chat row changes; when the second one fails the account has its new password
     * all the same.
     */
    method ChangePassword(req: Request, f: Faults) returns (updated: Option<nat>)
      modifies this
      ensures updated.Some? <==> SagaSucceeds(old(users), req, f)
      ensures users == if AuthAccepts(old(users), req, f.auth) then AuthChanged(old(users), req) else old(users)
      ensures updated.Some? ==> chats == Rekeyed(old(chats), old(users)[req.login].id, req.chatKeys)
      ensures updated.Some? ==> updated.value == RowsHit(old(chats), old(users)[req.login].id, req.chatKeys)
      ensures updated.None? ==> chats == old(chats)
      ensures req.oldAuthHash == "" || req.newAuthHash == "" || req.login !in old(users)
              || old(users)[req.login].authHash != req.oldAuthHash || f.auth ==>
                updated.None? && users == old(users) && chats == old(chats)
      ensures updated.Some? ==>
                && req.login in old(users) && old(users)[req.login].authHash == req.oldAuthHash
                && users == old(users)[req.login := User(old(users)[req.login].id, req.newAuthHash, req.newPublicKey)]
                && (req.chatKeys != [] ==> f.keys.NoFault? || (f.keys.ExecFails? && f.keys.at >= |req.chatKeys|))
    {
      var userId := AuthChangePassword(req, f.auth);
      if userId.None? {
        return None;
      }
      updated := Some(0);
      if |req.chatKeys| > 0 {
        updated := UpdateChatKeys(userId.value, req.chatKeys, f.keys);
      }
    }

    method GetChats(userId: string) returns (list: seq<Chat>)
      ensures Lists(chats, userId, list)
    {
      list := [];
      var left := set at | at in chats && at.0 == userId;
      while left != {}
        invariant left <= chats.Keys && forall at :: at in left ==> at.0 == userId
        invariant DistinctCompanions(list) && forall c :: c in list ==> (userId, c.companionId) in chats && (userId, c.companionId) !in left
        invariant forall c :: c in list ==> c.encryptedKey == Coalesce(chats[(userId, c.companionId)].encryptedKey)
        invariant forall companion :: (userId, companion) in chats ==>
                    (userId, companion) in left || Chat(companion, Coalesce(chats[(userId, companion)].encryptedKey)) in list
        decreases left
      {
        var at :| at in left;
        list := list + [Chat(at.1, Coalesce(chats[at].encryptedKey))];
        left := left - {at};
      }
    }

    method SaveChatKeys(save: Save)
      modifies `chats
      ensures chats == old(chats)[(save.userId, save.companionId) := ChatRow(Some(save.encryptedKey), Some(save.keyIv))]
    {
      chats := chats[(save.userId, save.companionId) := ChatRow(Some(save.encryptedKey), Some(save.keyIv))];
    }

    /** Other clients, while this one encrypts. */
    method Interleave(saves: seq<Save>)
      modifies `chats
      ensures chats == Saved(old(chats), saves)
    {
      for i := 0 to |saves|
        invariant chats == Saved(old(chats), saves[..i])
      {
        assert saves[..i + 1][..i] == saves[..i];
        SaveChatKeys(saves[i]);
      }
      assert saves[..|saves|] == saves;
    }
  }

  /** The same as an implication, for a caller that does not know the AEAD to be correct. */
  lemma {:induction false} KeepsMeaning(
    aead: Aead, listed: Chats, chats: Chats, userId: string, list: seq<Chat>, oldKey: Bytes, newKey: Bytes, nonces: seq<Bytes>)
    requires |nonces| == |list| && TwelveByteNonces(nonces)
    requires Lists(listed, userId, list) && listed.Keys <= chats.Keys
    ensures Correct(aead) && AesKey(newKey) ==>
              MeaningKept(aead, listed, chats, Rekeyed(chats, userId, Updates(aead, list, oldKey, newKey, nonces)),
                          userId, oldKey, newKey)
  {
    if Correct(aead) && AesKey(newKey) {
      RekeyKeepsMeaning(aead, listed, chats, userId, list, oldKey, newKey, nonces);
    }
  }

  datatype KeyPair = KeyPair(privateKey: Bytes, publicKey: Bytes, authHash: string)

  /** crypto.getRandomValues, once per chat. */
  method RandomNonces(n: nat) returns (nonces: seq<Bytes>)
    ensures |nonces| == n && TwelveByteNonces(nonces)
  {
    nonces := [];
    for i := 0 to n
      invariant |nonces| == i && TwelveByteNonces(nonces)
    {
      var nonce: Bytes := [];
      for k := 0 to NONCE_BYTES
        invariant |nonce| == k
      {
        var b: Codec.Byte := *;
        nonce := nonce + [b];
      }
      nonces := nonces + [nonce];
    }
  }

  class Page {
    const server: Servers
    /** What restorePrivateKey finds. */
    var privateKey: Option<Bytes>

    constructor (server: Servers, privateKey: Option<Bytes>)
      ensures this.server == server && this.privateKey == privateKey
    {
      this.server, this.privateKey := server, privateKey;
    }

    /** A key to decrypt with, a login to name, and the list of chats. */
    predicate Starts(login: Option<string>, f: Faults)
      reads this
    {
      privateKey.Some? && login.Some? && !f.chats
    }

    /**
     * Once started, the rows are re-encrypted if both steps of the saga succeed and are otherwise only what
     * others saved. The device holds the new private key exactly if the page hears of the success; then every
     * chat key the device could open with its old key it opens with its new one, if the login is the user's own.
     */
    method HandleSubmit(aead: Aead, userId: string, login: Option<string>, oldPair: KeyPair, newPair: KeyPair, saves: seq<Save>, f: Faults)
      returns (done: bool, list: seq<Chat>, nonces: seq<Bytes>, req: Request)
      modifies this, server
      ensures privateKey == if done then Some(newPair.privateKey) else old(privateKey)
      ensures !old(Starts(login, f)) ==> !done && server.users == old(server.users) && server.chats == old(server.chats)
      ensures old(Starts(login, f)) ==>
                && Lists(old(server.chats), userId, list) && |nonces| == |list| && TwelveByteNonces(nonces)
                && req == Request(login.value, oldPair.authHash, newPair.authHash, Codec.ToHex(newPair.publicKey),
                                  Updates(aead, list, old(privateKey).value, newPair.privateKey, nonces))
                && (done <==> SagaSucceeds(old(server.users), req, f) && !f.reply)
                && server.users == (if AuthAccepts(old(server.users), req, f.auth) then AuthChanged(old(server.users), req)
                                    else old(server.users))
                && server.chats == (if SagaSucceeds(old(server.users), req, f)
                                    then Rekeyed(Saved(old(server.chats), saves), old(server.users)[login.value].id, req.chatKeys)
                                    else Saved(old(server.chats), saves))
      ensures done ==>
                && login.value in old(server.users) && old(server.users)[login.value].authHash == oldPair.authHash
                && server.users == old(server.users)[login.value := User(old(server.users)[login.value].id, newPair.authHash,
                                                                         Codec.ToHex(newPair.publicKey))]
      ensures login.Some?
              && (login.value !in old(server.users) || old(server.users)[login.value].authHash != oldPair.authHash) ==>
                && !done && server.users == old(server.users)
                && server.chats == if old(privateKey).Some? && !f.chats then Saved(old(server.chats), saves) else old(server.chats)
      ensures done && Correct(aead) && AesKey(newPair.privateKey) && old(server.users)[login.value].id == userId ==>
                MeaningKept(aead, old(server.chats), Saved(old(server.chats), saves), server.chats, userId,
                            old(privateKey).value, privateKey.value)
    {
      done, list, nonces, req := false, [], [], Request("", "", "", "", []);
      if privateKey.None? || login.None? || f.chats {
        return;
      }
      list := server.GetChats(userId);
      server.Interleave(saves);
      nonces := RandomNonces(|list|);
      var chatKeys := ReEncryptChatKeys(aead, list, privateKey.value, newPair.privateKey, nonces);
      req := Request(login.value, oldPair.authHash, newPair.authHash, Codec.ToHex(newPair.publicKey), chatKeys);
      var updated := server.ChangePassword(req, f);
      if updated.None? || f.reply {
        return;
      }
      KeepsMeaning(aead, old(server.chats), Saved(old(server.chats), saves), userId, list, privateKey.value,
                   newPair.privateKey, nonces);
      privateKey := Some(newPair.privateKey);
      done := true;
    }
  }
}
