/** Keyset pagination of a chat: the query, the limit clamp, has_more, and the client that prepends pages. */
module Pagination {
  import opened Options

  /** A messages row as the query orders it; the id is the 128-bit value of its UUID. */
  datatype Msg = Msg(id: nat, chatId: string, createdAt: int)

  type Table = map<nat, Msg>

  const MAX_PAGE := 50

  /** (created_at, id) < (created_at, id). */
  predicate Before(a: Msg, b: Msg) {
    a.createdAt < b.createdAt || (a.createdAt == b.createdAt && a.id < b.id)
  }

  // ---- The query ----

  ghost predicate TableSound(t: Table) {
    forall id :: id in t ==> t[id].id == id
  }

  /** The rows the WHERE clause leaves; a cursor that names no row leaves none. */
  function Candidates(t: Table, chatId: string, cursor: Option<nat>): set<Msg> {
    set id | id in t && t[id].chatId == chatId
             && (cursor.None? || (cursor.value in t && Before(t[id], t[cursor.value]))) :: t[id]
  }

  ghost predicate Descending(page: seq<Msg>) {
    forall i, j :: 0 <= i < j < |page| ==> Before(page[j], page[i])
  }

  /** ORDER BY created_at DESC, id DESC LIMIT. */
  ghost predicate IsPage(rows: set<Msg>, limit: nat, page: seq<Msg>) {
    && |page| <= limit && Descending(page)
    && (forall m :: m in page ==> m in rows)
    && (forall m :: m in rows && m !in page ==> |page| == limit && forall i :: 0 <= i < |page| ==> Before(m, page[i]))
  }

  lemma {:induction false} Newest(rows: set<Msg>) returns (m: Msg)
    requires rows != {} && forall a, b :: a in rows && b in rows && a.id == b.id ==> a == b
    ensures m in rows && forall x :: x in rows && x != m ==> Before(x, m)
    decreases |rows|
  {
    var first :| first in rows;
    m := first;
    if rows - {first} != {} {
      var rest := Newest(rows - {first});
      assert rest in rows && first.id != rest.id;
      if Before(first, rest) {
        m := rest;
      }
      forall x | x in rows && x != m
        ensures Before(x, m)
      {
        assert x == first || x in rows - {first};
      }
    }
  }

  /** Below the cursor, if there is one: the cursor row is there, and the message comes after it. */
  predicate Under(t: Table, cursor: Option<nat>, m: Msg) {
    cursor.None? || (cursor.value in t && Before(m, t[cursor.value]))
  }

  /** What a page means, row by row. */
  lemma {:induction false} PageMeans(t: Table, chatId: string, cursor: Option<nat>, limit: nat, page: seq<Msg>)
    requires TableSound(t) && IsPage(Candidates(t, chatId, cursor), limit, page)
    ensures |page| <= limit
    ensures forall m :: m in page ==> m.id in t && t[m.id] == m && m.chatId == chatId && Under(t, cursor, m)
    ensures forall i, j :: 0 <= i < j < |page| ==>
              page[j].createdAt < page[i].createdAt || (page[j].createdAt == page[i].createdAt && page[j].id < page[i].id)
    ensures forall id :: id in t && t[id].chatId == chatId && Under(t, cursor, t[id]) && t[id] !in page ==>
              |page| == limit && forall i :: 0 <= i < |page| ==> Before(t[id], page[i])
  {
    forall id | id in t && t[id].chatId == chatId && Under(t, cursor, t[id])
      ensures t[id] in Candidates(t, chatId, cursor)
    {
    }
  }

  method GetByChatID(t: Table, chatId: string, limit: nat, cursor: Option<nat>) returns (page: seq<Msg>)
    requires TableSound(t)
    ensures IsPage(Candidates(t, chatId, cursor), limit, page)
    ensures |page| <= limit
    ensures forall m :: m in page ==> m.id in t && t[m.id] == m && m.chatId == chatId && Under(t, cursor, m)
    ensures forall i, j :: 0 <= i < j < |page| ==>
              page[j].createdAt < page[i].createdAt || (page[j].createdAt == page[i].createdAt && page[j].id < page[i].id)
    ensures forall id :: id in t && t[id].chatId == chatId && Under(t, cursor, t[id]) && t[id] !in page ==>
              |page| == limit && forall i :: 0 <= i < |page| ==> Before(t[id], page[i])
  {
    page := [];
    var rows := Candidates(t, chatId, cursor);
    var left := rows;
    while left != {} && |page| < limit
      invariant |page| <= limit && Descending(page) && left <= rows
      invariant forall m :: m in rows ==> (m in page <==> m !in left)
      invariant forall m :: m in page ==> m in rows
      invariant forall m, i :: m in left && 0 <= i < |page| ==> Before(m, page[i])
      decreases left
    {
      ghost var newest := Newest(left);
      var m :| m in left && forall x :: x in left && x != m ==> Before(x, m);
      page := page + [m];
      left := left - {m};
    }
    PageMeans(t, chatId, cursor, limit, page);
  }

  // ---- The handler ----

  function Clamp(limit: int): nat {
    if limit <= 0 || limit > MAX_PAGE then MAX_PAGE else limit
  }

  /** has_more compares with the limit of the request, not with the clamped one. */
  predicate HasMore(page: seq<Msg>, limit: int) {
    page != [] && |page| == limit
  }

  predicate StartsAt(s: string, sub: string, i: nat) {
    i + |sub| <= |s| && s[i..i + |sub|] == sub
  }

  /** strings.Contains. */
  predicate Contains(s: string, sub: string) {
    exists i: nat :: i <= |s| && StartsAt(s, sub, i)
  }

  lemma {:induction false} ContainsMeans(s: string, sub: string)
    ensures Contains(s, sub) <==> exists a, c :: s == a + sub + c
  {
    if Contains(s, sub) {
      var i: nat :| i <= |s| && StartsAt(s, sub, i);
      assert s == s[..i] + sub + s[i + |sub|..];
    }
    forall a, c | s == a + sub + c
      ensures StartsAt(s, sub, |a|)
    {
    }
  }

  datatype Response =
    | Page(messages: seq<Msg>, nextId: Option<nat>, hasMore: bool)
    | InvalidInput
    | Forbidden

  method GetMessages(t: Table, chatId: string, userId: string, limit: int, cursor: Option<nat>) returns (r: Response)
    requires TableSound(t)
    ensures r.InvalidInput? <==> chatId == ""
    ensures r.Forbidden? <==> chatId != "" && !exists a, c :: chatId == a + userId + c
    ensures r.Page? ==> IsPage(Candidates(t, chatId, cursor), Clamp(limit), r.messages) && r.hasMore == HasMore(r.messages, limit)
    ensures r.Page? ==> |r.messages| <= if 1 <= limit <= 50 then limit else 50
    ensures r.Page? ==>
              forall m :: m in r.messages ==> m.id in t && t[m.id] == m && m.chatId == chatId && Under(t, cursor, m)
    ensures r.Page? ==>
              forall id :: id in t && t[id].chatId == chatId && Under(t, cursor, t[id]) && t[id] !in r.messages ==>
                |r.messages| == (if 1 <= limit <= 50 then limit else 50)
                && forall i :: 0 <= i < |r.messages| ==> Before(t[id], r.messages[i])
    ensures r.Page? ==> (r.hasMore <==> r.messages != [] && |r.messages| == limit)
    ensures r.Page? ==> r.nextId == if r.messages == [] then None else Some(r.messages[|r.messages| - 1].id)
  {
    ContainsMeans(chatId, userId);
    if chatId == "" {
      return InvalidInput;
    }
    if !Contains(chatId, userId) {
      return Forbidden;
    }
    var n := limit;
    if limit <= 0 || limit > MAX_PAGE {
      n := MAX_PAGE;
    }
    var messages := GetByChatID(t, chatId, n, cursor);
    if |messages| > 0 {
      r := Page(messages, Some(messages[|messages| - 1].id), |messages| == limit);
    } else {
      r := Page(messages, None, false);
    }
  }

  // ---- A walk: next_message_id followed from the empty cursor, the table changing between pages ----

  function CursorAt(ps: seq<seq<Msg>>, i: nat): Option<nat>
    requires i <= |ps|
  {
    if i == 0 || ps[i - 1] == [] then None else Some(ps[i - 1][|ps[i - 1]| - 1].id)
  }

  /** Page i is answered from table ts[i]; its cursor row, the last of the page before, is still there. */
  ghost predicate Answered(ts: seq<Table>, ps: seq<seq<Msg>>, chatId: string, limit: int, i: nat) {
    && i < |ts| && i < |ps|
    && IsPage(Candidates(ts[i], chatId, CursorAt(ps, i)), Clamp(limit), ps[i])
    && (i > 0 ==> HasMore(ps[i - 1], limit) && CursorAt(ps, i).value in ts[i])
  }

  /** Every table holds some of the rows that ever existed; a row's time and chat never change. */
  ghost predicate Histories(rows: Table, ts: seq<Table>) {
    TableSound(rows) && forall i :: 0 <= i < |ts| ==> Among(ts[i], rows)
  }

  ghost predicate Among(t: Table, rows: Table) {
    forall id :: id in t ==> id in rows && t[id] == rows[id]
  }

  ghost predicate Walk(rows: Table, ts: seq<Table>, ps: seq<seq<Msg>>, chatId: string, limit: int) {
    && |ts| == |ps| && ps != [] && Histories(rows, ts)
    && forall i: nat :: i < |ps| ==> Answered(ts, ps, chatId, limit, i)
  }

  ghost predicate Finished(ps: seq<seq<Msg>>, limit: int) {
    ps != [] && !HasMore(ps[|ps| - 1], limit)
  }

  function Flatten(ps: seq<seq<Msg>>): seq<Msg> {
    if ps == [] then [] else Flatten(ps[..|ps| - 1]) + ps[|ps| - 1]
  }

  function Last(page: seq<Msg>): Msg
    requires page != []
  {
    page[|page| - 1]
  }

  /** m is older than everything on the page. */
  ghost predicate Below(m: Msg, page: seq<Msg>) {
    forall k :: 0 <= k < |page| ==> Before(m, page[k])
  }

  /** The cursor of page i stands for the last message of the page before. */
  lemma {:induction false} CursorRow(rows: Table, ts: seq<Table>, ps: seq<seq<Msg>>, chatId: string, limit: int, i: nat)
    requires Walk(rows, ts, ps, chatId, limit) && 0 < i < |ps|
    ensures ps[i - 1] != [] && CursorAt(ps, i) == Some(Last(ps[i - 1]).id)
    ensures Last(ps[i - 1]).id in ts[i] && ts[i][Last(ps[i - 1]).id] == Last(ps[i - 1])
  {
    assert Answered(ts, ps, chatId, limit, i) && Answered(ts, ps, chatId, limit, i - 1);
    assert Last(ps[i - 1]) in Candidates(ts[i - 1], chatId, CursorAt(ps, i - 1));
    assert Among(ts[i - 1], rows) && Among(ts[i], rows);
  }

  /** A page lies entirely below the page before it. */
  lemma {:induction false} PagesDescend(rows: Table, ts: seq<Table>, ps: seq<seq<Msg>>, chatId: string, limit: int, i: nat, m: Msg)
    requires Walk(rows, ts, ps, chatId, limit) && 0 < i < |ps| && m in ps[i]
    ensures ps[i - 1] != [] && Before(m, Last(ps[i - 1]))
  {
    CursorRow(rows, ts, ps, chatId, limit, i);
    assert Answered(ts, ps, chatId, limit, i);
    assert m in Candidates(ts[i], chatId, CursorAt(ps, i));
  }

  lemma {:induction false} WalkPrefix(rows: Table, ts: seq<Table>, ps: seq<seq<Msg>>, chatId: string, limit: int, n: nat)
    requires Walk(rows, ts, ps, chatId, limit) && 0 < n <= |ps|
    ensures Walk(rows, ts[..n], ps[..n], chatId, limit)
  {
    forall i: nat | i < n
      ensures Answered(ts[..n], ps[..n], chatId, limit, i)
    {
      assert Answered(ts, ps, chatId, limit, i);
      assert CursorAt(ps[..n], i) == CursorAt(ps, i);
    }
  }

  lemma {:induction false} DescendingConcat(a: seq<Msg>, b: seq<Msg>)
    requires Descending(a) && Descending(b) && forall m, x :: m in b && x in a ==> Before(m, x)
    ensures Descending(a + b)
  {
    forall i, j | 0 <= i < j < |a + b|
      ensures Before((a + b)[j], (a + b)[i])
    {
      if i < |a| <= j {
        assert (a + b)[i] in a && (a + b)[j] in b;
      }
    }
  }

  /** No message is returned twice: all pages together are strictly descending. */
  lemma {:induction false} WalkDescends(rows: Table, ts: seq<Table>, ps: seq<seq<Msg>>, chatId: string, limit: int)
    requires Walk(rows, ts, ps, chatId, limit)
    ensures Descending(Flatten(ps))
    ensures ps[|ps| - 1] != [] ==>
              forall x :: x in Flatten(ps) ==> x == Last(ps[|ps| - 1]) || Before(Last(ps[|ps| - 1]), x)
    decreases |ps|
  {
    var n := |ps| - 1;
    var page := ps[n];
    assert Answered(ts, ps, chatId, limit, n);
    assert forall x :: x in page ==> x == Last(page) || Before(Last(page), x);
    if n == 0 {
      assert Flatten(ps) == [] + page == page;
    } else {
      WalkPrefix(rows, ts, ps, chatId, limit, n);
      WalkDescends(rows, ts[..n], ps[..n], chatId, limit);
      assert ps[..n][n - 1] == ps[n - 1];
      forall m, x | m in page && x in Flatten(ps[..n])
        ensures Before(m, x)
      {
        PagesDescend(rows, ts, ps, chatId, limit, n, m);
      }
      DescendingConcat(Flatten(ps[..n]), page);
    }
  }

  /** A message of the chat that is in every table. */
  ghost predicate Permanent(ts: seq<Table>, chatId: string, m: Msg) {
    m.chatId == chatId && forall i :: 0 <= i < |ts| ==> m.id in ts[i] && ts[i][m.id] == m
  }

  /** A message of the chat present in every table is on some page so far, or still below the last page. */
  lemma {:induction false} NoneSkipped(rows: Table, ts: seq<Table>, ps: seq<seq<Msg>>, chatId: string, limit: int, m: Msg)
    requires Walk(rows, ts, ps, chatId, limit) && Permanent(ts, chatId, m)
    ensures m in Flatten(ps) || (|ps[|ps| - 1]| == Clamp(limit) && Below(m, ps[|ps| - 1]))
    decreases |ps|
  {
    var n := |ps| - 1;
    assert Answered(ts, ps, chatId, limit, n) && m.id in ts[n] && ts[n][m.id] == m;
    if n > 0 {
      WalkPrefix(rows, ts, ps, chatId, limit, n);
      NoneSkipped(rows, ts[..n], ps[..n], chatId, limit, m);
      assert ps[..n][n - 1] == ps[n - 1];
      CursorRow(rows, ts, ps, chatId, limit, n);
    }
    if m !in Flatten(ps) {
      assert m !in ps[n];
      assert m in Candidates(ts[n], chatId, CursorAt(ps, n));
    }
  }

  /**
   * Pagination is exact. With a limit in 1..50, a finished walk returns every message that was there all
   * the time exactly once, in strictly descending order, whatever else was inserted or deleted.
   */
  lemma {:induction false} WalkIsExact(rows: Table, ts: seq<Table>, ps: seq<seq<Msg>>, chatId: string, limit: int, m: Msg)
    requires Walk(rows, ts, ps, chatId, limit) && Finished(ps, limit) && 1 <= limit <= 50
    requires Permanent(ts, chatId, m)
    ensures Descending(Flatten(ps)) && multiset(Flatten(ps))[m] == 1
  {
    WalkDescends(rows, ts, ps, chatId, limit);
    NoneSkipped(rows, ts, ps, chatId, limit, m);
    DescendingOnce(Flatten(ps), m);
  }

  lemma {:induction false} DescendingOnce(s: seq<Msg>, m: Msg)
    requires Descending(s) && m in s
    ensures multiset(s)[m] == 1
  {
    var k :| 0 <= k < |s| && s[k] == m;
    assert s == s[..k] + [m] + s[k + 1..];
    assert m !in s[..k] && m !in s[k + 1..];
  }

  // ---- How many requests ----

  lemma {:induction false} FlattenCount(ps: seq<seq<Msg>>, limit: nat)
    requires forall i :: 0 <= i < |ps| - 1 ==> |ps[i]| == limit
    ensures ps != [] ==> |Flatten(ps)| == (|ps| - 1) * limit + |ps[|ps| - 1]|
    decreases |ps|
  {
    if |ps| > 1 {
      FlattenCount(ps[..|ps| - 1], limit);
      assert (|ps| - 2) * limit + limit == (|ps| - 1) * limit;
    } else if |ps| == 1 {
      assert Flatten(ps[..0]) == [];
    }
  }

  lemma {:induction false} DescendingCount(s: seq<Msg>, rows: set<Msg>)
    requires Descending(s) && forall m :: m in s ==> m in rows
    ensures |s| <= |rows|
    ensures (forall m :: m in rows ==> m in s) ==> |s| == |rows|
    decreases |s|
  {
    if s == [] {
      assert (forall m :: m in rows ==> m in s) ==> rows == {};
    } else {
      var front, last := s[..|s| - 1], s[|s| - 1];
      assert last !in front;
      DescendingCount(front, rows - {last});
      assert s == front + [last];
    }
  }

  lemma {:induction false} WalkStaysIn(rows: Table, ts: seq<Table>, ps: seq<seq<Msg>>, chatId: string, limit: int, m: Msg) returns (i: nat)
    requires Walk(rows, ts, ps, chatId, limit) && m in Flatten(ps)
    ensures i < |ts| && m in Chat(ts[i], chatId) && m in Chat(rows, chatId)
  {
    i := FlattenPage(ps, m);
    assert Answered(ts, ps, chatId, limit, i);
    assert m in Candidates(ts[i], chatId, CursorAt(ps, i));
    assert Among(ts[i], rows);
  }

  /** Whatever happens to the tables, a walk returns messages of its chat only. */
  lemma {:induction false} WalkStaysInChat(rows: Table, ts: seq<Table>, ps: seq<seq<Msg>>, chatId: string, limit: int)
    requires Walk(rows, ts, ps, chatId, limit)
    ensures forall m :: m in Flatten(ps) ==> m.chatId == chatId && m.id in rows && rows[m.id] == m
  {
    forall m | m in Flatten(ps)
      ensures m.chatId == chatId && m.id in rows && rows[m.id] == m
    {
      var i := WalkStaysIn(rows, ts, ps, chatId, limit, m);
    }
  }

  /** Every walk ends: the messages that ever existed allow no more than so many full pages. */
  lemma {:induction false} WalkIsShort(rows: Table, ts: seq<Table>, ps: seq<seq<Msg>>, chatId: string, limit: int)
    requires Walk(rows, ts, ps, chatId, limit) && limit > 0
    ensures |ps| <= |Chat(rows, chatId)| / limit + 1
  {
    WalkDescends(rows, ts, ps, chatId, limit);
    forall i | 0 <= i < |ps| - 1
      ensures |ps[i]| == limit
    {
      assert Answered(ts, ps, chatId, limit, i + 1);
    }
    FlattenCount(ps, limit);
    forall m | m in Flatten(ps)
      ensures m in Chat(rows, chatId)
    {
      var i := WalkStaysIn(rows, ts, ps, chatId, limit, m);
    }
    DescendingCount(Flatten(ps), Chat(rows, chatId));
    QuotientAtLeast(|Chat(rows, chatId)|, limit, |ps| - 1);
  }

  lemma {:induction false} FlattenPage(ps: seq<seq<Msg>>, m: Msg) returns (i: nat)
    requires m in Flatten(ps)
    ensures i < |ps| && m in ps[i]
    decreases |ps|
  {
    i := |ps| - 1;
    if m !in ps[i] {
      i := FlattenPage(ps[..i], m);
    }
  }

  ghost predicate Unchanging(ts: seq<Table>, t: Table) {
    forall i :: 0 <= i < |ts| ==> ts[i] == t
  }

  /** The whole chat. */
  ghost function Chat(t: Table, chatId: string): set<Msg> {
    set id | id in t && t[id].chatId == chatId :: t[id]
  }

  /** Without a cursor the query is about the whole chat. */
  lemma {:induction false} ChatIsAsked(t: Table, chatId: string)
    ensures Candidates(t, chatId, None) == Chat(t, chatId)
  {
  }

  /** On an unchanging chat of n messages a walk with a limit in 1..50 takes n / limit + 1 requests. */
  lemma {:induction false} WalkCount(ts: seq<Table>, ps: seq<seq<Msg>>, t: Table, chatId: string, limit: int)
    requires Walk(t, ts, ps, chatId, limit) && Finished(ps, limit) && Unchanging(ts, t) && 1 <= limit <= 50
    ensures |ps| == |Chat(t, chatId)| / limit + 1
    ensures Descending(Flatten(ps))
    ensures forall m :: m in Flatten(ps) <==> m.id in t && t[m.id] == m && m.chatId == chatId
  {
    var rows, all, n := Chat(t, chatId), Flatten(ps), |ps| - 1;
    WalkDescends(t, ts, ps, chatId, limit);
    WalkIsShort(t, ts, ps, chatId, limit);
    forall m | m in rows
      ensures m in all
    {
      WalkIsExact(t, ts, ps, chatId, limit, m);
    }
    forall m | m in all
      ensures m in rows
    {
      var i := WalkStaysIn(t, ts, ps, chatId, limit, m);
    }
    DescendingCount(all, rows);
    forall i | 0 <= i < n
      ensures |ps[i]| == limit
    {
      assert Answered(ts, ps, chatId, limit, i + 1);
    }
    FlattenCount(ps, limit);
    assert Answered(ts, ps, chatId, limit, n);
    assert |ps[n]| < limit;
    QuotientIs(|rows|, limit, n, |ps[n]|);
  }

  lemma {:induction false} SmallMultiple(e: int, d: int)
    requires d > 0 && -d < e * d < d
    ensures e == 0
  {
    assert e >= 1 ==> e * d >= d;
    assert e <= -1 ==> e * d <= -d;
  }

  lemma {:induction false} QuotientIs(n: nat, d: nat, q: nat, r: nat)
    requires d > 0 && r < d && n == q * d + r
    ensures n / d == q
  {
    assert (n / d) * d + n % d == n;
    assert (n / d - q) * d == (n / d) * d - q * d;
    SmallMultiple(n / d - q, d);
  }

  lemma {:induction false} QuotientAtLeast(n: nat, d: nat, q: nat)
    requires d > 0 && n >= q * d
    ensures n / d >= q
  {
    var e := n / d - q + 1;
    assert (n / d) * d + n % d == n;
    assert e * d == (n / d) * d - q * d + d;
    NotPositive(e, d);
  }

  lemma {:induction false} NotPositive(e: int, d: nat)
    ensures e <= 0 ==> e * d <= 0
  {
  }

  /**
   * The limit of the request decides whether an unchanging chat is enumerated at all: a finished walk
   * returns the whole chat exactly when the limit is in 1..50 or the chat fits in one page of 50.
   */
  lemma {:induction false} WalkComplete(ts: seq<Table>, ps: seq<seq<Msg>>, t: Table, chatId: string, limit: int)
    requires Walk(t, ts, ps, chatId, limit) && Finished(ps, limit) && Unchanging(ts, t)
    ensures (forall m :: m in Chat(t, chatId) ==> m in Flatten(ps)) <==> 1 <= limit <= 50 || |Chat(t, chatId)| <= 50
  {
    if 1 <= limit <= MAX_PAGE {
      WalkCount(ts, ps, t, chatId, limit);
    } else {
      OnePage(ts, ps, t, chatId, limit);
      PageIsAll(Chat(t, chatId), MAX_PAGE, ps[0]);
    }
  }

  lemma {:induction false} PageIsAll(rows: set<Msg>, limit: nat, page: seq<Msg>)
    requires IsPage(rows, limit, page)
    ensures (forall m :: m in rows ==> m in page) <==> |rows| <= limit
  {
    DescendingCount(page, rows);
    if |rows| <= limit {
      forall m | m in rows
        ensures m in page
      {
        if m !in page {
          DescendingCount(page, rows - {m});
        }
      }
    }
  }

  lemma {:induction false} MorePagesMeanLimit(rows: Table, ts: seq<Table>, ps: seq<seq<Msg>>, chatId: string, limit: int)
    requires Walk(rows, ts, ps, chatId, limit)
    ensures |ps| > 1 ==> 1 <= limit <= MAX_PAGE
  {
    if |ps| > 1 {
      assert Answered(ts, ps, chatId, limit, 0) && Answered(ts, ps, chatId, limit, 1);
    }
  }

  /** With any other limit has_more is never set. */
  lemma {:induction false} OnePage(ts: seq<Table>, ps: seq<seq<Msg>>, t: Table, chatId: string, limit: int)
    requires Walk(t, ts, ps, chatId, limit) && Unchanging(ts, t) && !(1 <= limit <= MAX_PAGE)
    ensures |ps| == 1 && Flatten(ps) == ps[0] && IsPage(Chat(t, chatId), MAX_PAGE, ps[0])
  {
    assert Answered(ts, ps, chatId, limit, 0) && ts[0] == t;
    MorePagesMeanLimit(t, ts, ps, chatId, limit);
    assert ps[..0] == [] && Flatten(ps) == [] + ps[0];
  }

  /** A deleted cursor row ends the walk with an empty page, whatever is left below it. */
  lemma {:induction false} DeletedCursorEnds(t: Table, chatId: string, limit: int, cursor: nat, page: seq<Msg>)
    requires IsPage(Candidates(t, chatId, Some(cursor)), Clamp(limit), page)
    ensures page == [] <==> cursor !in t || forall m :: m in Chat(t, chatId) ==> !Before(m, t[cursor])
    ensures page == [] ==> !HasMore(page, limit)
  {
    var rows := Candidates(t, chatId, Some(cursor));
    if page == [] {
      assert forall m :: m in rows ==> m !in page;
      if cursor in t {
        forall m | m in Chat(t, chatId)
          ensures !Before(m, t[cursor])
        {
          assert Before(m, t[cursor]) ==> m in rows;
        }
      }
    } else {
      assert page[0] in rows;
    }
  }

  // ---- Walks cut short ----

  /** There was more to load, but the next request, answered from table t, finds its cursor row deleted. */
  ghost predicate Cut(rows: Table, ts: seq<Table>, ps: seq<seq<Msg>>, chatId: string, limit: int, t: Table) {
    && Walk(rows, ts, ps, chatId, limit) && HasMore(ps[|ps| - 1], limit)
    && Last(ps[|ps| - 1]).id !in t
  }

  /** What a walk with more to load has not returned of the permanent messages is what lies below its last page. */
  lemma {:induction false} UnfinishedWalk(rows: Table, ts: seq<Table>, ps: seq<seq<Msg>>, chatId: string, limit: int, m: Msg)
    requires Walk(rows, ts, ps, chatId, limit) && HasMore(ps[|ps| - 1], limit) && Permanent(ts, chatId, m)
    ensures m in Flatten(ps) <==> !Below(m, ps[|ps| - 1])
  {
    NoneSkipped(rows, ts, ps, chatId, limit, m);
    if m in Flatten(ps) {
      WalkDescends(rows, ts, ps, chatId, limit);
      assert m == Last(ps[|ps| - 1]) || Before(Last(ps[|ps| - 1]), m);
      assert ps[|ps| - 1][|ps[|ps| - 1]| - 1] == Last(ps[|ps| - 1]);
    }
  }

  /**
   * A deleted cursor row ends the walk with an empty page. The walk has then missed exactly the permanent messages
   * below its last full page; it is complete if and only if there are none.
   */
  lemma {:induction false} CutWalkMisses(
    rows: Table, ts: seq<Table>, ps: seq<seq<Msg>>, chatId: string, limit: int, t: Table, page: seq<Msg>)
    requires Cut(rows, ts, ps, chatId, limit, t)
    requires IsPage(Candidates(t, chatId, Some(Last(ps[|ps| - 1]).id)), Clamp(limit), page)
    ensures page == [] && !HasMore(page, limit)
    ensures forall m :: Permanent(ts + [t], chatId, m) ==> (m in Flatten(ps + [page]) <==> !Below(m, ps[|ps| - 1]))
    ensures (forall m :: Permanent(ts + [t], chatId, m) ==> m in Flatten(ps + [page]))
            <==> (forall m :: Permanent(ts + [t], chatId, m) ==> !Below(m, ps[|ps| - 1]))
  {
    DeletedCursorEnds(t, chatId, limit, Last(ps[|ps| - 1]).id, page);
    FlattenSnoc(ps, page);
    forall m | Permanent(ts + [t], chatId, m)
      ensures m in Flatten(ps + [page]) <==> !Below(m, ps[|ps| - 1])
    {
      assert forall i :: 0 <= i < |ts| ==> (ts + [t])[i] == ts[i];
      UnfinishedWalk(rows, ts, ps, chatId, limit, m);
    }
  }

  // ---- The client ----

  function Reverse(s: seq<Msg>): seq<Msg> {
    if s == [] then [] else Reverse(s[1..]) + [s[0]]
  }

  lemma {:induction false} ReverseAt(s: seq<Msg>, i: nat)
    requires i < |s|
    ensures |Reverse(s)| == |s| && Reverse(s)[i] == s[|s| - 1 - i]
    decreases |s|
  {
    if |s| == 1 {
      assert Reverse(s[1..]) == [];
    } else if i < |s| - 1 {
      ReverseAt(s[1..], i);
    } else {
      ReverseAt(s[1..], 0);
    }
  }

  lemma {:induction false} ReverseAppend(a: seq<Msg>, b: seq<Msg>)
    ensures Reverse(a + b) == Reverse(b) + Reverse(a)
    decreases |a|
  {
    if a == [] {
      assert a + b == b;
    } else {
      assert (a + b)[0] == a[0] && (a + b)[1..] == a[1..] + b;
      ReverseAppend(a[1..], b);
    }
  }

  lemma {:induction false} FlattenSnoc(ps: seq<seq<Msg>>, page: seq<Msg>)
    ensures Flatten(ps + [page]) == Flatten(ps) + page
  {
    assert (ps + [page])[..|ps|] == ps;
  }

  /**
   * The list of a chat window, without real-time events. The ghost fields record the walk so far: the rows
   * that ever existed, and the table and page of each request.
   */
  class ChatWindow {
    const chatId: string
    const userId: string
    var messages: seq<Msg>
    var hasMore: bool
    ghost const rows: Table
    ghost var tables: seq<Table>
    ghost var pages: seq<seq<Msg>>
    /** The walk ended at a cursor row that had been deleted. */
    ghost var cut: bool

    /** The window shows the pages of a walk, oldest message first. */
    ghost predicate Valid()
      reads this
    {
      && chatId != "" && Contains(chatId, userId) && TableSound(rows)
      && messages == Reverse(Flatten(pages))
      && (pages != [] ==> Walk(rows, tables, pages, chatId, MAX_PAGE) && hasMore == (HasMore(pages[|pages| - 1], MAX_PAGE) && !cut))
      && (cut ==> pages != [] && HasMore(pages[|pages| - 1], MAX_PAGE))
    }

    constructor (chatId: string, userId: string, ghost rows: Table)
      requires chatId != "" && Contains(chatId, userId) && TableSound(rows)
      ensures Valid() && pages == [] && this.chatId == chatId && this.userId == userId && this.rows == rows
    {
      this.chatId, this.userId, this.messages, this.hasMore := chatId, userId, [], true;
      this.rows, this.pages, this.tables, this.cut := rows, [], [], false;
    }

    method LoadMessages(t: Table)
      requires Valid() && TableSound(t) && Among(t, rows)
      modifies this
      ensures Valid() && tables == [t] && |pages| == 1 && !cut
    {
      hide IsPage, Candidates, Walk, Reverse, Contains, HasMore;
      ContainsMeans(chatId, userId);
      var r := GetMessages(t, chatId, userId, MAX_PAGE, None);
      messages := Reverse(r.messages);
      hasMore := r.hasMore;
      tables, pages, cut := [t], [r.messages], false;
      FirstPage(rows, chatId, t, r.messages);
    }

    /**
     * One more page; the cursor is the oldest message shown, which is the server's next_message_id. If it has been
     * deleted meanwhile, the window stops paging.
     */
    method LoadMoreMessages(t: Table)
      requires Valid() && TableSound(t) && Among(t, rows)
      modifies this
      ensures Valid()
      ensures !old(hasMore) || old(pages) == [] ==>
                messages == old(messages) && pages == old(pages) && tables == old(tables) && hasMore == old(hasMore)
      ensures old(hasMore) && old(pages) != [] ==> old(messages) != []
      ensures old(hasMore) && old(pages) != [] && old(messages)[0].id in t ==>
                pages != [] && pages[..|pages| - 1] == old(pages) && tables == old(tables) + [t] && !cut
      ensures old(hasMore) && old(pages) != [] && old(messages)[0].id !in t ==>
                messages == old(messages) && pages == old(pages) && tables == old(tables) && !hasMore && cut
    {
      hide IsPage, Candidates, Walk, Reverse, Contains;
      ShownIfLoaded(pages);
      if !hasMore || |messages| == 0 {
        return;
      }
      OldestIsCursor(pages);
      ContainsMeans(chatId, userId);
      var r := GetMessages(t, chatId, userId, MAX_PAGE, Some(messages[0].id));
      if messages[0].id !in t {
        DeletedCursorEnds(t, chatId, MAX_PAGE, messages[0].id, r.messages);
        hasMore, cut := false, true;
        return;
      }
      WalkSnoc(rows, tables, pages, chatId, t, r.messages);
      FlattenSnoc(pages, r.messages);
      ReverseAppend(Flatten(pages), r.messages);
      tables, pages := tables + [t], pages + [r.messages];
      if |r.messages| == 0 {
        EmptyReversed(messages);
        hasMore := false;
        return;
      }
      messages := Reverse(r.messages) + messages;
      hasMore := r.hasMore;
    }
  }

  lemma {:induction false} EmptyReversed(s: seq<Msg>)
    ensures Reverse([]) + s == s
  {
  }

  lemma {:induction false} OldestIsCursor(ps: seq<seq<Msg>>)
    requires ps != [] && ps[|ps| - 1] != []
    ensures |Reverse(Flatten(ps))| > 0 && Reverse(Flatten(ps))[0] == Last(ps[|ps| - 1])
  {
    ReverseAt(Flatten(ps), 0);
  }

  lemma {:induction false} FirstPage(rows: Table, chatId: string, t: Table, page: seq<Msg>)
    requires TableSound(rows) && Among(t, rows) && IsPage(Candidates(t, chatId, None), MAX_PAGE, page)
    ensures Walk(rows, [t], [page], chatId, MAX_PAGE) && Flatten([page]) == page
  {
    assert Answered([t], [page], chatId, MAX_PAGE, 0);
    assert [page][..0] == [] && Flatten([]) + page == page;
  }

  lemma {:induction false} ShownIfLoaded(ps: seq<seq<Msg>>)
    ensures if ps == [] then Reverse(Flatten(ps)) == []
            else ps[|ps| - 1] != [] ==> |Reverse(Flatten(ps))| > 0
  {
    if ps != [] && ps[|ps| - 1] != [] {
      OldestIsCursor(ps);
    }
  }

  lemma {:induction false} WalkSnoc(rows: Table, ts: seq<Table>, ps: seq<seq<Msg>>, chatId: string, t: Table, page: seq<Msg>)
    requires Walk(rows, ts, ps, chatId, MAX_PAGE) && HasMore(ps[|ps| - 1], MAX_PAGE)
    requires TableSound(t) && Among(t, rows) && Last(ps[|ps| - 1]).id in t
    requires IsPage(Candidates(t, chatId, Some(Last(ps[|ps| - 1]).id)), MAX_PAGE, page)
    ensures Walk(rows, ts + [t], ps + [page], chatId, MAX_PAGE)
  {
    var ts', ps' := ts + [t], ps + [page];
    forall i: nat | i < |ps'|
      ensures Answered(ts', ps', chatId, MAX_PAGE, i)
    {
      assert CursorAt(ps', i) == CursorAt(ps, i);
      if i < |ps| {
        assert Answered(ts, ps, chatId, MAX_PAGE, i);
      }
    }
  }

  lemma {:induction false} ReverseSorts(s: seq<Msg>)
    requires Descending(s)
    ensures forall i, j :: 0 <= i < j < |Reverse(s)| ==> Before(Reverse(s)[i], Reverse(s)[j])
    ensures forall m :: m in Reverse(s) <==> m in s
  {
    var r := Reverse(s);
    ReverseLength(s);
    forall i, j | 0 <= i < j < |r|
      ensures Before(r[i], r[j])
    {
      ReverseAt(s, i);
      ReverseAt(s, j);
    }
    forall m | m in s
      ensures m in r
    {
      var i :| 0 <= i < |s| && s[i] == m;
      ReverseAt(s, |s| - 1 - i);
      assert r[|s| - 1 - i] == m;
    }
    forall m | m in r
      ensures m in s
    {
      var i :| 0 <= i < |r| && r[i] == m;
      ReverseAt(s, i);
    }
  }

  lemma {:induction false} ReverseLength(s: seq<Msg>)
    ensures |Reverse(s)| == |s|
  {
    if s != [] {
      ReverseAt(s, 0);
    }
  }

  /**
   * When the window has no more to load and the chat never changed, it shows the chat in ascending order,
   * after n / 50 + 1 requests.
   */
  lemma {:induction false} WindowIsComplete(w: ChatWindow)
    requires w.Valid() && w.pages != [] && !w.hasMore && !w.cut && Unchanging(w.tables, w.rows)
    ensures forall m :: m in w.messages <==> m.id in w.rows && w.rows[m.id] == m && m.chatId == w.chatId
    ensures |w.pages| == |Chat(w.rows, w.chatId)| / 50 + 1
    ensures forall i, j :: 0 <= i < j < |w.messages| ==> Before(w.messages[i], w.messages[j])
  {
    WalkCount(w.tables, w.pages, w.rows, w.chatId, MAX_PAGE);
    ReverseSorts(Flatten(w.pages));
  }

  /** A window whose walk was cut short shows, of the permanent messages, those no older than its oldest one. */
  lemma {:induction false} CutWindowMisses(w: ChatWindow, m: Msg)
    requires w.Valid() && w.cut && Permanent(w.tables, w.chatId, m)
    ensures w.messages != [] && (m in w.messages <==> !Before(m, w.messages[0]))
  {
    var last := w.pages[|w.pages| - 1];
    UnfinishedWalk(w.rows, w.tables, w.pages, w.chatId, MAX_PAGE, m);
    OldestIsCursor(w.pages);
    WalkDescends(w.rows, w.tables, w.pages, w.chatId, MAX_PAGE);
    ReverseSorts(Flatten(w.pages));
    assert Answered(w.tables, w.pages, w.chatId, MAX_PAGE, |w.pages| - 1);
    assert Below(m, last) <==> Before(m, Last(last)) by {
      assert forall k :: 0 <= k < |last| ==> last[k] == Last(last) || Before(Last(last), last[k]);
    }
  }
}
