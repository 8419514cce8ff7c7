/** User search by login prefix: the escaping of ILIKE patterns, given its meaning by a LIKE matcher. */
module Ilike {
  predicate Special(c: char) {
    c == '\\' || c == '%' || c == '_'
  }

  // ---- The escaper ----

  /** strings.ReplaceAll for a one-character old string. */
  function ReplaceAll(s: string, old_: char, new_: string): string {
    if s == "" then "" else (if s[0] == old_ then new_ else [s[0]]) + ReplaceAll(s[1..], old_, new_)
  }

  /** Three passes, each over the result of the one before. */
  method EscapeILIKE(s: string) returns (r: string)
    ensures r == Escaped(s) && Unescaped(r) == s
  {
    r := ReplaceAll(s, '\\', "\\\\");
    r := ReplaceAll(r, '%', "\\%");
    r := ReplaceAll(r, '_', "\\_");
    PassesAreOne(s);
    EscapeRoundTrip(s);
  }

  /** One pass over the characters: every special one gets a backslash. */
  function Escaped(s: string): string {
    if s == "" then "" else (if Special(s[0]) then ['\\', s[0]] else [s[0]]) + Escaped(s[1..])
  }

  function Unescaped(p: string): string {
    if p == "" then ""
    else if p[0] == '\\' && |p| > 1 then [p[1]] + Unescaped(p[2..])
    else [p[0]] + Unescaped(p[1..])
  }

  lemma {:induction false} ReplaceConcat(a: string, b: string, old_: char, new_: string)
    ensures ReplaceAll(a + b, old_, new_) == ReplaceAll(a, old_, new_) + ReplaceAll(b, old_, new_)
  {
    if a == "" {
      assert a + b == b;
    } else {
      assert (a + b)[0] == a[0] && (a + b)[1..] == a[1..] + b;
      ReplaceConcat(a[1..], b, old_, new_);
    }
  }

  lemma {:induction false} ReplaceOne(c: char, old_: char, new_: string)
    ensures ReplaceAll([c], old_, new_) == if c == old_ then new_ else [c]
  {
    assert [c][1..] == "";
    assert ReplaceAll("", old_, new_) == "";
  }

  lemma {:induction false} ReplaceTwo(c: char, d: char, old_: char, new_: string)
    ensures ReplaceAll([c, d], old_, new_) == (if c == old_ then new_ else [c]) + if d == old_ then new_ else [d]
  {
    assert [c, d] == [c] + [d];
    ReplaceConcat([c], [d], old_, new_);
    ReplaceOne(c, old_, new_);
    ReplaceOne(d, old_, new_);
  }

  /** No pass escapes a backslash an earlier pass put in, because the backslash pass comes first. */
  lemma {:induction false} PassesAreOne(s: string)
    ensures ReplaceAll(ReplaceAll(ReplaceAll(s, '\\', "\\\\"), '%', "\\%"), '_', "\\_") == Escaped(s)
  {
    if s != "" {
      PassesAreOne(s[1..]);
      var c, rest := s[0], ReplaceAll(s[1..], '\\', "\\\\");
      var head := if c == '\\' then "\\\\" else [c];
      var head2 := if c == '%' then "\\%" else head;
      ReplaceConcat(head, rest, '%', "\\%");
      ReplaceConcat(head2, ReplaceAll(rest, '%', "\\%"), '_', "\\_");
      ReplaceOne(c, '%', "\\%");
      ReplaceOne(c, '_', "\\_");
      ReplaceTwo('\\', '\\', '%', "\\%");
      ReplaceTwo('\\', '\\', '_', "\\_");
      ReplaceTwo('\\', '%', '_', "\\_");
    }
  }

  lemma {:induction false} EscapeRoundTrip(s: string)
    ensures Unescaped(Escaped(s)) == s
  {
    if s != "" {
      EscapeRoundTrip(s[1..]);
      var e := Escaped(s);
      if Special(s[0]) {
        assert e[0] == '\\' && e[1] == s[0] && e[2..] == Escaped(s[1..]);
      } else {
        assert e[0] == s[0] && e[1..] == Escaped(s[1..]);
      }
    }
  }

  /** Different logins are never searched by the same pattern. */
  lemma {:induction false} EscapeInjective(a: string, b: string)
    requires Escaped(a) == Escaped(b)
    ensures a == b
  {
    EscapeRoundTrip(a);
    EscapeRoundTrip(b);
  }

  // ---- The LIKE predicate ----

  datatype Match = Yes | No | BadPattern

  /** Section 8.5 of ISO/IEC 9075-2 with the backslash as escape: a pattern must not end in a lone one. */
  function Like(t: string, p: string): Match
    decreases |p|, |t|
  {
    if p == "" then (if t == "" then Yes else No)
    else if p[0] == '\\' then
      if |p| == 1 then BadPattern
      else if t != "" && t[0] == p[1] then Like(t[1..], p[2..]) else No
    else if p[0] == '%' then
      var skip := Like(t, p[1..]);
      if skip != No || t == "" then skip else Like(t[1..], p)
    else if t != "" && (p[0] == '_' || p[0] == t[0]) then Like(t[1..], p[1..])
    else No
  }

  /** "_" stands for one character, whichever it is. */
  lemma {:induction false} UnderscoreMeans(t: string, p: string)
    ensures Like(t, "_" + p) == if t == "" then No else Like(t[1..], p)
  {
    assert ("_" + p)[1..] == p;
  }

  /** A backslash takes the next character as it is; there must be one. */
  lemma {:induction false} BackslashMeans(t: string, c: char, p: string)
    ensures Like(t, ['\\', c] + p) == if t != "" && t[0] == c then Like(t[1..], p) else No
    ensures Like(t, "\\") == BadPattern
  {
    assert (['\\', c] + p)[2..] == p;
  }

  /** Any other character stands for itself, and the end for the end. */
  lemma {:induction false} PlainMeans(t: string, c: char, p: string)
    requires c != '\\' && c != '%' && c != '_'
    ensures Like(t, [c] + p) == if t != "" && t[0] == c then Like(t[1..], p) else No
    ensures Like(t, "") == if t == "" then Yes else No
  {
    assert ([c] + p)[1..] == p;
  }

  /** "%" stands for any text: the rest of the pattern must match some end of the text. */
  lemma {:induction false} PercentMeans(t: string, p: string)
    requires forall i :: 0 <= i <= |t| ==> Like(t[i..], p) != BadPattern
    ensures Like(t, "%" + p) == if exists i :: 0 <= i <= |t| && Like(t[i..], p) == Yes then Yes else No
    decreases |t|
  {
    assert ("%" + p)[1..] == p && t[0..] == t;
    if t != "" {
      assert forall i :: 0 <= i <= |t| - 1 ==> t[1..][i..] == t[i + 1..];
      PercentMeans(t[1..], p);
      assert forall i :: 1 <= i <= |t| ==> t[i..] == t[1..][i - 1..];
    }
  }

  /** ILIKE compares the folded text with the folded pattern. */
  function ILike(t: string, p: string, lower: char -> char): Match {
    Like(Fold(t, lower), Fold(p, lower))
  }

  function Fold(s: string, lower: char -> char): (r: string)
    ensures |r| == |s| && forall i :: 0 <= i < |s| ==> r[i] == lower(s[i])
  {
    if s == "" then "" else [lower(s[0])] + Fold(s[1..], lower)
  }

  /** Folding neither changes a special character nor produces one. */
  ghost predicate KeepsSpecials(lower: char -> char) {
    forall c :: (Special(c) || Special(lower(c))) ==> lower(c) == c
  }

  lemma {:induction false} FoldConcat(a: string, b: string, lower: char -> char)
    ensures Fold(a + b, lower) == Fold(a, lower) + Fold(b, lower)
  {
    var x, y := Fold(a + b, lower), Fold(a, lower) + Fold(b, lower);
    forall i | 0 <= i < |a + b|
      ensures x[i] == y[i]
    {
      assert (a + b)[i] == if i < |a| then a[i] else b[i - |a|];
    }
  }

  lemma {:induction false} FoldOne(c: char, lower: char -> char)
    ensures Fold([c], lower) == [lower(c)]
  {
  }

  lemma {:induction false} FoldEscaped(s: string, lower: char -> char)
    requires KeepsSpecials(lower)
    ensures Fold(Escaped(s), lower) == Escaped(Fold(s, lower))
  {
    if s != "" {
      FoldEscaped(s[1..], lower);
      FoldConcat(if Special(s[0]) then ['\\', s[0]] else [s[0]], Escaped(s[1..]), lower);
      assert Fold(s, lower) == [lower(s[0])] + Fold(s[1..], lower);
      assert Special(s[0]) <==> Special(lower(s[0]));
      assert Special('\\');
    }
  }

  lemma {:induction false} PercentMatchesAll(t: string)
    ensures Like(t, "%") == Yes
    decreases |t|
  {
    if t != "" {
      PercentMatchesAll(t[1..]);
    }
    assert "%"[1..] == "";
  }

  /** An escaped text followed by "%" matches exactly the texts it begins. */
  lemma {:induction false} EscapedMatchesPrefix(s: string, t: string)
    ensures Like(t, Escaped(s) + "%") == if s <= t then Yes else No
    decreases |s|
  {
    var p := Escaped(s) + "%";
    if s == "" {
      assert p == "%";
      PercentMatchesAll(t);
    } else {
      var rest := Escaped(s[1..]) + "%";
      if Special(s[0]) {
        assert p[0] == '\\' && p[1] == s[0] && p[2..] == rest;
      } else {
        assert p[0] == s[0] && p[1..] == rest;
      }
      if t != "" && t[0] == s[0] {
        EscapedMatchesPrefix(s[1..], t[1..]);
        assert s == [s[0]] + s[1..] && t == [t[0]] + t[1..];
        assert s <= t <==> s[1..] <= t[1..];
      }
    }
  }

  /** The pattern of a search matches a login exactly when the login begins with the searched text, up to case. */
  lemma {:induction false} SearchMeansPrefix(s: string, t: string, lower: char -> char)
    requires KeepsSpecials(lower)
    ensures ILike(t, Escaped(s) + "%", lower) == if Fold(s, lower) <= Fold(t, lower) then Yes else No
  {
    FoldConcat(Escaped(s), "%", lower);
    FoldEscaped(s, lower);
    FoldOne('%', lower);
    assert Special('%');
    EscapedMatchesPrefix(Fold(s, lower), Fold(t, lower));
  }

  /** The lower case of ASCII letters; the other characters are their own. */
  function AsciiLower(c: char): char {
    if 'A' <= c <= 'Z' then c + 32 as char else c
  }

  lemma {:induction false} AsciiSearch(s: string, t: string)
    ensures ILike(t, Escaped(s) + "%", AsciiLower) == if Fold(s, AsciiLower) <= Fold(t, AsciiLower) then Yes else No
  {
    SearchMeansPrefix(s, t, AsciiLower);
  }

  // ---- SearchUsers ----

  datatype User = User(id: string, login: string)

  const SEARCH_LIMIT := 10

  ghost predicate Found(u: User, login: string, lower: char -> char) {
    Fold(login, lower) <= Fold(u.login, lower)
  }

  /** The users found among the scanned rows, in scan order. */
  ghost function FoundIn(rows: seq<User>, login: string, lower: char -> char): (r: seq<User>)
    ensures forall u :: u in r <==> u in rows && Found(u, login, lower)
  {
    if rows == [] then []
    else
      var u := rows[|rows| - 1];
      FoundIn(rows[..|rows| - 1], login, lower) + if Found(u, login, lower) then [u] else []
  }

  lemma {:induction false} FoundInGrows(rows: seq<User>, n: nat, login: string, lower: char -> char)
    requires n <= |rows|
    ensures FoundIn(rows[..n], login, lower) <= FoundIn(rows, login, lower)
    decreases |rows|
  {
    if n < |rows| {
      FoundInGrows(rows[..|rows| - 1], n, login, lower);
      assert rows[..|rows| - 1][..n] == rows[..n];
    } else {
      assert rows[..n] == rows;
    }
  }

  /** No search fails on its pattern; it returns the users the text begins, the first ten the scan meets. */
  method SearchUsers(rows: seq<User>, login: string, lower: char -> char) returns (users: seq<User>)
    requires KeepsSpecials(lower)
    ensures users <= FoundIn(rows, login, lower)
    ensures |users| == if |FoundIn(rows, login, lower)| < 10 then |FoundIn(rows, login, lower)| else 10
    ensures forall u :: u in users ==> u in rows && Fold(login, lower) <= Fold(u.login, lower)
  {
    var escaped := EscapeILIKE(login);
    users := [];
    var i := 0;
    while i < |rows| && |users| < SEARCH_LIMIT
      invariant 0 <= i <= |rows| && |users| <= SEARCH_LIMIT
      invariant users == FoundIn(rows[..i], login, lower)
    {
      SearchMeansPrefix(login, rows[i].login, lower);
      assert rows[..i + 1][..i] == rows[..i];
      if ILike(rows[i].login, escaped + "%", lower) == Yes {
        users := users + [rows[i]];
      }
      i := i + 1;
    }
    FoundInGrows(rows, i, login, lower);
    assert i == |rows| ==> rows[..i] == rows;
  }
}
