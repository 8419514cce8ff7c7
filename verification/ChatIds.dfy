/** The identifier of a direct chat: in Go a sorted pair of user ids, in SQL a CASE over UUIDs. */
module ChatIds {
  import opened Texts

  /** Strict lexicographic order of strings, as sort.Strings compares them. */
  predicate Less(a: string, b: string) {
    if b == "" then false
    else if a == "" then true
    else if a[0] != b[0] then a[0] < b[0]
    else Less(a[1..], b[1..])
  }

  /** service.go: sort the two ids and join them with a colon. */
  function ChatId(a: string, b: string): string {
    if Less(b, a) then b + ":" + a else a + ":" + b
  }

  lemma {:induction false} LessIsTotal(a: string, b: string)
    ensures a == b || Less(a, b) || Less(b, a)
    ensures !(Less(a, b) && Less(b, a))
    decreases |a|
  {
    if a != "" && b != "" && a[0] == b[0] {
      LessIsTotal(a[1..], b[1..]);
      assert a == [a[0]] + a[1..] && b == [b[0]] + b[1..];
    }
  }

  /** The order is the dictionary's: the first difference decides, and a proper prefix comes first. */
  lemma {:induction false} LessMeans(a: string, b: string)
    ensures Less(a, b) <==> exists k :: DiffersAt(a, b, k)
  {
    if a != "" && b != "" && a[0] == b[0] {
      LessMeans(a[1..], b[1..]);
      forall k: nat | DiffersAt(a[1..], b[1..], k)
        ensures DiffersAt(a, b, k + 1)
      {
        assert a[..k + 1] == [a[0]] + a[1..][..k] && b[..k + 1] == [b[0]] + b[1..][..k];
      }
      forall k: nat | DiffersAt(a, b, k)
        ensures k > 0 && DiffersAt(a[1..], b[1..], k - 1)
      {
        if k > 0 {
          assert a[1..][..k - 1] == a[..k][1..] && b[1..][..k - 1] == b[..k][1..];
        }
      }
      if Less(a, b) {
        var k: nat :| DiffersAt(a[1..], b[1..], k);
        assert DiffersAt(a, b, k + 1);
      }
    } else if Less(a, b) {
      assert DiffersAt(a, b, 0);
    } else {
      forall k: nat
        ensures !DiffersAt(a, b, k)
      {
        SameHead(a, b, k);
      }
    }
  }

  lemma {:induction false} SameHead(a: string, b: string, k: nat)
    ensures 0 < k <= |a| && k <= |b| && a[..k] == b[..k] ==> a[0] == b[0]
  {
    if 0 < k <= |a| && k <= |b| && a[..k] == b[..k] {
      assert a[..k][0] == a[0] && b[..k][0] == b[0];
    }
  }

  predicate DiffersAt(a: string, b: string, k: nat) {
    k <= |a| && k < |b| && a[..k] == b[..k] && (k == |a| || a[k] < b[k])
  }

  /** The two ids in order, with a colon between them. */
  lemma {:induction false} ChatIdIsSorted(a: string, b: string)
    ensures ChatId(a, b) == (if Less(a, b) then a + ":" + b else b + ":" + a)
  {
    LessIsTotal(a, b);
  }

  /** Either participant computes the same chat id. */
  lemma Symmetric(a: string, b: string)
    ensures ChatId(a, b) == ChatId(b, a)
  {
    LessIsTotal(a, b);
  }

  /** Two pairs of colon-free ids share a chat id exactly when they are the same unordered pair. */
  lemma InjectiveOnPairs(a: string, b: string, x: string, y: string)
    requires ':' !in a && ':' !in b && ':' !in x && ':' !in y
    ensures ChatId(a, b) == ChatId(x, y) <==> (a == x && b == y) || (a == y && b == x)
  {
    if ChatId(a, b) == ChatId(x, y) {
      var lo, hi := if Less(b, a) then b else a, if Less(b, a) then a else b;
      var lo', hi' := if Less(y, x) then y else x, if Less(y, x) then x else y;
      ColonSplits(lo, hi, lo', hi');
    }
    Symmetric(a, b);
  }

  // ---- UUID columns ----

  predicate BytesLess(u: seq<Byte>, v: seq<Byte>) {
    if v == [] then false
    else if u == [] then true
    else if u[0] != v[0] then u[0] < v[0]
    else BytesLess(u[1..], v[1..])
  }

  predicate HyphenBefore(i: nat) {
    i == 4 || i == 6 || i == 8 || i == 10
  }

  /** The canonical text of the bytes of a UUID from position i on: hyphens before bytes 4, 6, 8 and 10. */
  function PrintFrom(u: seq<Byte>, i: nat): string
    requires i <= |u|
    decreases |u| - i
  {
    if i == |u| then ""
    else if HyphenBefore(i) then "-" + (Hex2(u[i]) + PrintFrom(u, i + 1))
    else Hex2(u[i]) + PrintFrom(u, i + 1)
  }

  function Print(u: seq<Byte>): string {
    PrintFrom(u, 0)
  }

  function Digits(u: seq<Byte>): string {
    if u == [] then "" else Hex2(u[0]) + Digits(u[1..])
  }

  lemma {:induction false} PrintGroup(u: seq<Byte>, i: nat, j: nat)
    requires i <= j <= |u| && forall k :: i <= k < j ==> !HyphenBefore(k)
    ensures PrintFrom(u, i) == Digits(u[i..j]) + PrintFrom(u, j)
    decreases j - i
  {
    if i < j {
      PrintGroup(u, i + 1, j);
      assert u[i..j][1..] == u[i + 1..j];
      assert Hex2(u[i]) + (Digits(u[i + 1..j]) + PrintFrom(u, j)) == (Hex2(u[i]) + Digits(u[i + 1..j])) + PrintFrom(u, j);
    } else {
      assert u[i..j] == [];
    }
  }

  lemma {:induction false} HyphenGroup(u: seq<Byte>, i: nat, j: nat)
    requires i < j <= |u| && HyphenBefore(i) && forall k :: i < k < j ==> !HyphenBefore(k)
    ensures PrintFrom(u, i) == "-" + Digits(u[i..j]) + PrintFrom(u, j)
  {
    PrintGroup(u, i + 1, j);
    DigitsHead(u[i..j]);
    assert u[i..j][1..] == u[i + 1..j] && u[i..j][0] == u[i];
    var h, d, rest := Hex2(u[i]), Digits(u[i + 1..j]), PrintFrom(u, j);
    assert PrintFrom(u, i) == "-" + (h + PrintFrom(u, i + 1));
    hide Digits, Hex2, PrintFrom;
    Joined("-", h, d, rest);
  }

  lemma {:induction false} DigitsHead(u: seq<Byte>)
    requires u != []
    ensures Digits(u) == Hex2(u[0]) + Digits(u[1..])
  {
  }

  lemma {:induction false} Joined(a: string, b: string, c: string, d: string)
    ensures a + (b + (c + d)) == a + (b + c) + d
  {
  }

  /** The canonical text of section 4 of RFC 9562: groups of 8, 4, 4, 4 and 12 digits. */
  lemma {:induction false} PrintMeans(u: seq<Byte>)
    requires |u| == 16
    ensures Print(u) == Digits(u[..4]) + ("-" + Digits(u[4..6]) + ("-" + Digits(u[6..8]) + ("-" + Digits(u[8..10])
                        + ("-" + Digits(u[10..])))))
  {
    hide Digits, PrintFrom;
    PrintGroup(u, 0, 4);
    HyphenGroup(u, 4, 6);
    HyphenGroup(u, 6, 8);
    HyphenGroup(u, 8, 10);
    HyphenGroup(u, 10, 16);
    NothingLeft(u);
    assert u[10..16] == u[10..] && u[0..4] == u[..4];
    assert "-" + Digits(u[10..]) + "" == "-" + Digits(u[10..]);
  }

  lemma {:induction false} NothingLeft(u: seq<Byte>)
    ensures PrintFrom(u, |u|) == ""
  {
  }

  /** postgres.go: the CASE of GetChats, comparing the UUID columns themselves. */
  function SqlChatId(userId: seq<Byte>, companionId: seq<Byte>): string {
    if BytesLess(userId, companionId)
    then Print(userId) + ":" + Print(companionId)
    else Print(companionId) + ":" + Print(userId)
  }

  lemma HexDigitOrder(m: int, n: int)
    requires 0 <= m < 16 && 0 <= n < 16
    ensures HexDigit(m) < HexDigit(n) <==> m < n
    ensures HexDigit(m) == HexDigit(n) <==> m == n
  {
    assert forall k :: 0 <= k < 10 ==> HexDigit(k) as int == '0' as int + k;
    assert forall k :: 10 <= k < 16 ==> HexDigit(k) as int == 'a' as int + k - 10;
  }

  lemma {:induction false} SharedHead(h: char, a: string, b: string)
    ensures Less([h] + a, [h] + b) <==> Less(a, b)
  {
    assert ([h] + a)[1..] == a && ([h] + b)[1..] == b;
  }

  lemma {:induction false} Hex2Order(b: Byte, c: Byte, x: string, y: string)
    ensures Less(Hex2(b) + x, Hex2(c) + y) <==> b < c || (b == c && Less(x, y))
  {
    HexDigitOrder(b / 16, c / 16);
    HexDigitOrder(b % 16, c % 16);
    assert (Hex2(b) + x)[1..] == [HexDigit(b % 16)] + x;
    assert (Hex2(c) + y)[1..] == [HexDigit(c % 16)] + y;
    assert ([HexDigit(b % 16)] + x)[1..] == x && ([HexDigit(c % 16)] + y)[1..] == y;
  }

  lemma {:induction false} PrintStep(u: seq<Byte>, v: seq<Byte>, i: nat)
    requires |u| == |v| && i < |u|
    ensures Less(PrintFrom(u, i), PrintFrom(v, i)) <==>
            u[i] < v[i] || (u[i] == v[i] && Less(PrintFrom(u, i + 1), PrintFrom(v, i + 1)))
  {
    var p, q := Hex2(u[i]) + PrintFrom(u, i + 1), Hex2(v[i]) + PrintFrom(v, i + 1);
    Hex2Order(u[i], v[i], PrintFrom(u, i + 1), PrintFrom(v, i + 1));
    if HyphenBefore(i) {
      SharedHead('-', p, q);
    }
  }

  /** Hexadecimal printing with the hyphens preserves the byte order. */
  lemma {:induction false} PrintKeepsOrder(u: seq<Byte>, v: seq<Byte>, i: nat)
    requires |u| == |v| && i <= |u|
    ensures Less(PrintFrom(u, i), PrintFrom(v, i)) <==> BytesLess(u[i..], v[i..])
    decreases |u| - i
  {
    if i < |u| {
      PrintStep(u, v, i);
      PrintKeepsOrder(u, v, i + 1);
      assert u[i..][1..] == u[i + 1..] && v[i..][1..] == v[i + 1..];
    }
  }

  lemma {:induction false} PrintHasNoColon(u: seq<Byte>, i: nat)
    requires i <= |u|
    ensures ':' !in PrintFrom(u, i)
    decreases |u| - i
  {
    if i < |u| {
      PrintHasNoColon(u, i + 1);
    }
  }

  /** The CASE in SQL and the sort in Go name the same chat, for all UUIDs. */
  lemma SqlAgreesWithGo(u: seq<Byte>, v: seq<Byte>)
    requires |u| == |v| == 16
    ensures SqlChatId(u, v) == ChatId(Print(u), Print(v))
  {
    PrintKeepsOrder(u, v, 0);
    PrintKeepsOrder(v, u, 0);
    assert u[0..] == u && v[0..] == v;
    LessIsTotal(Print(u), Print(v));
  }

  /** Hence the SQL id names one unordered pair of UUIDs. */
  lemma {:induction false} PrintInjective(u: seq<Byte>, v: seq<Byte>, i: nat)
    requires |u| == |v| && i <= |u| && PrintFrom(u, i) == PrintFrom(v, i)
    ensures u[i..] == v[i..]
    decreases |u| - i
  {
    if i < |u| {
      var h := if HyphenBefore(i) then 1 else 0;
      var s, t := PrintFrom(u, i), PrintFrom(v, i);
      assert s[h] == HexDigit(u[i] / 16) && s[h + 1] == HexDigit(u[i] % 16) && s[h + 2..] == PrintFrom(u, i + 1);
      assert t[h] == HexDigit(v[i] / 16) && t[h + 1] == HexDigit(v[i] % 16) && t[h + 2..] == PrintFrom(v, i + 1);
      HexDigitOrder(u[i] / 16, v[i] / 16);
      HexDigitOrder(u[i] % 16, v[i] % 16);
      PrintInjective(u, v, i + 1);
      assert u[i..] == [u[i]] + u[i + 1..] && v[i..] == [v[i]] + v[i + 1..];
    }
  }

  lemma SqlChatIdInjective(a: seq<Byte>, b: seq<Byte>, x: seq<Byte>, y: seq<Byte>)
    requires |a| == |b| == |x| == |y| == 16
    ensures SqlChatId(a, b) == SqlChatId(x, y) <==> (a == x && b == y) || (a == y && b == x)
  {
    SqlAgreesWithGo(a, b);
    SqlAgreesWithGo(x, y);
    PrintHasNoColon(a, 0);
    PrintHasNoColon(b, 0);
    PrintHasNoColon(x, 0);
    PrintHasNoColon(y, 0);
    InjectiveOnPairs(Print(a), Print(b), Print(x), Print(y));
    forall u, v | u in {a, b, x, y} && v in {a, b, x, y} && Print(u) == Print(v)
      ensures u == v
    {
      PrintInjective(u, v, 0);
      assert u[0..] == u && v[0..] == v;
    }
  }
}
