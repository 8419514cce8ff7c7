/** Hexadecimal and base64 text of byte arrays, as the client's helpers and the browser's btoa and atob define it. */
module Codec {
  import opened Options
  import Texts

  type Byte = Texts.Byte

  // ---- Hexadecimal ----

  function ToHex(bytes: seq<Byte>): (s: string)
    ensures |s| == 2 * |bytes|
  {
    if bytes == [] then "" else Texts.Hex2(bytes[0]) + ToHex(bytes[1..])
  }

  predicate IsHex(c: char) {
    '0' <= c <= '9' || 'a' <= c <= 'f' || 'A' <= c <= 'F'
  }

  function HexValue(c: char): (n: int)
    requires IsHex(c)
    ensures 0 <= n < 16
  {
    if c <= '9' then c as int - '0' as int
    else if c <= 'F' then c as int - 'A' as int + 10
    else c as int - 'a' as int + 10
  }

  /** White space and line terminators of ECMAScript. */
  predicate IsSpace(c: char) {
    || '\t' <= c <= '\r' || c == ' ' || c as int in {0xA0, 0x1680, 0x2028, 0x2029, 0x202F, 0x205F, 0x3000, 0xFEFF}
    || 0x2000 <= c as int <= 0x200A
  }

  /** The digits a text begins with, in base 16, after n. */
  function HexPrefix(s: string, n: int): int {
    if s != "" && IsHex(s[0]) then HexPrefix(s[1..], 16 * n + HexValue(s[0])) else n
  }

  function Trimmed(s: string): string {
    if s != "" && IsSpace(s[0]) then Trimmed(s[1..]) else s
  }

  function Unprefixed(s: string): string {
    if |s| >= 2 && s[0] == '0' && (s[1] == 'x' || s[1] == 'X') then s[2..] else s
  }

  /** parseInt with radix 16 of ECMAScript: white space, a sign, 0x, then as many digits as there are; None is NaN. */
  function ParseInt16(s: string): Option<int> {
    var t := Trimmed(s);
    var signed := t != "" && (t[0] == '+' || t[0] == '-');
    var digits := Unprefixed(if signed then t[1..] else t);
    if digits == "" || !IsHex(digits[0]) then None
    else Some(if signed && t[0] == '-' then -HexPrefix(digits, 0) else HexPrefix(digits, 0))
  }

  /** Storing a number in a Uint8Array: modulo 256, and NaN as 0. */
  function ToUint8(n: Option<int>): Byte {
    match n
    case None => 0
    case Some(i) => i % 256
  }

  lemma {:induction false} PairIsParseInt(a: char, b: char)
    ensures PairValue(a, b) == ToUint8(ParseInt16([a, b]))
  {
    OneDigit(b);
    TwoDigits(a, b);
    hide HexPrefix, Trimmed;
    assert [a, b][1..] == [b] && [a, b][2..] == "";
  }

  lemma {:induction false} TwoDigits(a: char, b: char)
    ensures HexPrefix([a, b], 0) == if !IsHex(a) then 0 else if IsHex(b) then 16 * HexValue(a) + HexValue(b) else HexValue(a)
    ensures Trimmed([a, b]) == if IsSpace(a) then Trimmed([b]) else [a, b]
  {
    OneDigit(b);
    assert [a, b][1..] == [b];
  }

  lemma {:induction false} OneDigit(b: char)
    ensures forall n :: HexPrefix([b], n) == if IsHex(b) then 16 * n + HexValue(b) else n
    ensures Trimmed([b]) == if IsSpace(b) then "" else [b]
  {
    assert [b][1..] == "";
    assert forall n :: HexPrefix("", n) == n;
  }

  /** The bytes of a text are what parseInt makes of its pairs. */
  lemma {:induction false} HexPairsParse(s: string, k: nat)
    requires k < |s| / 2
    ensures HexPairs(s)[k] == ToUint8(ParseInt16([s[2 * k], s[2 * k + 1]]))
  {
    HexPairsAt(s, k);
    PairIsParseInt(s[2 * k], s[2 * k + 1]);
  }

  /** parseInt of two characters in base 16, stored in a byte: NaN is stored as 0, and -n as 256 - n. */
  function PairValue(a: char, b: char): Byte {
    if IsHex(a) then (if IsHex(b) then 16 * HexValue(a) + HexValue(b) else HexValue(a))
    else if !IsHex(b) then 0
    else if a == '-' then (256 - HexValue(b)) % 256
    else if a == '+' || IsSpace(a) then HexValue(b)
    else 0
  }

  /** The bytes of the whole pairs of a text. */
  function HexPairs(s: string): (r: seq<Byte>)
    ensures |r| == |s| / 2
  {
    if |s| < 2 then [] else [PairValue(s[0], s[1])] + HexPairs(s[2..])
  }

  lemma {:induction false} HexPairsAt(s: string, k: nat)
    requires k < |s| / 2
    ensures HexPairs(s)[k] == PairValue(s[2 * k], s[2 * k + 1])
    decreases |s|
  {
    if k > 0 {
      HexPairsAt(s[2..], k - 1);
    }
  }

  /** The last character of a text of odd length falls outside the array and is lost. */
  method FromHex(hex: string) returns (bytes: array<Byte>)
    ensures fresh(bytes) && bytes[..] == HexPairs(hex)
  {
    hide HexPairs, ParseInt16, ToUint8;
    bytes := new Byte[|hex| / 2];
    var i := 0;
    while i < |hex|
      invariant 0 <= i <= |hex| + 1 && i % 2 == 0
      invariant forall k :: 0 <= k < i / 2 && k < bytes.Length ==> bytes[k] == HexPairs(hex)[k]
    {
      if i + 1 < |hex| {
        HexPairsParse(hex, i / 2);
        bytes[i / 2] := ToUint8(ParseInt16([hex[i], hex[i + 1]]));
      }
      i := i + 2;
    }
  }

  lemma {:induction false} PairOfHex(b: Byte)
    ensures PairValue(Texts.Hex2(b)[0], Texts.Hex2(b)[1]) == b
  {
    HexDigitValue(b / 16);
    HexDigitValue(b % 16);
  }

  lemma {:induction false} HexDigitValue(n: int)
    requires 0 <= n < 16
    ensures var c := Texts.HexDigit(n); IsHex(c) && HexValue(c) == n && LowerHex(c) == c
    ensures Texts.HexDigit(n) == if n < 10 then '0' + n as char else 'a' + (n - 10) as char
  {
  }

  lemma {:induction false} HexRoundTrip(bytes: seq<Byte>)
    ensures HexPairs(ToHex(bytes)) == bytes
  {
    if bytes != [] {
      HexRoundTrip(bytes[1..]);
      PairOfHex(bytes[0]);
      assert ToHex(bytes)[2..] == ToHex(bytes[1..]);
    }
  }

  function LowerHex(c: char): char {
    if 'A' <= c <= 'Z' then c + 32 as char else c
  }

  function Lowered(s: string): (r: string)
    ensures |r| == |s| && forall i :: 0 <= i < |s| ==> r[i] == LowerHex(s[i])
  {
    if s == "" then "" else [LowerHex(s[0])] + Lowered(s[1..])
  }

  ghost predicate AllHex(s: string) {
    forall i :: 0 <= i < |s| ==> IsHex(s[i])
  }

  lemma {:induction false} HexOfPair(a: char, b: char)
    ensures Texts.Hex2(PairValue(a, b)) == [LowerHex(a), LowerHex(b)] <==> IsHex(a) && IsHex(b)
  {
    var v := PairValue(a, b);
    HexDigitValue(v / 16);
    HexDigitValue(v % 16);
    assert IsHex(LowerHex(a)) <==> IsHex(a);
    assert IsHex(LowerHex(b)) <==> IsHex(b);
    if IsHex(a) && IsHex(b) {
      assert v / 16 == HexValue(a) && v % 16 == HexValue(b);
    }
  }

  /** Going the other way gives the text back in lower case exactly when it is hexadecimal and of even length. */
  lemma {:induction false} HexBackAndForth(s: string)
    ensures ToHex(HexPairs(s)) == Lowered(s) <==> |s| % 2 == 0 && AllHex(s)
  {
    if |s| >= 2 {
      HexBackAndForth(s[2..]);
      HexOfPair(s[0], s[1]);
      var x, y := ToHex(HexPairs(s)), Lowered(s);
      assert x[..2] == Texts.Hex2(PairValue(s[0], s[1])) && x[2..] == ToHex(HexPairs(s[2..]));
      assert y[..2] == [LowerHex(s[0]), LowerHex(s[1])] && y[2..] == Lowered(s[2..]);
      assert x == x[..2] + x[2..] && y == y[..2] + y[2..];
      assert AllHex(s) <==> IsHex(s[0]) && IsHex(s[1]) && AllHex(s[2..]) by {
        assert forall i :: 2 <= i < |s| ==> s[i] == s[2..][i - 2];
      }
    }
  }

  // ---- Base64 (section 4 of RFC 4648) ----

  function Digit64(n: int): char
    requires 0 <= n < 64
  {
    if n < 26 then 'A' + n as char
    else if n < 52 then 'a' + (n - 26) as char
    else if n < 62 then '0' + (n - 52) as char
    else if n == 62 then '+' else '/'
  }

  function Value64(c: char): (v: Option<int>)
    ensures v.Some? ==> 0 <= v.value < 64
  {
    if 'A' <= c <= 'Z' then Some(c as int - 'A' as int)
    else if 'a' <= c <= 'z' then Some(c as int - 'a' as int + 26)
    else if '0' <= c <= '9' then Some(c as int - '0' as int + 52)
    else if c == '+' then Some(62)
    else if c == '/' then Some(63)
    else None
  }

  lemma {:induction false} DigitValue(n: int)
    requires 0 <= n < 64
    ensures Value64(Digit64(n)) == Some(n) && Digit64(n) != '=' && !AsciiSpace(Digit64(n))
  {
  }

  function Encode64(b: seq<Byte>): string {
    if b == [] then ""
    else if |b| == 1 then
      [Digit64(b[0] / 4), Digit64(b[0] % 4 * 16), '=', '=']
    else if |b| == 2 then
      [Digit64(b[0] / 4), Digit64(b[0] % 4 * 16 + b[1] / 16), Digit64(b[1] % 16 * 4), '=']
    else
      [Digit64(b[0] / 4), Digit64(b[0] % 4 * 16 + b[1] / 16), Digit64(b[1] % 16 * 4 + b[2] / 64), Digit64(b[2] % 64)]
      + Encode64(b[3..])
  }

  predicate AsciiSpace(c: char) {
    c == '\t' || c == '\n' || c as int == 0x0C || c == '\r' || c == ' '
  }

  function Stripped(s: string): string {
    if s == "" then "" else (if AsciiSpace(s[0]) then "" else [s[0]]) + Stripped(s[1..])
  }

  /** Padding is optional: it is dropped when it completes a group of four. */
  function Unpadded(s: string): string {
    if |s| == 0 || |s| % 4 != 0 || s[|s| - 1] != '=' then s
    else if s[|s| - 2] != '=' then s[..|s| - 1]
    else s[..|s| - 2]
  }

  /** Groups of four digits; of the last one, the bits that make no whole byte are dropped. */
  function Decode64(s: string): Option<seq<Byte>> {
    if s == "" then Some([])
    else if |s| == 1 || Value64(s[0]).None? || Value64(s[1]).None? then None
    else
      var v, w := Value64(s[0]).value, Value64(s[1]).value;
      var first := v * 4 + w / 16;
      if |s| == 2 then Some([first])
      else if Value64(s[2]).None? then None
      else
        var x := Value64(s[2]).value;
        var second := w % 16 * 16 + x / 4;
        if |s| == 3 then Some([first, second])
        else if Value64(s[3]).None? then None
        else
          match Decode64(s[4..])
          case None => None
          case Some(rest) => Some([first, second, x % 4 * 64 + Value64(s[3]).value] + rest)
  }

  /** The forgiving decoding of the WHATWG Infra standard. */
  function Atob64(s: string): Option<seq<Byte>> {
    Decode64(Unpadded(Stripped(s)))
  }

  /** The encoding without its padding. */
  ghost function Digits64(b: seq<Byte>): (s: string)
    ensures |s| % 4 != 1
  {
    if b == [] then ""
    else if |b| == 1 then Encode64(b)[..2]
    else if |b| == 2 then Encode64(b)[..3]
    else Encode64(b)[..4] + Digits64(b[3..])
  }

  lemma {:induction false} EncodeShape(b: seq<Byte>)
    ensures |Encode64(b)| % 4 == 0 && (b != [] ==> |Encode64(b)| >= 4)
    ensures forall i :: 0 <= i < |Encode64(b)| ==> !AsciiSpace(Encode64(b)[i])
  {
    hide Digit64, AsciiSpace, Value64, Encode64;
    EncodeParts(b);
    if b != [] {
      Group(b);
      if |b| >= 3 {
        EncodeShape(b[3..]);
      }
    }
  }

  /** The text is empty, one group, or a group and the text of the other bytes. */
  lemma {:induction false} EncodeParts(b: seq<Byte>)
    ensures b == [] ==> Encode64(b) == ""
    ensures 1 <= |b| <= 2 ==> |Encode64(b)| == 4
    ensures |b| >= 3 ==>
              && |Encode64(b)| == 4 + |Encode64(b[3..])|
              && forall i :: 4 <= i < |Encode64(b)| ==> Encode64(b)[i] == Encode64(b[3..])[i - 4]
  {
    hide Digit64;
  }

  lemma {:induction false} NothingStripped(s: string)
    requires forall i :: 0 <= i < |s| ==> !AsciiSpace(s[i])
    ensures Stripped(s) == s
  {
    if s != "" {
      NothingStripped(s[1..]);
    }
  }

  lemma {:induction false} UnpadGroup(head: string, rest: string)
    requires |head| == 4 && |rest| % 4 == 0 && (rest == "" ==> head[3] != '=')
    ensures Unpadded(head + rest) == head + Unpadded(rest)
  {
    var s, n := head + rest, |rest|;
    if rest == "" {
      assert s == head;
    } else {
      assert s[|s| - 1] == rest[n - 1] && s[|s| - 2] == rest[n - 2];
      if rest[n - 1] == '=' && rest[n - 2] == '=' {
        assert s[..|s| - 2] == head + rest[..n - 2];
      } else if rest[n - 1] == '=' {
        assert s[..|s| - 1] == head + rest[..n - 1];
      }
    }
  }

  lemma {:induction false} EncodeUnpadded(b: seq<Byte>)
    ensures Unpadded(Encode64(b)) == Digits64(b)
  {
    hide Digit64, AsciiSpace, Value64;
    if b != [] {
      Group(b);
      if |b| >= 3 {
        EncodeUnpadded(b[3..]);
        EncodeShape(b[3..]);
        var e, rest := Encode64(b), Encode64(b[3..]);
        assert e == e[..4] + rest;
        UnpadGroup(e[..4], rest);
      }
    }
  }

  /** The characters of the first group. */
  lemma {:induction false} Group(b: seq<Byte>)
    requires b != []
    ensures var e := Encode64(b); |e| >= 4 && forall k :: 0 <= k < 4 ==> !AsciiSpace(e[k])
    ensures var e := Encode64(b); Value64(e[0]) == Some(b[0] / 4)
    ensures var e := Encode64(b); Value64(e[1]) == Some(b[0] % 4 * 16 + if |b| > 1 then b[1] / 16 else 0)
    ensures var e := Encode64(b); |b| > 1 ==> Value64(e[2]) == Some(b[1] % 16 * 4 + if |b| > 2 then b[2] / 64 else 0)
    ensures var e := Encode64(b); |b| > 2 ==> Value64(e[3]) == Some(b[2] % 64) && e[3] != '='
    ensures var e := Encode64(b); |b| <= 2 ==> e[3] == '=' && (e[2] == '=' <==> |b| == 1)
  {
    DigitValue(b[0] / 4);
    DigitValue(b[0] % 4 * 16 + if |b| > 1 then b[1] / 16 else 0);
    if |b| > 1 {
      DigitValue(b[1] % 16 * 4 + if |b| > 2 then b[2] / 64 else 0);
    }
    if |b| > 2 {
      DigitValue(b[2] % 64);
    }
  }

  /** Three bytes are four groups of six bits. */
  lemma {:induction false} ThreeBytes(x: Byte, y: Byte, z: Byte)
    ensures var w := x % 4 * 16 + y / 16; x / 4 * 4 + w / 16 == x && w % 16 * 16 + (y % 16 * 4 + z / 64) / 4 == y
    ensures (y % 16 * 4 + z / 64) % 4 * 64 + z % 64 == z
  {
  }

  lemma {:induction false} DigitsDecode(b: seq<Byte>)
    ensures Decode64(Digits64(b)) == Some(b)
  {
    hide Digit64, AsciiSpace, Value64, Encode64;
    if |b| >= 3 {
      DigitsDecode(b[3..]);
      GroupDecodes(b);
    } else if b != [] {
      LastDigitsDecode(b);
    }
  }

  lemma {:induction false} GroupDecodes(b: seq<Byte>)
    requires |b| >= 3 && Decode64(Digits64(b[3..])) == Some(b[3..])
    ensures Decode64(Digits64(b)) == Some(b)
  {
    hide Digit64, AsciiSpace, Value64, Encode64;
    Group(b);
    var e, s := Encode64(b), Digits64(b);
    assert s[0] == e[0] && s[1] == e[1] && s[2] == e[2] && s[3] == e[3] && s[4..] == Digits64(b[3..]);
    ThreeBytes(b[0], b[1], b[2]);
    assert b == [b[0], b[1], b[2]] + b[3..];
  }

  lemma {:induction false} LastDigitsDecode(b: seq<Byte>)
    requires 1 <= |b| <= 2
    ensures Decode64(Digits64(b)) == Some(b)
  {
    hide Digit64, AsciiSpace, Value64, Encode64;
    Group(b);
    var e, s := Encode64(b), Digits64(b);
    assert s[0] == e[0] && s[1] == e[1];
    if |b| == 2 {
      assert s[2] == e[2];
      ThreeBytes(b[0], b[1], 0);
      assert b == [b[0], b[1]];
    } else {
      ThreeBytes(b[0], 0, 0);
      assert b == [b[0]];
    }
  }

  lemma {:induction false} Base64RoundTrip(b: seq<Byte>)
    ensures Atob64(Encode64(b)) == Some(b)
  {
    EncodeShape(b);
    NothingStripped(Encode64(b));
    EncodeUnpadded(b);
    DigitsDecode(b);
  }

  /** The alphabet of the standard. */
  lemma {:induction false} Alphabet(n: int)
    requires 0 <= n < 64
    ensures n < 26 ==> Digit64(n) as int == 'A' as int + n
    ensures 26 <= n < 52 ==> Digit64(n) as int == 'a' as int + n - 26
    ensures 52 <= n < 62 ==> Digit64(n) as int == '0' as int + n - 52
    ensures Digit64(62) == '+' && Digit64(63) == '/'
  {
  }

  lemma {:induction false} EncodeLength(b: seq<Byte>)
    ensures |Encode64(b)| == 4 * ((|b| + 2) / 3)
  {
    hide Digit64;
    if |b| >= 3 {
      EncodeLength(b[3..]);
    }
  }

  /** The text of the bytes from 3 * k on starts at 4 * k. */
  lemma {:induction false} EncodeTail(b: seq<Byte>, k: nat)
    requires 3 * k <= |b|
    ensures 4 * k <= |Encode64(b)| && Encode64(b)[4 * k..] == Encode64(b[3 * k..])
    decreases k
  {
    if k == 0 {
      assert b[0..] == b;
    } else {
      EncodeTail(b[3..], k - 1);
      assert b[3..][3 * (k - 1)..] == b[3 * k..];
      OneGroup(b);
      assert Encode64(b)[4 * k..] == Encode64(b)[4..][4 * (k - 1)..];
    }
  }

  lemma {:induction false} OneGroup(b: seq<Byte>)
    requires |b| >= 3
    ensures |Encode64(b)| == 4 + |Encode64(b[3..])| && Encode64(b)[4..] == Encode64(b[3..])
  {
    hide Digit64;
  }

  /** Four digits say the 24 bits of three bytes as one number; of fewer bytes, padded with zero bits and signs. */
  lemma {:induction false} GroupIsNumber(b: seq<Byte>)
    requires b != []
    ensures var e := Encode64(b);
            && |e| >= 4 && Value64(e[0]).Some? && Value64(e[1]).Some?
            && (|b| == 1 ==> Value64(e[0]).value * 64 + Value64(e[1]).value == b[0] as int * 16 && e[2..] == "==")
            && (|b| == 2 ==> Value64(e[2]).Some?
                             && Value64(e[0]).value * 4096 + Value64(e[1]).value * 64 + Value64(e[2]).value
                                == (b[0] as int * 256 + b[1] as int) * 4
                             && e[3..] == "=")
            && (|b| > 2 ==> Value64(e[2]).Some? && Value64(e[3]).Some?
                            && Value64(e[0]).value * 262144 + Value64(e[1]).value * 4096 + Value64(e[2]).value * 64 + Value64(e[3]).value
                               == b[0] as int * 65536 + b[1] as int * 256 + b[2] as int)
  {
    Group(b);
    EncodeLength(b);
    hide Value64, Digit64;
  }

  /** Padding is optional. */
  lemma {:induction false} PaddingOptional(b: seq<Byte>)
    ensures Atob64(Digits64(b)) == Some(b)
  {
    hide Digit64, Value64, AsciiSpace, Decode64;
    DigitsShape(b);
    NothingStripped(Digits64(b));
    DigitsDecode(b);
  }

  lemma {:induction false} DigitsShape(b: seq<Byte>)
    ensures forall i :: 0 <= i < |Digits64(b)| ==> !AsciiSpace(Digits64(b)[i])
    ensures |b| % 3 == 0 ==> |Digits64(b)| % 4 == 0
    ensures |b| % 3 != 0 ==> |Digits64(b)| % 4 != 0
    ensures b != [] ==> Digits64(b) != "" && (|b| % 3 == 0 ==> Digits64(b)[|Digits64(b)| - 1] != '=')
  {
    hide Encode64, AsciiSpace, Digits64;
    if |b| >= 3 {
      DigitsShape(b[3..]);
      DigitsGroup(b);
      NoDigits();
      assert |b| == 3 ==> b[3..] == [];
    } else if b != [] {
      DigitsEnd(b);
    } else {
      NoDigits();
    }
  }

  lemma {:induction false} NoDigits()
    ensures Digits64([]) == ""
  {
  }

  lemma {:induction false} DigitsEnd(b: seq<Byte>)
    requires 1 <= |b| <= 2
    ensures |Digits64(b)| == |b| + 1 && forall i :: 0 <= i < |Digits64(b)| ==> !AsciiSpace(Digits64(b)[i])
  {
    hide Digit64, Value64, AsciiSpace, Encode64;
    Group(b);
    var d, e := Digits64(b), Encode64(b);
    assert forall i :: 0 <= i < |d| ==> d[i] == e[i];
  }

  lemma {:induction false} DigitsGroup(b: seq<Byte>)
    requires |b| >= 3
    ensures var d, rest := Digits64(b), Digits64(b[3..]);
            && |d| == 4 + |rest| && d[3] != '='
            && (forall i :: 0 <= i < 4 ==> !AsciiSpace(d[i]))
            && (forall i :: 4 <= i < |d| ==> d[i] == rest[i - 4])
  {
    hide Digit64, Value64, AsciiSpace, Encode64;
    Group(b);
    var d, e := Digits64(b), Encode64(b);
    assert forall i :: 0 <= i < 4 ==> d[i] == e[i];
  }

  /** White space is ignored wherever it stands. */
  lemma {:induction false} SpaceIgnored(x: string, c: char, y: string)
    requires c in "\t\n\r " || c as int == 12
    ensures Atob64(x + [c] + y) == Atob64(x + y)
  {
    StrippedConcat(x + [c], y);
    StrippedConcat(x, [c]);
    StrippedConcat(x, y);
    assert [c][1..] == "";
    assert Stripped([c]) == "" && Stripped(x) + "" == Stripped(x);
    hide Unpadded, Decode64;
    assert Stripped(x + [c] + y) == Stripped(x + y);
  }

  lemma {:induction false} StrippedConcat(x: string, y: string)
    ensures Stripped(x + y) == Stripped(x) + Stripped(y)
  {
    if x == "" {
      assert x + y == y;
    } else {
      assert (x + y)[0] == x[0] && (x + y)[1..] == x[1..] + y;
      StrippedConcat(x[1..], y);
    }
  }

  predicate AllDigits(s: string) {
    forall i :: 0 <= i < |s| ==> Value64(s[i]).Some?
  }

  /** Decoding fails exactly on a character that is no digit, or on a single digit left over. */
  lemma {:induction false} DecodeFails(s: string)
    ensures Decode64(s) == None <==> |s| % 4 == 1 || !AllDigits(s)
    decreases |s|
  {
    if |s| >= 4 {
      hide Decode64, AllDigits, Value64;
      DecodeFails(s[4..]);
      DigitsSplit(s);
      DecodeSplit(s);
    } else {
      ShortFails(s);
    }
  }

  lemma {:induction false} ShortFails(s: string)
    requires |s| < 4
    ensures Decode64(s) == None <==> |s| % 4 == 1 || !AllDigits(s)
  {
    hide Value64;
    assert AllDigits(s) <==> (|s| > 0 ==> Value64(s[0]).Some?) && (|s| > 1 ==> Value64(s[1]).Some?) && (|s| > 2 ==> Value64(s[2]).Some?);
  }

  lemma {:induction false} DecodeSplit(s: string)
    requires |s| >= 4
    ensures Decode64(s) == None <==>
            || Value64(s[0]).None? || Value64(s[1]).None? || Value64(s[2]).None? || Value64(s[3]).None?
            || Decode64(s[4..]) == None
  {
    hide Value64;
  }

  lemma {:induction false} DigitsSplit(s: string)
    requires |s| >= 4
    ensures AllDigits(s) <==>
              && Value64(s[0]).Some? && Value64(s[1]).Some? && Value64(s[2]).Some? && Value64(s[3]).Some?
              && AllDigits(s[4..])
  {
    hide Value64;
    assert forall i :: 4 <= i < |s| ==> s[i] == s[4..][i - 4];
  }

  // ---- The client's loops over binary strings ----

  /** A string whose characters stand for bytes. */
  function CharCodes(s: string): (r: Option<seq<Byte>>)
    ensures r.Some? <==> forall i :: 0 <= i < |s| ==> s[i] as int < 256
    ensures r.Some? ==> |r.value| == |s| && forall i :: 0 <= i < |s| ==> r.value[i] == s[i] as int
  {
    if s == "" then Some([])
    else if s[0] as int >= 256 then None
    else
      match CharCodes(s[1..])
      case None => None
      case Some(rest) => Some([s[0] as int] + rest)
  }

  function FromCharCodes(b: seq<Byte>): (s: string)
    ensures |s| == |b| && forall i :: 0 <= i < |b| ==> s[i] == b[i] as char
  {
    if b == [] then "" else [b[0] as char] + FromCharCodes(b[1..])
  }

  /** btoa: None is InvalidCharacterError. */
  function Btoa(s: string): Option<string> {
    match CharCodes(s)
    case None => None
    case Some(b) => Some(Encode64(b))
  }

  /** atob: None is InvalidCharacterError. */
  function Atob(s: string): Option<string> {
    match Atob64(s)
    case None => None
    case Some(b) => Some(FromCharCodes(b))
  }

  lemma {:induction false} BinaryString(s: string, b: seq<Byte>)
    requires |s| == |b| && forall i :: 0 <= i < |b| ==> s[i] == b[i] as char
    ensures CharCodes(s) == Some(b)
  {
    assert CharCodes(s).Some?;
    assert CharCodes(s).value == b;
  }

  /** No byte array makes btoa throw, and its base64 is read back as the same bytes. */
  method ArrayBufferToBase64(bytes: array<Byte>) returns (r: string)
    ensures r == Encode64(bytes[..]) && Atob64(r) == Some(bytes[..])
  {
    var binary := "";
    var i := 0;
    while i < bytes.Length
      invariant 0 <= i <= bytes.Length && |binary| == i
      invariant forall k :: 0 <= k < i ==> binary[k] == bytes[k] as char
    {
      binary := binary + [bytes[i] as char];
      i := i + 1;
    }
    BinaryString(binary, bytes[..]);
    Base64RoundTrip(bytes[..]);
    r := Btoa(binary).value;
  }

  method Base64ToArrayBuffer(base64: string) returns (r: Option<array<Byte>>)
    ensures r.Some? <==> Atob64(base64).Some?
    ensures r.Some? ==> fresh(r.value) && r.value[..] == Atob64(base64).value
  {
    hide Atob64;
    if Atob(base64).None? {
      return None;
    }
    var binary := Atob(base64).value;
    var bytes := new Byte[|binary|];
    var i := 0;
    while i < |binary|
      invariant 0 <= i <= |binary|
      invariant forall k :: 0 <= k < i ==> bytes[k] == binary[k] as int
    {
      bytes[i] := binary[i] as int;
      i := i + 1;
    }
    r := Some(bytes);
  }
}
