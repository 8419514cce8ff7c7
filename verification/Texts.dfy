/** Bytes, their hexadecimal text, and texts joined by a colon. */
module Texts {
  type Byte = b: int | 0 <= b < 256

  function HexDigit(n: int): char
    requires 0 <= n < 16
  {
    "0123456789abcdef"[n]
  }

  function Hex2(b: Byte): string {
    [HexDigit(b / 16), HexDigit(b % 16)]
  }

  lemma {:induction false} ColonSplits(a: string, b: string, x: string, y: string)
    requires ':' !in a && ':' !in x
    requires a + ":" + b == x + ":" + y
    ensures a == x && b == y
  {
    var s := a + ":" + b;
    assert s[|a|] == ':' && s[|x|] == ':';
    assert forall i :: 0 <= i < |a| ==> s[i] == a[i];
    assert forall i :: 0 <= i < |x| ==> s[i] == x[i];
    assert |a| == |x|;
    assert a == s[..|a|] && x == s[..|x|];
    assert b == s[|a| + 1..] && y == s[|x| + 1..];
  }
}
