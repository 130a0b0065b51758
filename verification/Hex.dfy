/** packages/pipeline/src/internal/crypto.ts: comparing two hex-encoded digests by decoding them. */
module Hex {
  import opened Base

  function HexValue(c: char): (v: Option<nat>)
    ensures v.Some? ==> v.value < 16
  {
    if '0' <= c <= '9' then Some(c as nat - '0' as nat)
    else if 'a' <= c <= 'f' then Some(10 + c as nat - 'a' as nat)
    else if 'A' <= c <= 'F' then Some(10 + c as nat - 'A' as nat)
    else None
  }

  function Byte(high: nat, low: nat): nat {
    16 * high + low
  }

  lemma ByteFixesDigits(a: nat, b: nat, c: nat, d: nat)
    requires b < 16 && d < 16
    ensures Byte(a, b) == Byte(c, d) <==> a == c && b == d
  {
  }

  /** Decoding stops at the first pair that is not hexadecimal, and drops an odd last digit. */
  function DecodeHex(s: string): seq<nat> {
    if |s| < 2 || HexValue(s[0]).None? || HexValue(s[1]).None? then []
    else [Byte(HexValue(s[0]).value, HexValue(s[1]).value)] + DecodeHex(s[2..])
  }

  function SafeEqualHex(left: string, right: string): bool {
    |left| == |right| && DecodeHex(left) == DecodeHex(right)
  }

  predicate LowerHexDigit(c: char) {
    '0' <= c <= '9' || 'a' <= c <= 'f'
  }

  /** Whole bytes in lower-case hexadecimal, as the digests are produced. */
  predicate LowerHex(s: string) {
    |s| % 2 == 0 && forall i :: 0 <= i < |s| ==> LowerHexDigit(s[i])
  }

  function LowerDigit(c: char): char {
    if 'A' <= c <= 'F' then 'a' + (c - 'A') else c
  }

  function Lower(s: string): (r: string)
    ensures |r| == |s|
    ensures forall i :: 0 <= i < |s| ==> r[i] == LowerDigit(s[i])
  {
    seq(|s|, i requires 0 <= i < |s| => LowerDigit(s[i]))
  }

  lemma LowerSplits(s: string)
    requires |s| >= 2
    ensures Lower(s) == [LowerDigit(s[0]), LowerDigit(s[1])] + Lower(s[2..])
  {
  }

  lemma SameDigitIff(digit: char, c: char)
    requires LowerHexDigit(digit)
    ensures HexValue(c) == HexValue(digit) <==> LowerDigit(c) == digit
  {
  }

  lemma SamePairIff(digest: string, text: string)
    requires |digest| == |text| >= 2 && LowerHexDigit(digest[0]) && LowerHexDigit(digest[1])
    ensures DecodeHex(digest) == DecodeHex(text) <==>
            && LowerDigit(text[0]) == digest[0] && LowerDigit(text[1]) == digest[1]
            && DecodeHex(digest[2..]) == DecodeHex(text[2..])
  {
    SameDigitIff(digest[0], text[0]);
    SameDigitIff(digest[1], text[1]);
    var a, b := HexValue(digest[0]), HexValue(digest[1]);
    var c, d := HexValue(text[0]), HexValue(text[1]);
    if c.Some? && d.Some? {
      ByteFixesDigits(a.value, b.value, c.value, d.value);
      SameHeadIff(Byte(a.value, b.value), DecodeHex(digest[2..]), Byte(c.value, d.value), DecodeHex(text[2..]));
    }
  }

  lemma SameHeadIff(x: nat, xs: seq<nat>, y: nat, ys: seq<nat>)
    ensures [x] + xs == [y] + ys <==> x == y && xs == ys
  {
    assert ([x] + xs)[1..] == xs && ([y] + ys)[1..] == ys;
  }

  /** Against a digest, the comparison accepts exactly the texts that spell it up to letter case. */
  lemma {:induction false} SafeEqualIff(digest: string, text: string)
    requires LowerHex(digest)
    ensures SafeEqualHex(digest, text) <==> Lower(text) == digest
  {
    if |digest| >= 2 && |text| == |digest| {
      SafeEqualIff(digest[2..], text[2..]);
      SamePairIff(digest, text);
      LowerSplits(text);
      PairSplits(digest);
    }
  }

  lemma PairSplits(s: string)
    requires |s| >= 2
    ensures s == [s[0], s[1]] + s[2..]
  {
  }
}
