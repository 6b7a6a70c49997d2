/** The two `fmt` verbs the package formats numbers with: `%04o` for permission
    bits and `%x` for a digest. */
module Fmt {
  import opened Base
  import opened GoStrings

  /** The lower-case digit for a value below sixteen. */
  function Digit(d: nat): (ch: char)
    requires d < 16
  {
    if d < 10 then ('0' as int + d) as char else ('a' as int + d - 10) as char
  }

  predicate IsOctal(ch: char) {
    '0' <= ch <= '7'
  }

  predicate AllOctal(s: string) {
    forall k :: 0 <= k < |s| ==> IsOctal(s[k])
  }

  /** Reads a string of octal digits as a number, most significant first. */
  function ParseOctal(s: string): nat
    requires AllOctal(s)
  {
    if s == [] then 0
    else ParseOctal(s[..|s| - 1]) * 8 + (s[|s| - 1] as int - '0' as int)
  }

  /** The octal digits of `n` without leading zeros, as `%o` prints them. */
  function OctalDigits(n: nat): (s: string)
    ensures |s| >= 1 && AllOctal(s)
    ensures ParseOctal(s) == n
  {
    if n < 8 then
      [Digit(n)]
    else
      var s := OctalDigits(n / 8) + [Digit(n % 8)];
      assert s[..|s| - 1] == OctalDigits(n / 8);
      s
  }

  function Pow8(k: nat): nat {
    if k == 0 then 1 else 8 * Pow8(k - 1)
  }

  /** A number below 8^k prints in at most k octal digits. */
  lemma {:induction false} OctalDigitsLength(n: nat, k: nat)
    requires 1 <= k && n < Pow8(k)
    ensures |OctalDigits(n)| <= k
  {
    if 8 <= n {
      assert n / 8 < Pow8(k - 1);
      OctalDigitsLength(n / 8, k - 1);
    }
  }

  /** Leading zeros do not change the value of an octal string. */
  lemma {:induction false} ParseOctalLeadingZeros(z: nat, s: string)
    requires AllOctal(s)
    ensures AllOctal(Repeat('0', z) + s)
    ensures ParseOctal(Repeat('0', z) + s) == ParseOctal(s)
    decreases |s|, z
  {
    var t := Repeat('0', z) + s;
    if s == [] {
      assert t == Repeat('0', z);
      if z > 0 {
        assert t[..|t| - 1] == Repeat('0', z - 1) + s;
        ParseOctalLeadingZeros(z - 1, s);
      }
    } else {
      var init := s[..|s| - 1];
      assert t[..|t| - 1] == Repeat('0', z) + init;
      assert t[|t| - 1] == s[|s| - 1];
      ParseOctalLeadingZeros(z, init);
    }
  }

  /** Left-pads `s` with `pad` to at least `width` characters. */
  function PadLeft(s: string, width: nat, pad: char): (r: string)
    ensures |r| == if |s| < width then width else |s|
    ensures r == Repeat(pad, |r| - |s|) + s
  {
    if |s| >= width then
      assert Repeat(pad, 0) + s == s;
      s
    else
      Repeat(pad, width - |s|) + s
  }

  /** fmt.Sprintf("%04o", n): at least four octal digits that read back as
      `n`. */
  function Octal04(n: nat): (s: string)
    ensures |s| >= 4 && AllOctal(s)
    ensures ParseOctal(s) == n
  {
    var d := OctalDigits(n);
    var s := PadLeft(d, 4, '0');
    ParseOctalLeadingZeros(|s| - |d|, d);
    s
  }

  /** For a value below 0o10000, `%04o` gives exactly four octal digits, and
      reading them back as octal gives the value. */
  lemma Octal04RoundTrip(n: nat)
    requires n < 4096
    ensures |Octal04(n)| == 4 && AllOctal(Octal04(n))
    ensures ParseOctal(Octal04(n)) == n
  {
    assert Pow8(4) == 4096;
    OctalDigitsLength(n, 4);
  }

  predicate IsHex(ch: char) {
    '0' <= ch <= '9' || 'a' <= ch <= 'f'
  }

  function HexValue(ch: char): (v: nat)
    requires IsHex(ch)
    ensures v < 16
  {
    if ch <= '9' then ch as int - '0' as int else ch as int - 'a' as int + 10
  }

  /** fmt.Sprintf("%x", bytes): two lower-case hex digits per byte. */
  function HexEncode(bs: Bytes): (s: string)
    ensures |s| == 2 * |bs|
    ensures forall k :: 0 <= k < |s| ==> IsHex(s[k])
  {
    if bs == [] then ""
    else [Digit(bs[0] as int / 16), Digit(bs[0] as int % 16)] + HexEncode(bs[1..])
  }

  /** Reads pairs of hex digits back into bytes. */
  function HexDecode(s: string): Bytes
    requires |s| % 2 == 0
    requires forall k :: 0 <= k < |s| ==> IsHex(s[k])
  {
    if s == [] then []
    else [(HexValue(s[0]) * 16 + HexValue(s[1])) as byte] + HexDecode(s[2..])
  }

  /** The hex rendering of a digest loses nothing. */
  lemma {:induction false} HexRoundTrip(bs: Bytes)
    ensures HexDecode(HexEncode(bs)) == bs
  {
    if bs != [] {
      var s := HexEncode(bs);
      assert s[2..] == HexEncode(bs[1..]);
      HexRoundTrip(bs[1..]);
      var hi, lo := bs[0] as int / 16, bs[0] as int % 16;
      assert s[0] == Digit(hi) && s[1] == Digit(lo);
      assert HexValue(s[0]) == hi && HexValue(s[1]) == lo;
      assert (hi * 16 + lo) as byte == bs[0];
    }
  }
}
