/** Hexadecimal as `encoding/hex` reads and writes it. */
module Hex {
  import opened Prelude
  import opened Radix

  function HexChar(n: nat): char
    requires n < 16
  {
    if n < 10 then ('0' as int + n) as char else ('a' as int + n - 10) as char
  }

  function HexValue(c: char): (n: Option<nat>)
    ensures n.Some? ==> n.value < 16
  {
    if '0' <= c <= '9' then Some(c as int - '0' as int)
    else if 'a' <= c <= 'f' then Some(c as int - 'a' as int + 10)
    else if 'A' <= c <= 'F' then Some(c as int - 'A' as int + 10)
    else None
  }

  /** Two lower-case digits a byte. */
  function HexOf(bytes: seq<nat>): (s: string)
    requires InBase(256, bytes)
    ensures |s| == 2 * |bytes|
  {
    if bytes == [] then "" else [HexChar(bytes[0] / 16), HexChar(bytes[0] % 16)] + HexOf(bytes[1..])
  }

  /** Nothing when the length is odd or a character is no hexadecimal digit. */
  function DecodeHex(s: string): (r: Option<seq<nat>>)
    ensures r.Some? ==> |s| == 2 * |r.value| && InBase(256, r.value)
  {
    if s == "" then Some([])
    else if |s| == 1 then None
    else
      var high, low, rest := HexValue(s[0]), HexValue(s[1]), DecodeHex(s[2..]);
      if high.None? || low.None? || rest.None? then None else Some([high.value * 16 + low.value] + rest.value)
  }

  lemma Alphabet(n: nat, c: char)
    requires n < 16
    ensures HexChar(n) == "0123456789abcdef"[n]
    ensures HexValue(c).Some? <==> c in "0123456789abcdefABCDEF"
    ensures HexValue(c) == Some(n) <==> LowerChar(c) == HexChar(n)
  {
  }

  lemma CharValue(n: nat)
    requires n < 16
    ensures HexValue(HexChar(n)) == Some(n) && LowerChar(HexChar(n)) == HexChar(n) && !IsSpace(HexChar(n))
    ensures HexChar(n) != 't' && HexChar(n) != 'T' && HexChar(n) != 'x'
  {
  }

  lemma ValueChar(c: char)
    requires HexValue(c).Some? && LowerChar(c) == c
    ensures HexChar(HexValue(c).value) == c
  {
  }

  lemma DecodePair(b: nat, rest: seq<nat>, h: string)
    requires b < 256 && DecodeHex(h) == Some(rest)
    ensures DecodeHex([HexChar(b / 16), HexChar(b % 16)] + h) == Some([b] + rest)
  {
    CharValue(b / 16);
    CharValue(b % 16);
    assert ([HexChar(b / 16), HexChar(b % 16)] + h)[2..] == h;
  }

  lemma {:induction false} DecodeHexOf(bytes: seq<nat>)
    requires InBase(256, bytes)
    ensures DecodeHex(HexOf(bytes)) == Some(bytes)
  {
    if bytes == [] {
    } else {
      var b, rest := bytes[0], bytes[1..];
      DecodeHexOf(rest);
      DecodePair(b, rest, HexOf(rest));
      assert bytes == [b] + rest;
    }
  }

  lemma EncodePair(s: string, rest: seq<nat>)
    requires DecodeHex(s).Some? && |s| >= 2 && LowerChar(s[0]) == s[0] && LowerChar(s[1]) == s[1]
    requires DecodeHex(s[2..]) == Some(rest) && HexOf(rest) == s[2..]
    ensures HexOf(DecodeHex(s).value) == s
  {
    var high, low := HexValue(s[0]).value, HexValue(s[1]).value;
    ValueChar(s[0]);
    ValueChar(s[1]);
    Nibbles(high, low);
    HexOfCons(DecodeHex(s).value, high * 16 + low, rest);
    assert s == [s[0], s[1]] + s[2..];
  }

  lemma HexOfCons(bytes: seq<nat>, b: nat, rest: seq<nat>)
    requires InBase(256, bytes) && InBase(256, rest) && b < 256 && bytes == [b] + rest
    ensures HexOf(bytes) == [HexChar(b / 16), HexChar(b % 16)] + HexOf(rest)
  {
    assert bytes[1..] == rest;
  }

  lemma Nibbles(high: nat, low: nat)
    requires low < 16
    ensures (high * 16 + low) / 16 == high && (high * 16 + low) % 16 == low
  {
  }

  lemma {:induction false} HexOfDecode(s: string)
    requires DecodeHex(s).Some? && ToLower(s) == s
    ensures HexOf(DecodeHex(s).value) == s
  {
    if s == "" {
    } else {
      assert ToLower(s)[0] == s[0] && ToLower(s)[1] == s[1];
      assert ToLower(s[2..]) == ToLower(s)[2..];
      HexOfDecode(s[2..]);
      EncodePair(s, DecodeHex(s[2..]).value);
    }
  }

  /** Digits only, all of them lower-case. */
  lemma {:induction false} HexOfChars(bytes: seq<nat>, i: nat)
    requires InBase(256, bytes) && i < 2 * |bytes|
    ensures HexValue(HexOf(bytes)[i]).Some? && LowerChar(HexOf(bytes)[i]) == HexOf(bytes)[i]
    decreases |bytes|
  {
    if i < 2 {
      CharValue(bytes[0] / 16);
      CharValue(bytes[0] % 16);
    } else {
      HexOfChars(bytes[1..], i - 2);
    }
  }

  /** A string spelling bytes in either case begins like their lower-case spelling, up to case. */
  lemma SpelledChars(s: string, bytes: seq<nat>, i: nat)
    requires InBase(256, bytes) && ToLower(s) == HexOf(bytes) && i < |s|
    ensures HexValue(s[i]).Some?
  {
    HexOfChars(bytes, i);
    assert ToLower(s)[i] == LowerChar(s[i]);
  }
}
