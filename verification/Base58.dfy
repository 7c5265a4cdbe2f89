/** Base58 as the Bitcoin libraries write it, and Base58Check over a checksum nothing is known about. */
module Base58 {
  import opened Prelude
  import opened Radix

  /** Four bytes; the first four of a double SHA-256 in practice. */
  type Word = w: seq<nat> | |w| == 4 && InBase(256, w) witness [0, 0, 0, 0]

  type Checksum = seq<nat> -> Word

  function Digest(sum: Checksum, bytes: seq<nat>): Word {
    sum(bytes)
  }

  function Symbol(d: nat): char
    requires d < 58
  {
    if d < 9 then ('1' as int + d) as char
    else if d < 17 then ('A' as int + d - 9) as char
    else if d < 22 then ('J' as int + d - 17) as char
    else if d < 33 then ('P' as int + d - 22) as char
    else if d < 44 then ('a' as int + d - 33) as char
    else ('m' as int + d - 44) as char
  }

  function Digit(c: char): (d: Option<nat>)
    ensures d.Some? ==> d.value < 58
  {
    if '1' <= c <= '9' then Some(c as int - '1' as int)
    else if 'A' <= c <= 'H' then Some(c as int - 'A' as int + 9)
    else if 'J' <= c <= 'N' then Some(c as int - 'J' as int + 17)
    else if 'P' <= c <= 'Z' then Some(c as int - 'P' as int + 22)
    else if 'a' <= c <= 'k' then Some(c as int - 'a' as int + 33)
    else if 'm' <= c <= 'z' then Some(c as int - 'm' as int + 44)
    else None
  }

  predicate InAlphabet(c: char) {
    ('0' <= c <= '9' || 'A' <= c <= 'Z' || 'a' <= c <= 'z') && c !in {'0', 'O', 'I', 'l'}
  }

  /** The 58 symbols are the digits and letters without 0, O, I and l, in ascending order. */
  lemma Alphabet(d: nat, e: nat, c: char)
    requires d < e < 58
    ensures Symbol(d) < Symbol(e) && InAlphabet(Symbol(d)) && InAlphabet(Symbol(e))
    ensures Digit(c).Some? <==> InAlphabet(c)
  {
  }

  lemma DigitSymbol(d: nat)
    requires d < 58
    ensures Digit(Symbol(d)) == Some(d)
  {
  }

  lemma SymbolDigit(c: char)
    requires Digit(c).Some?
    ensures Symbol(Digit(c).value) == c && !IsSpace(c)
  {
  }

  function Symbols(ds: seq<nat>): (s: string)
    requires InBase(58, ds)
    ensures |s| == |ds|
  {
    seq(|ds|, i requires 0 <= i < |ds| => Symbol(ds[i]))
  }

  predicate IsBase58(s: string) {
    forall i :: 0 <= i < |s| ==> Digit(s[i]).Some?
  }

  function SymbolValues(s: string): (ds: seq<nat>)
    requires IsBase58(s)
    ensures |ds| == |s| && InBase(58, ds)
  {
    seq(|s|, i requires 0 <= i < |s| => Digit(s[i]).value)
  }

  function Encode(bytes: seq<nat>): string
    requires InBase(256, bytes)
  {
    ConvertBack(256, 58, bytes);
    Symbols(Convert(256, 58, bytes))
  }

  /** No bytes at all when a character is not of the alphabet. */
  function Decode(s: string): (bytes: seq<nat>)
    ensures InBase(256, bytes)
  {
    if IsBase58(s) then
      ConvertBack(58, 256, SymbolValues(s));
      Convert(58, 256, SymbolValues(s))
    else []
  }

  lemma DecodeEncode(bytes: seq<nat>)
    requires InBase(256, bytes)
    ensures IsBase58(Encode(bytes)) && Decode(Encode(bytes)) == bytes
  {
    ConvertBack(256, 58, bytes);
    var ds := Convert(256, 58, bytes);
    forall i | 0 <= i < |ds| ensures Digit(Symbol(ds[i])) == Some(ds[i]) {
      DigitSymbol(ds[i]);
    }
    assert SymbolValues(Symbols(ds)) == ds;
  }

  lemma EncodeDecode(s: string)
    requires IsBase58(s)
    ensures Encode(Decode(s)) == s
  {
    var ds := SymbolValues(s);
    ConvertBack(58, 256, ds);
    forall i | 0 <= i < |s| ensures Symbol(ds[i]) == s[i] {
      SymbolDigit(s[i]);
    }
    assert Symbols(ds) == s;
  }

  function CheckEncode(sum: Checksum, payload: seq<nat>, version: nat): string
    requires InBase(256, payload) && version < 256
  {
    Encode([version] + payload + Digest(sum, [version] + payload))
  }

  /** What was encoded can be read back, version byte and checksum included. */
  lemma CheckDecode(sum: Checksum, payload: seq<nat>, version: nat)
    requires InBase(256, payload) && version < 256
    ensures Decode(CheckEncode(sum, payload, version)) == [version] + payload + Digest(sum, [version] + payload)
    ensures IsBase58(CheckEncode(sum, payload, version))
  {
    DecodeEncode([version] + payload + Digest(sum, [version] + payload));
  }

  lemma CheckInjective(sum: Checksum, p: seq<nat>, v: nat, q: seq<nat>, w: nat)
    requires InBase(256, p) && InBase(256, q) && v < 256 && w < 256 && |p| == |q|
    requires CheckEncode(sum, p, v) == CheckEncode(sum, q, w)
    ensures p == q && v == w
  {
    CheckDecode(sum, p, v);
    CheckDecode(sum, q, w);
    var x, y := [v] + p, [w] + q;
    assert (x + Digest(sum, x))[..|x|] == x && (y + Digest(sum, y))[..|y|] == y;
    assert x[1..] == p && y[1..] == q && x[0] == v && y[0] == w;
  }

  // --- How long an encoding is and how it begins ----------------------------------------------------------------

  lemma Powers()
    ensures Pow(256, 24) == 6277101735386680763835789423207666416102355444464034512896
    ensures Pow(58, 33) == 15599970876632771988160814054146447252125923204784443097088
  {
    assert Pow(256, 1) == 256 && Pow(58, 1) == 58;
    PowAdd(256, 1, 1);
    PowAdd(256, 2, 2);
    PowAdd(256, 4, 4);
    PowAdd(256, 8, 8);
    PowAdd(256, 16, 8);
    PowAdd(58, 1, 1);
    PowAdd(58, 2, 2);
    PowAdd(58, 4, 4);
    PowAdd(58, 8, 8);
    PowAdd(58, 16, 16);
    PowAdd(58, 1, 32);
  }

  /** Between 65 and 66 times 256^24 a number has 34 digits in base 58, the first of them 26. */
  lemma TronRange(n: nat)
    requires 65 * Pow(256, 24) <= n < 66 * Pow(256, 24)
    ensures |Digits(58, n)| == 34 && Digits(58, n)[0] == 26
  {
    Powers();
    LeadingDigit(58, n, 26, 33);
  }

  lemma NoLeadingZeros(bytes: seq<nat>)
    requires bytes != [] && bytes[0] != 0
    ensures Convert(256, 58, bytes) == Digits(58, Value(256, bytes))
  {
    assert Leading(bytes) == 0 && Zeros(0) == [];
  }

  lemma OneDigit(b: nat, d: nat)
    ensures Value(b, [d]) == d
  {
    assert [d][..0] == [] && Value(b, []) == 0;
  }

  /** Twenty-five bytes of which the first is 65 are written with 34 characters, the first of them T. */
  lemma TronForm(bytes: seq<nat>)
    requires |bytes| == 25 && InBase(256, bytes) && bytes[0] == 65
    ensures |Encode(bytes)| == 34 && Encode(bytes)[0] == 'T'
  {
    TronDigits(bytes);
    NoLeadingZeros(bytes);
    ConvertBack(256, 58, bytes);
  }

  lemma TronDigits(bytes: seq<nat>)
    requires |bytes| == 25 && InBase(256, bytes) && bytes[0] == 65
    ensures |Digits(58, Value(256, bytes))| == 34 && Digits(58, Value(256, bytes))[0] == 26
  {
    var rest := bytes[1..];
    assert bytes == [65] + rest;
    ValueBounds(256, [65], rest);
    OneDigit(256, 65);
    TronRange(Value(256, bytes));
  }
}
