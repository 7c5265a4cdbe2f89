/** The canonical spelling of an address on each chain, and what it takes for two spellings of a TRON
    account to meet. */
module AddrCodec {
  import opened Prelude
  import opened Radix
  import opened Base58
  import opened Hex

  datatype Codec = Evm | Tron | Sol

  /** The codec of a chain, in any letter case; that of the EVM for a chain nobody knows. */
  function Get(chain: string): Codec {
    var c := ToUpper(chain);
    if c == "TRON" then Tron else if c == "SOL" then Sol else Evm
  }

  function NormalizeEvm(addr: string): string {
    var a := ToLower(TrimSpace(addr));
    if "0x" <= a then a else "0x" + a
  }

  function NormalizeSol(addr: string): string {
    TrimSpace(addr)
  }

  predicate StartsWithT(s: string) {
    s != "" && (s[0] == 'T' || s[0] == 't')
  }

  function NormalizeTron(sum: Checksum, addr: string): string {
    Trimmed(sum, TrimSpace(addr))
  }

  function Trimmed(sum: Checksum, a: string): string {
    if a == "" then a
    else if StartsWithT(a) && |Decode(a)| >= 21 then Reencode(sum, Decode(a))
    else FromHex(sum, a)
  }

  function Reencode(sum: Checksum, decoded: seq<nat>): string
    requires |decoded| >= 21 && InBase(256, decoded)
  {
    CheckEncode(sum, decoded[1..21], decoded[0])
  }

  function FromHex(sum: Checksum, a: string): string {
    EncodeHex(sum, WithPrefix(ToLower(TrimPrefix(a, "0x"))))
  }

  /** Digits that do not spell 21 bytes stay as they are. */
  function EncodeHex(sum: Checksum, h: string): string {
    var b := DecodeHex(h);
    if b.None? || |b.value| != 21 then h else CheckEncode(sum, b.value[1..], b.value[0])
  }

  function WithPrefix(h: string): string {
    if "41" <= h then h else "41" + h
  }

  function Normalize(sum: Checksum, codec: Codec, addr: string): string {
    match codec
    case Evm => NormalizeEvm(addr)
    case Tron => NormalizeTron(sum, addr)
    case Sol => NormalizeSol(addr)
  }

  /** The parser's reading of an indexed 32-byte log topic. */
  function TopicToAddress(sum: Checksum, topic: string): string {
    var t := TrimPrefix(topic, "0x");
    if |t| >= 40 then NormalizeTron(sum, "41" + t[|t| - 40..]) else NormalizeTron(sum, t)
  }

  // --- TRON -----------------------------------------------------------------------------------------------------

  /** Twenty bytes. */
  type Account = a: seq<nat> | |a| == 20 && InBase(256, a) witness Zeros(20)

  const VERSION: nat := 0x41

  function Canonical(sum: Checksum, a: Account): string {
    CheckEncode(sum, a, VERSION)
  }

  function Tagged(a: seq<nat>): seq<nat> {
    [VERSION] + a
  }

  /** The canonical spelling has 34 characters and begins with T. */
  lemma CanonicalForm(sum: Checksum, a: Account)
    ensures |Canonical(sum, a)| == 34 && Canonical(sum, a)[0] == 'T'
    ensures Decode(Canonical(sum, a)) == Tagged(a) + Digest(sum, Tagged(a)) && IsBase58(Canonical(sum, a))
    ensures TrimSpace(Canonical(sum, a)) == Canonical(sum, a)
  {
    TronForm(Tagged(a) + Digest(sum, Tagged(a)));
    CheckDecode(sum, a, VERSION);
    var c := Canonical(sum, a);
    SymbolDigit(c[0]);
    SymbolDigit(c[33]);
    TrimNothing(c);
  }

  lemma CanonicalInjective(sum: Checksum, a: Account, b: Account)
    requires Canonical(sum, a) == Canonical(sum, b)
    ensures a == b
  {
    CheckInjective(sum, a, VERSION, b, VERSION);
  }

  /** 0x41 is written "41", and only it. */
  lemma TagHex(b: nat, rest: seq<nat>)
    requires b < 256 && InBase(256, rest)
    ensures "41" <= HexOf([b] + rest) <==> b == VERSION
    ensures HexOf(Tagged(rest)) == "41" + HexOf(rest)
  {
    assert ([b] + rest)[1..] == rest && Tagged(rest)[1..] == rest;
    CharValue(b / 16);
    CharValue(b % 16);
    var h := HexOf([b] + rest);
    assert h[0] == HexChar(b / 16) && h[1] == HexChar(b % 16);
    assert "41" <= h <==> h[0] == '4' && h[1] == '1';
  }

  /** What the hexadecimal branch accepts for an account. */
  ghost predicate SpellsInHex(t: string, a: Account) {
    var h := ToLower(TrimPrefix(t, "0x"));
    h == HexOf(Tagged(a)) || (h == HexOf(a) && a[0] != VERSION)
  }

  lemma PrefixMeets(l: string, a: Account)
    ensures WithPrefix(l) == HexOf(Tagged(a)) <==> l == HexOf(Tagged(a)) || (l == HexOf(a) && a[0] != VERSION)
  {
    TagHex(a[0], a[1..]);
    assert [a[0]] + a[1..] == a;
    TagHex(VERSION, a);
    if WithPrefix(l) == HexOf(Tagged(a)) && l != HexOf(Tagged(a)) {
      assert ("41" + l)[2..] == l && ("41" + HexOf(a))[2..] == HexOf(a);
    }
  }

  lemma DecodedMeets(sum: Checksum, l: string, a: Account)
    requires ToLower(l) == l
    ensures EncodeHex(sum, WithPrefix(l)) == Canonical(sum, a) <==> WithPrefix(l) == HexOf(Tagged(a))
  {
    var h := WithPrefix(l);
    if h == HexOf(Tagged(a)) {
      DecodeHexOf(Tagged(a));
      assert Tagged(a)[1..] == a;
    }
    if EncodeHex(sum, h) == Canonical(sum, a) {
      LowerPrefix(l);
      EncodedIsTagged(sum, h, a);
    }
  }

  lemma EncodedIsTagged(sum: Checksum, h: string, a: Account)
    requires ToLower(h) == h && "41" <= h && EncodeHex(sum, h) == Canonical(sum, a)
    ensures h == HexOf(Tagged(a))
  {
    CanonicalForm(sum, a);
    assert h[0] == '4';
    var b := DecodeHex(h).value;
    CheckInjective(sum, b[1..], b[0], a, VERSION);
    assert b == Tagged(a);
    HexOfDecode(h);
  }

  /** The hexadecimal branch gives the canonical spelling for exactly the digits of the account: with the version byte,
      or without it unless they begin like it. */
  lemma FromHexMeets(sum: Checksum, t: string, a: Account)
    ensures FromHex(sum, t) == Canonical(sum, a) <==> SpellsInHex(t, a)
  {
    var l := ToLower(TrimPrefix(t, "0x"));
    LowerTwice(TrimPrefix(t, "0x"));
    DecodedMeets(sum, l, a);
    PrefixMeets(l, a);
  }

  lemma LowerPrefix(l: string)
    requires ToLower(l) == l
    ensures ToLower(WithPrefix(l)) == WithPrefix(l)
  {
    forall i | 0 <= i < |l| ensures LowerChar(l[i]) == l[i] {
      assert ToLower(l)[i] == l[i];
    }
  }

  /** Every spelling the codec maps to the canonical one of an account, after trimming. */
  ghost predicate Spells(t: string, a: Account) {
    if StartsWithT(t) && |Decode(t)| >= 21 then Decode(t)[..21] == Tagged(a)
    else t != "" && SpellsInHex(t, a)
  }

  lemma ReencodeMeets(sum: Checksum, decoded: seq<nat>, a: Account)
    requires |decoded| >= 21 && InBase(256, decoded)
    ensures CheckEncode(sum, decoded[1..21], decoded[0]) == Canonical(sum, a) <==> decoded[..21] == Tagged(a)
  {
    var p, v := decoded[1..21], decoded[0];
    assert decoded[..21] == [v] + p;
    if CheckEncode(sum, p, v) == Canonical(sum, a) {
      CheckInjective(sum, p, v, a, VERSION);
    }
    if [v] + p == Tagged(a) {
      assert p == ([v] + p)[1..] && v == ([v] + p)[0];
    }
  }

  /** Two spellings meet exactly when they spell the same account; the checksum of a Base58 spelling plays no part. */
  lemma NormalizeMeets(sum: Checksum, addr: string, a: Account)
    ensures NormalizeTron(sum, addr) == Canonical(sum, a) <==> Spells(TrimSpace(addr), a)
  {
    var t := TrimSpace(addr);
    CanonicalForm(sum, a);
    if t == "" {
    } else if StartsWithT(t) && |Decode(t)| >= 21 {
      ReencodeMeets(sum, Decode(t), a);
    } else {
      FromHexMeets(sum, t, a);
    }
  }

  /** A string that spells bytes in either case is trimmed to itself and is no Base58 spelling. */
  lemma HexIsPlain(s: string, bytes: seq<nat>)
    requires InBase(256, bytes) && bytes != [] && ToLower(s) == HexOf(bytes)
    ensures TrimSpace(s) == s && TrimSpace("0x" + s) == "0x" + s && !StartsWithT(s) && TrimPrefix(s, "0x") == s
    ensures TrimPrefix("0x" + s, "0x") == s
  {
    assert |s| == |ToLower(s)| == 2 * |bytes|;
    SpelledChars(s, bytes, 0);
    SpelledChars(s, bytes, 1);
    SpelledChars(s, bytes, |s| - 1);
    assert HexValue('x').None? && HexValue('T').None? && HexValue('t').None?;
    assert forall c: char :: IsSpace(c) ==> HexValue(c).None?;
    TrimNothing(s);
    TrimNothing("0x" + s);
    assert s[1] != 'x';
  }

  lemma HexBranch(sum: Checksum, t: string)
    requires t != "" && TrimSpace(t) == t && !StartsWithT(t)
    ensures NormalizeTron(sum, t) == FromHex(sum, t)
  {
  }

  /** The spellings in use all meet in the canonical one: itself, the hexadecimal digits with the version byte in any
      case, with or without 0x, and the log topic. */
  lemma TronConverges(sum: Checksum, a: Account, s: string, topic: string)
    requires ToLower(s) == HexOf(Tagged(a))
    requires |TrimPrefix(topic, "0x")| >= 40 && ToLower(LastForty(topic)) == HexOf(a)
    ensures NormalizeTron(sum, Canonical(sum, a)) == Canonical(sum, a)
    ensures NormalizeTron(sum, s) == Canonical(sum, a) && NormalizeTron(sum, "0x" + s) == Canonical(sum, a)
    ensures TopicToAddress(sum, topic) == Canonical(sum, a)
  {
    SelfMeets(sum, a);
    HexMeets(sum, a, s);
    TopicMeets(sum, a, topic);
  }

  function LastForty(topic: string): string
    requires |TrimPrefix(topic, "0x")| >= 40
  {
    var t := TrimPrefix(topic, "0x");
    t[|t| - 40..]
  }

  /** Normalising again changes nothing. */
  lemma SelfMeets(sum: Checksum, a: Account)
    ensures NormalizeTron(sum, Canonical(sum, a)) == Canonical(sum, a)
  {
    CanonicalForm(sum, a);
    assert (Tagged(a) + Digest(sum, Tagged(a)))[..21] == Tagged(a);
    NormalizeMeets(sum, Canonical(sum, a), a);
  }

  lemma HexMeets(sum: Checksum, a: Account, s: string)
    requires ToLower(s) == HexOf(Tagged(a))
    ensures NormalizeTron(sum, s) == Canonical(sum, a) && NormalizeTron(sum, "0x" + s) == Canonical(sum, a)
  {
    HexIsPlain(s, Tagged(a));
    HexBranch(sum, s);
    HexBranch(sum, "0x" + s);
    assert SpellsInHex(s, a) && SpellsInHex("0x" + s, a);
    FromHexMeets(sum, s, a);
    FromHexMeets(sum, "0x" + s, a);
  }

  /** Forty digits without the version byte meet the others exactly when they do not begin like one. */
  lemma BareHexMeets(sum: Checksum, a: Account, s: string)
    requires ToLower(s) == HexOf(a)
    ensures NormalizeTron(sum, s) == Canonical(sum, a) <==> !("41" <= s)
    ensures NormalizeTron(sum, "0x" + s) == Canonical(sum, a) <==> !("41" <= s)
  {
    HexIsPlain(s, a);
    HexBranch(sum, s);
    HexBranch(sum, "0x" + s);
    FromHexMeets(sum, s, a);
    FromHexMeets(sum, "0x" + s, a);
    TagHex(a[0], a[1..]);
    assert [a[0]] + a[1..] == a;
    assert "41" <= s <==> "41" <= ToLower(s) by {
      assert ToLower(s)[0] == LowerChar(s[0]) && ToLower(s)[1] == LowerChar(s[1]);
    }
  }

  lemma TopicMeets(sum: Checksum, a: Account, topic: string)
    requires |TrimPrefix(topic, "0x")| >= 40 && ToLower(LastForty(topic)) == HexOf(a)
    ensures TopicToAddress(sum, topic) == Canonical(sum, a)
  {
    var s := "41" + LastForty(topic);
    TagHex(VERSION, a);
    assert ToLower(s) == "41" + ToLower(LastForty(topic));
    HexMeets(sum, a, s);
  }

  // --- EVM ------------------------------------------------------------------------------------------------------

  predicate IsHexDigits(s: string) {
    forall i :: 0 <= i < |s| ==> HexValue(s[i]).Some?
  }

  /** Lower-case digits with 0x are the meeting point of themselves and the bare digits in any case. */
  lemma EvmMeets(addr: string, digits: string)
    requires |digits| >= 2 && IsHexDigits(digits) && ToLower(digits) == digits
    ensures NormalizeEvm(addr) == "0x" + digits <==> ToLower(TrimSpace(addr)) in {digits, "0x" + digits}
  {
    var a := ToLower(TrimSpace(addr));
    assert HexValue('x').None? && HexValue(digits[1]).Some?;
    assert !("0x" <= digits);
    assert ("0x" + digits)[2..] == digits && ("0x" + a)[2..] == a;
  }

  // --- Normalising twice ----------------------------------------------------------------------------------------

  lemma EvmIdempotent(addr: string)
    ensures NormalizeEvm(NormalizeEvm(addr)) == NormalizeEvm(addr)
  {
    TrimEnds(addr);
    var a := TrimSpace(addr);
    var r := NormalizeEvm(addr);
    LowerTwice(a);
    if a != "" {
      LowerIsNoSpace(a[0]);
      LowerIsNoSpace(a[|a| - 1]);
      assert r[|r| - 1] == LowerChar(a[|a| - 1]);
    }
    TrimNothing(r);
    assert ToLower(r) == r by {
      forall i | 0 <= i < |r| ensures LowerChar(r[i]) == r[i] {
        assert ToLower(a) == r || (i >= 2 ==> r[i] == ToLower(a)[i - 2]);
      }
    }
  }

  lemma SolIdempotent(addr: string)
    ensures NormalizeSol(NormalizeSol(addr)) == NormalizeSol(addr)
  {
    TrimEnds(addr);
    TrimNothing(TrimSpace(addr));
  }

  /** Reading a canonical-looking result again: one that begins with T or t is read back, another is taken for
      hexadecimal digits. */
  lemma ReadAgain(sum: Checksum, p: seq<nat>, v: nat)
    requires |p| == 20 && InBase(256, p) && v < 256
    ensures var r := CheckEncode(sum, p, v);
            r != "" && NormalizeTron(sum, r) == if StartsWithT(r) then r else EncodeHex(sum, WithPrefix(ToLower(r)))
  {
    CheckedEnds(sum, p, v);
    var r := CheckEncode(sum, p, v);
    var d := [v] + p + Digest(sum, [v] + p);
    CheckDecode(sum, p, v);
    TrimNothing(r);
    assert d[1..21] == p && d[0] == v;
  }

  /** A spelling with its checksum has symbols at both ends, none of which is 0 or white space. */
  lemma CheckedEnds(sum: Checksum, p: seq<nat>, v: nat)
    requires |p| == 20 && InBase(256, p) && v < 256
    ensures var r := CheckEncode(sum, p, v);
            r != "" && !IsSpace(r[0]) && !IsSpace(r[|r| - 1]) && r[0] != '0'
  {
    CheckDecode(sum, p, v);
    SpellingEnds(CheckEncode(sum, p, v));
  }

  lemma SpellingEnds(r: string)
    requires IsBase58(r) && Decode(r) != []
    ensures r != "" && !IsSpace(r[0]) && !IsSpace(r[|r| - 1]) && r[0] != '0'
  {
    assert Decode("") == [];
    SymbolDigit(r[0]);
    SymbolDigit(r[|r| - 1]);
    assert Digit('0') == None;
  }

  /** Digits that could not be read as an account are left alone from then on. */
  lemma PlainAgain(sum: Checksum, t: string)
    requires t != "" ==> !IsSpace(t[|t| - 1])
    requires FromHex(sum, t) == WithPrefix(ToLower(TrimPrefix(t, "0x")))
    ensures NormalizeTron(sum, FromHex(sum, t)) == FromHex(sum, t)
  {
    var u := TrimPrefix(t, "0x");
    var h := WithPrefix(ToLower(u));
    if u != "" {
      assert u[|u| - 1] == t[|t| - 1];
      LowerIsNoSpace(u[|u| - 1]);
      assert h[|h| - 1] == LowerChar(u[|u| - 1]);
    }
    assert h[0] == '4' && h[1] == '1';
    TrimNothing(h);
    LowerTwice(u);
    LowerPrefix(ToLower(u));
    HexBranch(sum, h);
  }

  /** Digits of 21 bytes that begin with 41 give a canonical spelling. */
  lemma ReadHex(sum: Checksum, h: string)
    requires "41" <= h && DecodeHex(h).Some? && |DecodeHex(h).value| == 21
    ensures EncodeHex(sum, h) == Canonical(sum, DecodeHex(h).value[1..])
  {
    assert h[0] == '4' && h[1] == '1';
    assert HexValue('4') == Some(4) && HexValue('1') == Some(1);
  }

  lemma HexSettled(sum: Checksum, h: string)
    requires "41" <= h && DecodeHex(h).Some? && |DecodeHex(h).value| == 21
    ensures NormalizeTron(sum, EncodeHex(sum, h)) == EncodeHex(sum, h)
  {
    ReadHex(sum, h);
    SelfMeets(sum, DecodeHex(h).value[1..]);
  }

  lemma HexIdempotent(sum: Checksum, t: string)
    requires t != "" ==> !IsSpace(t[|t| - 1])
    ensures NormalizeTron(sum, FromHex(sum, t)) == FromHex(sum, t)
  {
    var h := WithPrefix(ToLower(TrimPrefix(t, "0x")));
    if DecodeHex(h).Some? && |DecodeHex(h).value| == 21 {
      HexSettled(sum, h);
    } else {
      PlainAgain(sum, t);
    }
  }

  /** Normalising again changes nothing unless a Base58 spelling with another version byte was given. */
  lemma TronIdempotent(sum: Checksum, addr: string)
    requires var t := TrimSpace(addr); !(StartsWithT(t) && |Decode(t)| >= 21 && Decode(t)[0] != VERSION)
    ensures NormalizeTron(sum, NormalizeTron(sum, addr)) == NormalizeTron(sum, addr)
  {
    TrimEnds(addr);
    TrimmedIdempotent(sum, TrimSpace(addr), NormalizeTron(sum, addr));
  }

  lemma TrimmedIdempotent(sum: Checksum, t: string, r: string)
    requires !(StartsWithT(t) && |Decode(t)| >= 21 && Decode(t)[0] != VERSION)
    requires t != "" ==> !IsSpace(t[|t| - 1])
    requires r == Trimmed(sum, t)
    ensures NormalizeTron(sum, r) == r
  {
    if t == "" {
      NothingAgain(sum);
    } else if StartsWithT(t) && |Decode(t)| >= 21 {
      ReencodedAgain(sum, Decode(t), r);
    } else {
      HexIdempotent(sum, t);
    }
  }

  lemma NothingAgain(sum: Checksum)
    ensures NormalizeTron(sum, "") == ""
  {
    TrimNothing("");
  }

  lemma ReencodedAgain(sum: Checksum, decoded: seq<nat>, r: string)
    requires |decoded| >= 21 && InBase(256, decoded) && decoded[0] == VERSION && r == Reencode(sum, decoded)
    ensures NormalizeTron(sum, r) == r
  {
    var a: Account := decoded[1..21];
    SelfMeets(sum, a);
  }

  /** A Base58 spelling is written again with its checksum. */
  lemma FirstPass(sum: Checksum, addr: string, d: seq<nat>)
    requires StartsWithT(TrimSpace(addr)) && d == Decode(TrimSpace(addr)) && |d| >= 21
    ensures NormalizeTron(sum, addr) == Reencode(sum, d)
  {
    TrimmedFirst(sum, TrimSpace(addr), d);
  }

  lemma TrimmedFirst(sum: Checksum, a: string, d: seq<nat>)
    requires StartsWithT(a) && d == Decode(a) && |d| >= 21
    ensures Trimmed(sum, a) == Reencode(sum, d)
  {
  }

  lemma SecondPass(sum: Checksum, r: string)
    requires NormalizeTron(sum, r) == if StartsWithT(r) then r else EncodeHex(sum, WithPrefix(ToLower(r)))
    ensures NormalizeTron(sum, r) == r <==> StartsWithT(r) || LeftAlone(r)
  {
    if !StartsWithT(r) {
      PlainIff(sum, r);
    }
  }

  /** A second pass changes nothing exactly when the result happens to begin with T or t, or to be what the hexadecimal
      branch leaves alone: lower-case, beginning with 41, and not the digits of 21 bytes. */
  lemma PassTwice(sum: Checksum, d: seq<nat>)
    requires |d| >= 21 && InBase(256, d)
    ensures var r := Reencode(sum, d);
            NormalizeTron(sum, r) == r <==> StartsWithT(r) || LeftAlone(r)
  {
    ReadAgain(sum, d[1..21], d[0]);
    SecondPass(sum, Reencode(sum, d));
  }

  lemma PlainIff(sum: Checksum, r: string)
    requires !StartsWithT(r)
    ensures EncodeHex(sum, WithPrefix(ToLower(r))) == r <==> LeftAlone(r)
  {
    var h := WithPrefix(ToLower(r));
    LowerTwice(r);
    LowerPrefix(ToLower(r));
    if DecodeHex(h).Some? && |DecodeHex(h).value| == 21 {
      ReadHex(sum, h);
      CanonicalForm(sum, DecodeHex(h).value[1..]);
    }
  }

  predicate LeftAlone(r: string) {
    "41" <= r && ToLower(r) == r && (DecodeHex(r).None? || |DecodeHex(r).value| != 21)
  }

  // --- A spelling that is not settled by one pass ---------------------------------------------------------------

  /** T followed by 27 ones: 21 bytes, the first of them 7. */
  const OTHER_VERSION: string := "T111111111111111111111111111"

  lemma {:induction false} ValueTimes(b: nat, d: nat, k: nat)
    ensures Value(b, [d] + Zeros(k)) == d * Pow(b, k)
  {
    if k == 0 {
      OneDigit(b, d);
      assert [d] + Zeros(0) == [d];
    } else {
      ValueTimes(b, d, k - 1);
      assert ([d] + Zeros(k))[..k] == [d] + Zeros(k - 1);
      Scale(d, b, Pow(b, k - 1));
    }
  }

  lemma OtherPowers()
    ensures 26 * Pow(58, 27) == 10654404333000359312055841047794079674586525335552
    ensures Pow(256, 20) == 1461501637330902918203684832716283019655932542976 && Pow(256, 4) == 4294967296
  {
    assert Pow(256, 1) == 256 && Pow(58, 1) == 58;
    PowAdd(256, 1, 1);
    PowAdd(256, 2, 2);
    PowAdd(256, 4, 4);
    PowAdd(256, 8, 8);
    PowAdd(256, 16, 4);
    PowAdd(58, 1, 1);
    PowAdd(58, 2, 1);
    PowAdd(58, 3, 3);
    PowAdd(58, 6, 6);
    PowAdd(58, 12, 12);
    PowAdd(58, 24, 3);
  }

  lemma OtherDigits()
    ensures IsBase58(OTHER_VERSION) && SymbolValues(OTHER_VERSION) == [26] + Zeros(27)
  {
  }

  lemma DecodeMinimal(s: string)
    requires IsBase58(s) && s != "" && SymbolValues(s)[0] != 0
    ensures Decode(s) == Digits(256, Value(58, SymbolValues(s)))
  {
    assert Leading(SymbolValues(s)) == 0 && Zeros(0) == [];
  }

  lemma OtherBytes(n: nat)
    requires n == 26 * Pow(58, 27)
    ensures |Digits(256, n)| == 21 && Digits(256, n)[0] == 7 && Value(256, Digits(256, n)) == n
  {
    OtherPowers();
    LeadingDigit(256, n, 7, 20);
    ValueOfDigits(256, n);
  }

  lemma OtherDecoded()
    ensures |Decode(OTHER_VERSION)| == 21 && Decode(OTHER_VERSION)[0] == 7
    ensures Value(256, Decode(OTHER_VERSION)) == 26 * Pow(58, 27)
  {
    OtherDigits();
    ValueTimes(58, 26, 27);
    DecodeMinimal(OTHER_VERSION);
    OtherBytes(26 * Pow(58, 27));
  }

  /** The bytes of that number, with any four more behind them. */
  lemma OtherEncoded(d: seq<nat>, word: Word)
    requires |d| == 21 && InBase(256, d) && Value(256, d) == 26 * Pow(58, 27) && d[0] == 7
    ensures |Encode(d + word)| == 34 && Encode(d + word)[0] == '3'
  {
    OtherValue(d, word);
    NoLeadingZeros(d + word);
    ConvertBack(256, 58, d + word);
  }

  lemma OtherValue(d: seq<nat>, word: Word)
    requires Value(256, d) == 26 * Pow(58, 27)
    ensures |Digits(58, Value(256, d + word))| == 34 && Digits(58, Value(256, d + word))[0] == 2
  {
    ValueBounds(256, d, word);
    OtherPowers();
    Powers();
    LeadingDigit(58, Value(256, d + word), 2, 33);
  }

  lemma OtherForm(sum: Checksum, d: seq<nat>)
    requires |d| == 21 && InBase(256, d) && Value(256, d) == 26 * Pow(58, 27) && d[0] == 7
    ensures |Reencode(sum, d)| == 34 && Reencode(sum, d)[0] == '3'
  {
    assert [d[0]] + d[1..21] == d;
    OtherEncoded(d, Digest(sum, d));
  }

  /** Normalised once it begins with 3, normalised twice with 41. */
  lemma NotSettled(sum: Checksum)
    ensures var r := NormalizeTron(sum, OTHER_VERSION); NormalizeTron(sum, r) != r
  {
    OtherDecoded();
    TrimNothing(OTHER_VERSION);
    OtherForm(sum, Decode(OTHER_VERSION));
    FirstPass(sum, OTHER_VERSION, Decode(OTHER_VERSION));
    PassTwice(sum, Decode(OTHER_VERSION));
  }
}
