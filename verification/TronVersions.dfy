/** Which version bytes settle after one normalisation: the answer is in the number that the version, the payload and
    the checksum make together. */
module TronVersions {
  import opened Prelude
  import opened Radix
  import opened Base58
  import opened Hex
  import opened AddrCodec

  /** The number a Base58 spelling is written again from. */
  function Wide(sum: Checksum, decoded: seq<nat>): nat
    requires |decoded| >= 21 && InBase(256, decoded)
  {
    Value(256, decoded[..21] + Digest(sum, decoded[..21]))
  }

  predicate Leads(n: nat, d: nat, k: nat) {
    d * Pow(58, k) <= n < (d + 1) * Pow(58, k)
  }

  /** In base 58 it begins with the digit of T, 26, or that of t, 51. */
  predicate BeginsT(n: nat) {
    Leads(n, 26, 32) || Leads(n, 26, 33) || Leads(n, 51, 32) || Leads(n, 51, 33)
  }

  /** It begins with the digits of 4 and 1, and has none of a capital letter. */
  predicate BeginsHex(n: nat) {
    Leads(n, 174, 32) && NoCapitals(Digits(58, n))
  }

  predicate NoCapitals(ds: seq<nat>) {
    forall i :: 0 <= i < |ds| ==> !(9 <= ds[i] <= 32)
  }

  predicate Settles(n: nat) {
    BeginsT(n) || BeginsHex(n)
  }

  // --- Numbers of 25 bytes -------------------------------------------------------------------------------------

  predicate IsWide(n: nat) {
    Pow(256, 24) <= n < Pow(256, 25)
  }

  lemma MorePowers()
    ensures Pow(256, 24) == 6277101735386680763835789423207666416102355444464034512896
    ensures Pow(256, 25) == 1606938044258990275541962092341162602522202993782792835301376
    ensures Pow(58, 31) == 4637327846799278236670872192076827363889989062064340992
    ensures Pow(58, 32) == 268965015114358137726910587140455987105619365599731777536
    ensures Pow(58, 33) == 15599970876632771988160814054146447252125923204784443097088
  {
    Powers();
    assert Pow(256, 25) == 256 * Pow(256, 24);
    assert Pow(58, 33) == 58 * Pow(58, 32) && Pow(58, 32) == 58 * Pow(58, 31);
  }

  lemma {:induction false} PowGrows(b: nat, i: nat, j: nat)
    requires 0 < b && i <= j
    ensures 0 < Pow(b, i) <= Pow(b, j)
    decreases j
  {
    if j == 0 {
    } else if i == j {
      PowGrows(b, i - 1, j - 1);
    } else {
      PowGrows(b, i, j - 1);
    }
  }

  /** A leading digit, or a leading pair, of a 25-byte number: it has 32 or 33 digits behind it. */
  lemma LeadsWhere(n: nat, d: nat, k: nat)
    requires IsWide(n) && 26 <= d <= 174 && Leads(n, d, k)
    ensures k == 32 || (d < 104 && k == 33)
  {
    MorePowers();
    if k >= 34 {
      PowGrows(58, 34, k);
      TooLarge(n, d, k);
    } else if k <= 31 {
      PowGrows(58, k, 31);
      TooSmall(n, d, k);
    }
  }

  lemma TooLarge(n: nat, d: nat, k: nat)
    requires 26 <= d && Pow(58, 34) <= Pow(58, k) && d * Pow(58, k) <= n
    ensures Pow(256, 25) <= n
  {
    MorePowers();
    assert Pow(58, 34) == 58 * Pow(58, 33);
    MulGrows(26, d, Pow(58, 34), Pow(58, k));
  }

  lemma TooSmall(n: nat, d: nat, k: nat)
    requires d <= 174 && Pow(58, k) <= Pow(58, 31) && n < (d + 1) * Pow(58, k)
    ensures n < Pow(256, 24)
  {
    MorePowers();
    MulGrows(d + 1, 175, Pow(58, k), Pow(58, 31));
  }

  lemma MulGrows(a: nat, b: nat, x: nat, y: nat)
    requires a <= b && x <= y
    ensures a * x <= b * y
  {
  }

  /** The range, from the first digits. */
  lemma RangeOf(n: nat, ds: seq<nat>, prefix: seq<nat>, p: nat)
    requires IsWide(n) && Value(58, ds) == n && InBase(58, ds)
    requires prefix <= ds && Value(58, prefix) == p && 26 <= p <= 174
    ensures Leads(n, p, 32) || (p < 104 && Leads(n, p, 33))
  {
    var rest := ds[|prefix|..];
    assert ds == prefix + rest;
    ValueBounds(58, prefix, rest);
    LeadsWhere(n, p, |rest|);
  }

  lemma WideDigits(n: nat)
    requires IsWide(n)
    ensures Digits(58, n) != [] && Value(58, Digits(58, n)) == n && InBase(58, Digits(58, n))
  {
    ValueOfDigits(58, n);
    PowGrows(256, 0, 24);
    assert Value(58, []) == 0;
  }

  /** The first digit, from the range. */
  lemma FirstDigitIff(n: nat, d: nat)
    requires IsWide(n) && 26 <= d < 58
    ensures Digits(58, n) != [] && (Digits(58, n)[0] == d <==> Leads(n, d, 32) || Leads(n, d, 33))
  {
    WideDigits(n);
    if Digits(58, n)[0] == d {
      OneDigit(58, d);
      RangeOf(n, Digits(58, n), [d], d);
    }
    if Leads(n, d, 32) {
      LeadingDigit(58, n, d, 32);
    }
    if Leads(n, d, 33) {
      LeadingDigit(58, n, d, 33);
    }
  }

  /** A number of leading digits p followed by k more. */
  lemma {:induction false} DigitsPrefix(b: nat, n: nat, p: nat, k: nat)
    requires 2 <= b && 0 < p && p * Pow(b, k) <= n < (p + 1) * Pow(b, k)
    ensures |Digits(b, n)| == |Digits(b, p)| + k && Digits(b, n)[..|Digits(b, p)|] == Digits(b, p)
    decreases k
  {
    if k == 0 {
      assert n == p;
    } else {
      var q := Quotient(n, b);
      Scale(p, b, Pow(b, k - 1));
      Scale(p + 1, b, Pow(b, k - 1));
      QuotientBounds(n, b, p * Pow(b, k - 1), (p + 1) * Pow(b, k - 1));
      DigitsPrefix(b, q, p, k - 1);
      assert Digits(b, n) == Digits(b, q) + [n % b];
    }
  }

  lemma ThreeZero()
    ensures Digits(58, 174) == [3, 0] && Value(58, [3, 0]) == 174
  {
    assert Quotient(174, 58) == 3 && Quotient(3, 58) == 0;
    assert Digits(58, 0) == [] && Digits(58, 3) == [3];
    OneDigit(58, 3);
    assert [3, 0][..1] == [3];
  }

  /** The first two digits, from the range; there are 34 then. */
  lemma FirstTwoIff(n: nat)
    requires IsWide(n)
    ensures [3, 0] <= Digits(58, n) <==> Leads(n, 174, 32)
    ensures Leads(n, 174, 32) ==> |Digits(58, n)| == 34
  {
    WideDigits(n);
    ThreeZero();
    if Leads(n, 174, 32) {
      DigitsPrefix(58, n, 174, 32);
    }
    if [3, 0] <= Digits(58, n) {
      RangeOf(n, Digits(58, n), [3, 0], 174);
    }
  }

  // --- From the number to the spelling ---------------------------------------------------------------------------

  lemma SymbolT(d: nat)
    requires d < 58
    ensures (Symbol(d) == 'T' <==> d == 26) && (Symbol(d) == 't' <==> d == 51)
    ensures (Symbol(d) == '4' <==> d == 3) && (Symbol(d) == '1' <==> d == 0)
    ensures LowerChar(Symbol(d)) == Symbol(d) <==> !(9 <= d <= 32)
  {
  }

  lemma BeginsTIff(n: nat, r: string)
    requires IsWide(n) && InBase(58, Digits(58, n)) && r == Symbols(Digits(58, n))
    ensures StartsWithT(r) <==> BeginsT(n)
  {
    FirstDigitIff(n, 26);
    FirstDigitIff(n, 51);
    SymbolT(Digits(58, n)[0]);
  }

  lemma LowerIff(ds: seq<nat>)
    requires InBase(58, ds)
    ensures ToLower(Symbols(ds)) == Symbols(ds) <==> NoCapitals(ds)
  {
    var r := Symbols(ds);
    forall i | 0 <= i < |ds| ensures LowerChar(r[i]) == r[i] <==> !(9 <= ds[i] <= 32) {
      SymbolT(ds[i]);
    }
    if ToLower(r) == r {
      forall i | 0 <= i < |ds| ensures !(9 <= ds[i] <= 32) {
        assert ToLower(r)[i] == r[i];
      }
    }
  }

  lemma FortyOneIff(ds: seq<nat>)
    requires InBase(58, ds)
    ensures "41" <= Symbols(ds) <==> [3, 0] <= ds
  {
    if |ds| >= 2 {
      SymbolT(ds[0]);
      SymbolT(ds[1]);
      assert "41" <= Symbols(ds) <==> Symbols(ds)[0] == '4' && Symbols(ds)[1] == '1';
      assert [3, 0] <= ds <==> ds[0] == 3 && ds[1] == 0;
    }
  }

  lemma LeftAloneIff(n: nat, r: string)
    requires IsWide(n) && InBase(58, Digits(58, n)) && r == Symbols(Digits(58, n))
    ensures LeftAlone(r) <==> BeginsHex(n)
  {
    FirstTwoIff(n);
    FortyOneIff(Digits(58, n));
    LowerIff(Digits(58, n));
  }

  /** A Base58 spelling that begins with T or t has no zero byte in front. */
  lemma VersionPositive(t: string)
    requires StartsWithT(t) && |Decode(t)| >= 21
    ensures Decode(t)[0] != 0
  {
    assert IsBase58(t);
    SymbolT(SymbolValues(t)[0]);
    assert Symbol(0) == '1';
    SymbolDigit(t[0]);
    DecodeMinimal(t);
    ValueOfDigits(256, Value(58, SymbolValues(t)));
  }

  lemma WideIsWide(sum: Checksum, d: seq<nat>)
    requires |d| >= 21 && InBase(256, d) && d[0] != 0
    ensures IsWide(Wide(sum, d)) && Leads256(Wide(sum, d), d[0])
    ensures Reencode(sum, d) == Encode(d[..21] + Digest(sum, d[..21]))
  {
    var bytes := d[..21] + Digest(sum, d[..21]);
    assert d[..21] == [d[0]] + d[1..21];
    var rest := bytes[1..];
    assert bytes == [d[0]] + rest;
    ValueBounds(256, [d[0]], rest);
    OneDigit(256, d[0]);
    MulGrows(1, d[0], Pow(256, 24), Pow(256, 24));
    MulGrows(d[0] + 1, 256, Pow(256, 24), Pow(256, 24));
  }

  /** The version byte bounds the number. */
  predicate Leads256(n: nat, v: nat) {
    v * Pow(256, 24) <= n < (v + 1) * Pow(256, 24)
  }

  lemma WideSpelling(sum: Checksum, d: seq<nat>)
    requires |d| >= 21 && InBase(256, d) && d[0] != 0
    ensures InBase(58, Digits(58, Wide(sum, d))) && Reencode(sum, d) == Symbols(Digits(58, Wide(sum, d)))
  {
    var bytes := d[..21] + Digest(sum, d[..21]);
    WideIsWide(sum, d);
    NoLeadingZeros(bytes);
    ConvertBack(256, 58, bytes);
  }

  /** Normalising a Base58 spelling twice comes to normalising it once exactly when the number it is written from lies
      in one of four ranges, or in a fifth with no capital letter among its digits. */
  lemma SettlesIff(sum: Checksum, addr: string)
    requires StartsWithT(TrimSpace(addr)) && |Decode(TrimSpace(addr))| >= 21
    ensures NormalizeTron(sum, NormalizeTron(sum, addr)) == NormalizeTron(sum, addr)
       <==> Settles(Wide(sum, Decode(TrimSpace(addr))))
  {
    var t := TrimSpace(addr);
    var d := Decode(t);
    VersionPositive(t);
    WideIsWide(sum, d);
    WideSpelling(sum, d);
    FirstPass(sum, addr, d);
    PassTwice(sum, d);
    BeginsTIff(Wide(sum, d), Reencode(sum, d));
    LeftAloneIff(Wide(sum, d), Reencode(sum, d));
  }

  /** Most version bytes decide it alone: 0x41, 0x42, 0x7F and 0x80 always settle, and all but seven others never do. */
  lemma VersionDecides(n: nat, v: nat)
    requires v < 256 && Leads256(n, v)
    ensures v in {0x41, 0x42, 0x7F, 0x80} ==> Settles(n)
    ensures v !in {0x41, 0x42, 0x7F, 0x80} + {1, 2, 7, 0x40, 0x43, 0x7E, 0x81} ==> !Settles(n)
  {
    MorePowers();
  }
}
