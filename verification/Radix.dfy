/** Positional notation, most significant digit first, and conversion from one base to another that keeps leading
    zeros one for one. */
module Radix {

  function Pow(b: nat, k: nat): nat {
    if k == 0 then 1 else b * Pow(b, k - 1)
  }

  function Value(b: nat, ds: seq<nat>): nat {
    if ds == [] then 0 else Value(b, ds[..|ds| - 1]) * b + ds[|ds| - 1]
  }

  /** The digits of n, none for 0. */
  function Digits(b: nat, n: nat): seq<nat>
    requires 2 <= b
    decreases n
  {
    if n == 0 then [] else Digits(b, Quotient(n, b)) + [n % b]
  }

  function Quotient(n: nat, b: nat): (q: nat)
    requires 2 <= b
    ensures 0 < n ==> q < n
    ensures q * b <= n < q * b + b && n == q * b + n % b
  {
    n / b
  }

  predicate InBase(b: nat, ds: seq<nat>) {
    forall i :: 0 <= i < |ds| ==> ds[i] < b
  }

  predicate Minimal(ds: seq<nat>) {
    ds == [] || ds[0] != 0
  }

  function Zeros(k: nat): seq<nat> {
    seq(k, _ => 0)
  }

  function Leading(ds: seq<nat>): (k: nat)
    ensures k <= |ds| && ds == Zeros(k) + ds[k..] && Minimal(ds[k..])
  {
    if ds != [] && ds[0] == 0 then 1 + Leading(ds[1..]) else 0
  }

  /** From base b to base c, leading zeros kept. */
  function Convert(b: nat, c: nat, ds: seq<nat>): seq<nat>
    requires 2 <= c
  {
    Zeros(Leading(ds)) + Digits(c, Value(b, ds))
  }

  lemma {:induction false} MulStep(x: int, y: int, b: nat)
    requires x < y
    ensures x * b + b <= y * b
    decreases y - x
  {
    assert (y - 1) * b + b == y * b;
    if y <= x + 1 {
    } else {
      MulStep(x, y - 1, b);
    }
  }

  lemma Unique(q: int, v: int, b: nat, n: int)
    requires q * b <= n < q * b + b && v * b <= n < v * b + b
    ensures q == v
  {
    if q < v {
      MulStep(q, v, b);
    } else if v < q {
      MulStep(v, q, b);
    }
  }

  lemma DivMod(v: nat, b: nat, d: nat)
    requires 2 <= b && d < b
    ensures Quotient(v * b + d, b) == v && (v * b + d) % b == d
  {
    Unique(Quotient(v * b + d, b), v, b, v * b + d);
  }

  lemma {:induction false} ValueOfDigits(b: nat, n: nat)
    requires 2 <= b
    ensures Value(b, Digits(b, n)) == n && InBase(b, Digits(b, n)) && Minimal(Digits(b, n))
    decreases n
  {
    if n == 0 {
    } else {
      var q := Quotient(n, b);
      ValueOfDigits(b, q);
      assert Digits(b, n)[..|Digits(b, n)| - 1] == Digits(b, q);
    }
  }

  lemma {:induction false} ValuePositive(b: nat, ds: seq<nat>)
    requires 2 <= b && ds != [] && Minimal(ds)
    ensures Value(b, ds) > 0
  {
    if |ds| <= 1 {
    } else {
      ValuePositive(b, ds[..|ds| - 1]);
      assert Value(b, ds[..|ds| - 1]) * b > 0;
    }
  }

  lemma {:induction false} DigitsOfValue(b: nat, ds: seq<nat>)
    requires 2 <= b && InBase(b, ds) && Minimal(ds)
    ensures Digits(b, Value(b, ds)) == ds
  {
    if ds == [] {
    } else {
      var init, d := ds[..|ds| - 1], ds[|ds| - 1];
      ValuePositive(b, ds);
      DigitsOfValue(b, init);
      DivMod(Value(b, init), b, d);
      assert ds == init + [d];
    }
  }

  lemma {:induction false} ValueZeros(b: nat, k: nat, ds: seq<nat>)
    ensures Value(b, Zeros(k) + ds) == Value(b, ds)
    decreases k + |ds|
  {
    if ds != [] {
      ValueZeros(b, k, ds[..|ds| - 1]);
      assert (Zeros(k) + ds)[..k + |ds| - 1] == Zeros(k) + ds[..|ds| - 1];
    } else if k > 0 {
      ValueZeros(b, k - 1, ds);
      assert (Zeros(k) + ds)[..k - 1] == Zeros(k - 1) + ds;
    }
  }

  lemma {:induction false} LeadingZeros(k: nat, ds: seq<nat>)
    requires Minimal(ds)
    ensures Leading(Zeros(k) + ds) == k
  {
    if k == 0 {
    } else {
      var all := Zeros(k) + ds;
      assert all[0] == 0 && all[1..] == Zeros(k - 1) + ds;
      LeadingZeros(k - 1, ds);
    }
  }

  /** The two conversions undo each other. */
  lemma ConvertBack(b: nat, c: nat, ds: seq<nat>)
    requires 2 <= b && 2 <= c && InBase(b, ds)
    ensures InBase(c, Convert(b, c, ds)) && Convert(c, b, Convert(b, c, ds)) == ds
  {
    var k := Leading(ds);
    var core, n := ds[k..], Value(b, ds);
    ValueZeros(b, k, core);
    ValueOfDigits(c, n);
    LeadingZeros(k, Digits(c, n));
    ValueZeros(c, k, Digits(c, n));
    DigitsOfValue(b, core);
  }

  lemma Scale(x: nat, b: nat, p: nat)
    ensures x * (b * p) == (x * p) * b
  {
  }

  /** A quotient lies between multiples that the number itself lies between. */
  lemma QuotientBounds(n: nat, b: nat, x: nat, y: nat)
    requires 2 <= b && x * b <= n < y * b
    ensures x <= Quotient(n, b) < y
  {
    var q := Quotient(n, b);
    if q < x {
      MulStep(q, x, b);
    } else if y < q {
      MulStep(y, q, b);
    }
  }

  lemma {:induction false} PowAdd(b: nat, i: nat, j: nat)
    ensures Pow(b, i + j) == Pow(b, i) * Pow(b, j)
  {
    if i == 0 {
    } else {
      PowAdd(b, i - 1, j);
      Associate(b, Pow(b, i - 1), Pow(b, j));
    }
  }

  lemma Associate(x: nat, y: nat, z: nat)
    ensures x * (y * z) == (x * y) * z
  {
  }

  /** A number of leading digit d followed by k more. */
  lemma {:induction false} LeadingDigit(b: nat, n: nat, d: nat, k: nat)
    requires 2 <= b && 0 < d < b && d * Pow(b, k) <= n < (d + 1) * Pow(b, k)
    ensures |Digits(b, n)| == k + 1 && Digits(b, n)[0] == d
    decreases k
  {
    if k == 0 {
      DivMod(0, b, d);
      assert Digits(b, n) == Digits(b, 0) + [d];
    } else {
      var p := Pow(b, k - 1);
      Scale(d, b, p);
      Scale(d + 1, b, p);
      QuotientBounds(n, b, d * p, (d + 1) * p);
      LeadingDigit(b, Quotient(n, b), d, k - 1);
      assert Digits(b, 0) == [];
    }
  }

  /** A number with the leading digits ds lies between Value(ds) and Value(ds) + 1, scaled. */
  lemma {:induction false} ValueBounds(b: nat, ds: seq<nat>, rest: seq<nat>)
    requires 0 < b && InBase(b, rest)
    ensures Value(b, ds) * Pow(b, |rest|) <= Value(b, ds + rest) < (Value(b, ds) + 1) * Pow(b, |rest|)
    decreases |rest|
  {
    if rest == [] {
      assert ds + rest == ds;
    } else {
      var init, d := rest[..|rest| - 1], rest[|rest| - 1];
      ValueBounds(b, ds, init);
      assert (ds + rest)[..|ds + rest| - 1] == ds + init;
      BoundsStep(b, Value(b, ds), Pow(b, |init|), Value(b, ds + init), d);
    }
  }

  lemma BoundsStep(b: nat, v: nat, p: nat, w: nat, d: nat)
    requires d < b && v * p <= w < (v + 1) * p
    ensures v * (b * p) <= w * b + d < (v + 1) * (b * p)
  {
    Scale(v, b, p);
    Scale(v + 1, b, p);
    if v * p < w {
      MulStep(v * p, w, b);
    }
    MulStep(w, (v + 1) * p, b);
  }
}
