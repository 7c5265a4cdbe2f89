/** Normalised events and the key that identifies them. */
module Events {
  import opened Prelude
  import opened Radix

  datatype Direction = In | Out | Neither

  /** The contract is empty for a native transfer; the amount is the number before it is written out. */
  datatype Asset = Asset(contract: string, amount: Option<int>)

  datatype Event = Event(chain: string, txHash: string, index: int, watched: string, direction: Direction,
                         from: string, to: string, asset: Option<Asset>)

  /** The contract of what was moved, empty when there is none. */
  function ContractOf(e: Event): string {
    if e.asset.Some? then e.asset.value.contract else ""
  }

  function DigitChar(d: nat): char
    requires d < 10
  {
    ('0' as int + d) as char
  }

  function Decimal(n: nat): (s: string)
    ensures s != "" && forall i :: 0 <= i < |s| ==> '0' <= s[i] <= '9'
    decreases n
  {
    var q := Quotient(n, 10);
    if q == 0 then [DigitChar(n % 10)] else Decimal(q) + [DigitChar(n % 10)]
  }

  /** `%d`. */
  function Itoa(n: int): (s: string)
    ensures forall i :: 0 <= i < |s| ==> s[i] != ':'
  {
    if n < 0 then "-" + Decimal(-n) else Decimal(n)
  }

  lemma {:induction false} DecimalInjective(m: nat, n: nat)
    requires Decimal(m) == Decimal(n)
    ensures m == n
    decreases m
  {
    var s, p, q := Decimal(m), Quotient(m, 10), Quotient(n, 10);
    assert s[|s| - 1] == DigitChar(m % 10) == DigitChar(n % 10);
    assert |s| == 1 <==> p == 0;
    if p == 0 {
    } else {
      assert s[..|s| - 1] == Decimal(p) && s[..|s| - 1] == Decimal(q);
      DecimalInjective(p, q);
    }
  }

  lemma ItoaSign(n: int)
    ensures Itoa(n) != "" && (Itoa(n)[0] == '-' <==> n < 0)
  {
  }

  lemma ItoaInjective(m: int, n: int)
    requires Itoa(m) == Itoa(n)
    ensures m == n
  {
    ItoaSign(m);
    ItoaSign(n);
    if m < 0 {
      assert Itoa(m)[1..] == Decimal(-m) && Itoa(n)[1..] == Decimal(-n);
      DecimalInjective(-m, -n);
    } else {
      DecimalInjective(m, n);
    }
  }

  /** What is hashed into the event id. */
  function Key(chain: string, txHash: string, index: int): string {
    chain + ":" + txHash + ":" + Itoa(index)
  }

  /** The id of an event is the hash of its key; the key stands for it. */
  function KeyOf(e: Event): string {
    Key(e.chain, e.txHash, e.index)
  }

  /** Two strings cut at their first colon. */
  lemma FirstColon(a: string, x: string, b: string, y: string)
    requires ':' !in a && ':' !in b && a + ":" + x == b + ":" + y
    ensures a == b && x == y
  {
    var s := a + ":" + x;
    assert forall k :: 0 <= k < |a| ==> s[k] == a[k];
    assert forall k :: 0 <= k < |b| ==> s[k] == b[k];
    assert s[|a|] == ':' && s[|b|] == ':';
    assert |a| == |b|;
    assert s[..|a|] == a && s[..|b|] == b && s[|a| + 1..] == x && s[|b| + 1..] == y;
  }

  /** Two strings cut at their last colon. */
  lemma LastColon(a: string, x: string, b: string, y: string)
    requires ':' !in x && ':' !in y && a + ":" + x == b + ":" + y
    ensures a == b && x == y
  {
    var s := a + ":" + x;
    assert forall k :: |a| < k < |s| ==> s[k] == x[k - |a| - 1];
    assert forall k :: |b| < k < |s| ==> s[k] == y[k - |b| - 1];
    assert s[|a|] == ':' && s[|b|] == ':';
    assert |a| == |b|;
    assert s[..|a|] == a && s[..|b|] == b && s[|a| + 1..] == x && s[|b| + 1..] == y;
  }

  /** Chains without a colon are enough: the index has none either, so both ends of the key can be cut off. */
  lemma KeyInjective(chain: string, txHash: string, index: int, chain': string, txHash': string, index': int)
    requires ':' !in chain && ':' !in chain'
    requires Key(chain, txHash, index) == Key(chain', txHash', index')
    ensures chain == chain' && txHash == txHash' && index == index'
  {
    LastColon(chain + ":" + txHash, Itoa(index), chain' + ":" + txHash', Itoa(index'));
    FirstColon(chain, txHash, chain', txHash');
    ItoaInjective(index, index');
  }

  ghost predicate OfTransaction(es: seq<Event>, chain: string, txHash: string) {
    forall e :: e in es ==> e.chain == chain && e.txHash == txHash
  }

  ghost predicate DistinctKeys(es: seq<Event>) {
    forall j, k :: 0 <= j < k < |es| ==> KeyOf(es[j]) != KeyOf(es[k])
  }

  /** Numbers from `low` up to `high`, growing strictly. */
  ghost predicate Ascending(es: seq<Event>, low: int, high: int) {
    && (forall k :: 0 <= k < |es| ==> low <= es[k].index < high)
    && (forall j, k :: 0 <= j < k < |es| ==> es[j].index < es[k].index)
  }

  lemma AscendingJoin(es: seq<Event>, fs: seq<Event>, low: int, mid: int, high: int)
    requires Ascending(es, low, mid) && Ascending(fs, mid, high) && low <= mid <= high
    ensures Ascending(es + fs, low, high)
  {
  }

  /** Events of one transaction with growing numbers have different ids. */
  lemma AscendingKeys(es: seq<Event>, chain: string, txHash: string, low: int, high: int)
    requires ':' !in chain && OfTransaction(es, chain, txHash) && Ascending(es, low, high)
    ensures DistinctKeys(es)
  {
    forall j, k | 0 <= j < k < |es| ensures KeyOf(es[j]) != KeyOf(es[k]) {
      assert es[j].index < es[k].index && es[j] in es && es[k] in es;
      if KeyOf(es[j]) == KeyOf(es[k]) {
        KeyInjective(chain, txHash, es[j].index, chain, txHash, es[k].index);
      }
    }
  }

  lemma JoinedKeys(es: seq<Event>, fs: seq<Event>, chain: string, txHash: string, low: int, mid: int, high: int)
    requires ':' !in chain && OfTransaction(es, chain, txHash) && OfTransaction(fs, chain, txHash)
    requires Ascending(es, low, mid) && Ascending(fs, mid, high) && low <= mid <= high
    ensures DistinctKeys(es + fs)
  {
    AscendingJoin(es, fs, low, mid, high);
    AscendingKeys(es + fs, chain, txHash, low, high);
  }

  /** With a colon in the chain the key says less than its parts. */
  lemma KeyClash(x: string, y: string, z: string, index: int)
    ensures Key(x + ":" + y, z, index) == Key(x, y + ":" + z, index)
  {
    assert x + ":" + y + ":" + z == x + ":" + (y + ":" + z);
  }

  // --- What was moved -------------------------------------------------------------------------------------------

  function Signed(e: Event): int {
    if e.asset.None? || e.asset.value.amount.None? then 0
    else if e.direction.In? then e.asset.value.amount.value
    else if e.direction.Out? then -e.asset.value.amount.value
    else 0
  }

  /** Total in minus total out. */
  function Balance(events: seq<Event>): int {
    if events == [] then 0 else Balance(events[..|events| - 1]) + Signed(events[|events| - 1])
  }

  lemma BalanceAppend(events: seq<Event>, e: Event)
    ensures Balance(events + [e]) == Balance(events) + Signed(e)
  {
    assert (events + [e])[..|events|] == events;
  }

  /** One transfer, told to both sides: the sender hears that it went out, the receiver that it came in, and both hear
      the same parties and the same amount. */
  ghost predicate BothSides(es: seq<Event>, from: string, to: string, contract: string, amount: int) {
    && |es| == 2
    && es[0].direction == Out && es[0].watched == from
    && es[1].direction == In && es[1].watched == to
    && forall i :: 0 <= i < 2 ==>
         es[i].from == from && es[i].to == to && es[i].asset == Some(Asset(contract, Some(amount)))
  }

  /** In minus out of a transfer is nothing. */
  lemma TransferBalances(es: seq<Event>, from: string, to: string, contract: string, amount: int)
    requires BothSides(es, from, to, contract, amount)
    ensures Balance(es) == 0
  {
    assert es[..1][..0] == [] && es[..1][0] == es[0];
    assert Balance(es[..1]) == Signed(es[0]);
  }

  /** One account gained or lost an amount: the event says which, and that it is not zero. */
  ghost predicate OneSide(e: Event, account: string, contract: string, change: int) {
    && e.watched == e.from == e.to == account && ContractOf(e) == contract && !e.direction.Neither?
    && e.asset.Some? && e.asset.value.amount.Some? && e.asset.value.amount.value > 0 && Signed(e) == change
  }
}
