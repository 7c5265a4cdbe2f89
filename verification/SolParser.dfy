/** Events of a Solana transaction: net balance changes in 64-bit arithmetic, and token balances. */
module SolParser {
  import opened Prelude
  import opened Radix
  import opened Events

  const TWO63: int := 0x8000_0000_0000_0000
  const TWO64: int := 0x1_0000_0000_0000_0000

  /** A conversion to int64. */
  function Int64(x: int): (r: int)
    ensures -TWO63 <= r < TWO63 && (r - x) % TWO64 == 0
  {
    (x + TWO63) % TWO64 - TWO63
  }

  predicate IsUint64(n: int) {
    0 <= n < TWO64
  }

  predicate AllUint64(s: seq<int>) {
    forall i :: 0 <= i < |s| ==> IsUint64(s[i])
  }

  /** The balances the loop looks at: as far as all three lists reach. */
  function Reach(accounts: seq<string>, pre: seq<int>, post: seq<int>): (n: nat)
    ensures n <= |accounts| && n <= |pre| && n <= |post|
    ensures n == |accounts| || n == |pre| || n == |post|
  {
    var m := if |pre| <= |post| then |pre| else |post|;
    if |accounts| <= m then |accounts| else m
  }

  /** The change of balance i as computed, in int64; the first account gets the fee back. */
  function NetChange(pre: seq<int>, post: seq<int>, fee: int, i: nat): int
    requires i < |pre| && i < |post|
  {
    var d := Int64(Int64(post[i]) - Int64(pre[i]));
    if i == 0 then Int64(d + Int64(fee)) else d
  }

  /** The event of a change that is not zero; -(-2^63) is -2^63 in int64 and 2^63 as uint64. */
  function NativeEvent(txHash: string, account: string, change: int, i: nat): Event {
    var addr := ToLower(account);
    Event("SOL", txHash, i, addr, if change > 0 then In else Out, addr, addr,
          Some(Asset("", Some(if change > 0 then change else -change))))
  }

  /** All changes, in the order of the accounts. */
  function Changes(accounts: seq<string>, pre: seq<int>, post: seq<int>, fee: int): (changes: seq<int>)
    ensures |changes| == Reach(accounts, pre, post)
  {
    seq(Reach(accounts, pre, post), i requires 0 <= i < Reach(accounts, pre, post) => NetChange(pre, post, fee, i))
  }

  /** The events of the first n changes: one for each that is not zero. */
  function NativeUpTo(txHash: string, accounts: seq<string>, changes: seq<int>, n: nat): seq<Event>
    requires n <= |changes| && n <= |accounts|
  {
    if n == 0 then []
    else
      NativeUpTo(txHash, accounts, changes, n - 1)
      + if changes[n - 1] == 0 then [] else [NativeEvent(txHash, accounts[n - 1], changes[n - 1], n - 1)]
  }

  function NativeEvents(txHash: string, accounts: seq<string>, pre: seq<int>, post: seq<int>, fee: int): seq<Event> {
    NativeUpTo(txHash, accounts, Changes(accounts, pre, post, fee), Reach(accounts, pre, post))
  }

  lemma NativeMore(txHash: string, accounts: seq<string>, changes: seq<int>, n: nat)
    requires n < |changes| && n < |accounts|
    ensures NativeUpTo(txHash, accounts, changes, n + 1)
         == if changes[n] == 0 then NativeUpTo(txHash, accounts, changes, n)
            else NativeUpTo(txHash, accounts, changes, n) + [NativeEvent(txHash, accounts[n], changes[n], n)]
  {
    var prior := NativeUpTo(txHash, accounts, changes, n);
    assert prior + [] == prior;
  }

  method ComputeChange(pre: seq<int>, post: seq<int>, fee: int, i: nat) returns (netChange: int)
    requires i < |pre| && i < |post|
    ensures netChange == NetChange(pre, post, fee, i) && -TWO63 <= netChange < TWO63
  {
    netChange := Int64(Int64(post[i]) - Int64(pre[i]));
    if i == 0 {
      netChange := Int64(netChange + Int64(fee));
    }
  }

  method Describe(netChange: int) returns (direction: Direction, amount: int)
    requires -TWO63 <= netChange < TWO63 && netChange != 0
    ensures direction == if netChange > 0 then In else Out
    ensures amount == if netChange > 0 then netChange else -netChange
  {
    if netChange > 0 {
      direction, amount := In, netChange;
    } else {
      direction, amount := Out, Int64(-netChange) % TWO64;
    }
  }

  method ParseNativeTransfers(txHash: string, accounts: seq<string>, pre: seq<int>, post: seq<int>, fee: int)
    returns (events: seq<Event>)
    requires AllUint64(pre) && AllUint64(post) && IsUint64(fee)
    ensures events == NativeEvents(txHash, accounts, pre, post, fee)
  {
    ghost var changes := Changes(accounts, pre, post, fee);
    events := [];
    var i := 0;
    while i < |accounts| && i < |pre| && i < |post|
      invariant i <= |changes|
      invariant events == NativeUpTo(txHash, accounts, changes, i)
    {
      var netChange := ComputeChange(pre, post, fee, i);
      assert netChange == changes[i];
      NativeMore(txHash, accounts, changes, i);
      if netChange == 0 {
        i := i + 1;
        continue;
      }
      var addr := ToLower(accounts[i]);
      var direction, amount := Describe(netChange);
      events := events + [Event("SOL", txHash, i, addr, direction, addr, addr, Some(Asset("", Some(amount))))];
      i := i + 1;
    }
  }

  // --- Conservation ---------------------------------------------------------------------------------------------

  function Sum(s: seq<int>, n: nat): int
    requires n <= |s|
  {
    if n == 0 then 0 else Sum(s, n - 1) + s[n - 1]
  }

  predicate Congruent(x: int, y: int) {
    (x - y) % TWO64 == 0
  }

  lemma CongruentAdd(x: int, y: int, u: int, v: int)
    requires Congruent(x, y) && Congruent(u, v)
    ensures Congruent(x + u, y + v) && Congruent(x - u, y - v)
  {
    var k, l := (x - y) / TWO64, (u - v) / TWO64;
    assert x - y == TWO64 * k && u - v == TWO64 * l;
    assert (x + u) - (y + v) == TWO64 * (k + l) && (x - u) - (y - v) == TWO64 * (k - l);
  }

  lemma CongruentTrans(x: int, y: int, z: int)
    requires Congruent(x, y) && Congruent(y, z)
    ensures Congruent(x, z)
  {
    CongruentAdd(x, y, y, z);
  }

  lemma NetChangeCongruent(pre: seq<int>, post: seq<int>, fee: int, i: nat)
    requires i < |pre| && i < |post|
    ensures Congruent(NetChange(pre, post, fee, i), Change(pre, post, fee, i))
  {
    var p, q, f := Int64(post[i]), Int64(pre[i]), Int64(fee);
    CongruentAdd(p, post[i], q, pre[i]);
    CongruentTrans(Int64(p - q), p - q, post[i] - pre[i]);
    if i == 0 {
      CongruentAdd(Int64(p - q), post[i] - pre[i], f, fee);
      CongruentTrans(Int64(Int64(p - q) + f), Int64(p - q) + f, post[i] - pre[i] + fee);
    }
  }

  /** The balances that changed, and the fee if there is an account that paid it. */
  function Moved(pre: seq<int>, post: seq<int>, fee: int, n: nat): int
    requires n <= |pre| && n <= |post|
  {
    Sum(post, n) - Sum(pre, n) + if n > 0 then fee else 0
  }

  lemma {:induction false} BalanceIsChanges(txHash: string, accounts: seq<string>, changes: seq<int>, n: nat)
    requires n <= |changes| && n <= |accounts|
    ensures Balance(NativeUpTo(txHash, accounts, changes, n)) == Sum(changes, n)
  {
    if n == 0 {
    } else {
      var prior := NativeUpTo(txHash, accounts, changes, n - 1);
      BalanceIsChanges(txHash, accounts, changes, n - 1);
      if changes[n - 1] != 0 {
        BalanceAppend(prior, NativeEvent(txHash, accounts[n - 1], changes[n - 1], n - 1));
      } else {
        assert prior + [] == prior;
      }
    }
  }

  lemma {:induction false} SumCongruent(pre: seq<int>, post: seq<int>, fee: int, changes: seq<int>, n: nat)
    requires n <= |pre| && n <= |post| && n <= |changes|
    requires forall i :: 0 <= i < n ==> Congruent(changes[i], Change(pre, post, fee, i))
    ensures Congruent(Sum(changes, n), Moved(pre, post, fee, n))
  {
    if n == 0 {
    } else {
      SumCongruent(pre, post, fee, changes, n - 1);
      CongruentAdd(Sum(changes, n - 1), Moved(pre, post, fee, n - 1), changes[n - 1], Change(pre, post, fee, n - 1));
    }
  }

  /** The change of a balance, without any width. */
  function Change(pre: seq<int>, post: seq<int>, fee: int, i: nat): int
    requires i < |pre| && i < |post|
  {
    post[i] - pre[i] + if i == 0 then fee else 0
  }

  /** For any 64-bit balances at all, value is conserved modulo 2^64. */
  lemma ConservedModulo(txHash: string, accounts: seq<string>, pre: seq<int>, post: seq<int>, fee: int)
    ensures Congruent(Balance(NativeEvents(txHash, accounts, pre, post, fee)),
                      Moved(pre, post, fee, Reach(accounts, pre, post)))
  {
    var changes, n := Changes(accounts, pre, post, fee), Reach(accounts, pre, post);
    BalanceIsChanges(txHash, accounts, changes, n);
    forall i | 0 <= i < n ensures Congruent(changes[i], Change(pre, post, fee, i)) {
      NetChangeCongruent(pre, post, fee, i);
    }
    SumCongruent(pre, post, fee, changes, n);
  }

  predicate FitsInt64(change: int) {
    -TWO63 <= change < TWO63
  }

  lemma CongruentUnique(x: int, y: int)
    requires Congruent(x, y) && FitsInt64(x) && FitsInt64(y)
    ensures x == y
  {
  }

  lemma NetChangeFits(pre: seq<int>, post: seq<int>, fee: int, i: nat)
    requires i < |pre| && i < |post|
    ensures FitsInt64(NetChange(pre, post, fee, i))
  {
  }

  /** Whatever the balances and the fee, a change is computed exactly when it fits into an int64. */
  lemma ExactIff(pre: seq<int>, post: seq<int>, fee: int, i: nat)
    requires i < |pre| && i < |post|
    ensures NetChange(pre, post, fee, i) == Change(pre, post, fee, i) <==> FitsInt64(Change(pre, post, fee, i))
  {
    NetChangeFits(pre, post, fee, i);
    if FitsInt64(Change(pre, post, fee, i)) {
      NetChangeCongruent(pre, post, fee, i);
      CongruentUnique(NetChange(pre, post, fee, i), Change(pre, post, fee, i));
    }
  }

  /** A change of less than 2^64 either way is reported with its own direction exactly when it fits: otherwise a gain is
      reported as a loss, and a loss as a gain. */
  lemma DirectionIff(pre: seq<int>, post: seq<int>, fee: int, i: nat, txHash: string, account: string)
    requires i < |pre| && i < |post| && -TWO64 < Change(pre, post, fee, i) < TWO64 && Change(pre, post, fee, i) != 0
    ensures NetChange(pre, post, fee, i) != 0
    ensures NativeEvent(txHash, account, NetChange(pre, post, fee, i), i).direction
         == (if Change(pre, post, fee, i) > 0 then In else Out)
       <==> FitsInt64(Change(pre, post, fee, i))
  {
    ExactIff(pre, post, fee, i);
    NetChangeFits(pre, post, fee, i);
    NetChangeCongruent(pre, post, fee, i);
    OneWrap(NetChange(pre, post, fee, i), Change(pre, post, fee, i));
  }

  lemma OneWrap(x: int, y: int)
    requires Congruent(x, y) && FitsInt64(x) && -TWO64 < y < TWO64
    ensures x == y || x == y - TWO64 || x == y + TWO64
  {
    var k := (x - y) / TWO64;
    assert x - y == TWO64 * k;
  }

  lemma {:induction false} SumExact(pre: seq<int>, post: seq<int>, fee: int, changes: seq<int>, n: nat)
    requires n <= |pre| && n <= |post| && n <= |changes|
    requires forall i :: 0 <= i < n ==> changes[i] == Change(pre, post, fee, i)
    ensures Sum(changes, n) == Moved(pre, post, fee, n)
  {
    if n == 0 {
    } else {
      SumExact(pre, post, fee, changes, n - 1);
    }
  }

  /** When every change fits, total in minus total out is the sum of the balance changes plus the fee: nothing when the
      balances lose just it. */
  lemma Conserved(txHash: string, accounts: seq<string>, pre: seq<int>, post: seq<int>, fee: int)
    requires forall i :: 0 <= i < Reach(accounts, pre, post) ==> FitsInt64(Change(pre, post, fee, i))
    ensures Balance(NativeEvents(txHash, accounts, pre, post, fee)) == Moved(pre, post, fee, Reach(accounts, pre, post))
  {
    var changes, n := Changes(accounts, pre, post, fee), Reach(accounts, pre, post);
    BalanceIsChanges(txHash, accounts, changes, n);
    forall i | 0 <= i < n ensures changes[i] == Change(pre, post, fee, i) {
      ExactIff(pre, post, fee, i);
    }
    SumExact(pre, post, fee, changes, n);
  }

  /** Balances below 2^63 and a fee that its payer could pay are enough. */
  lemma SmallConserved(txHash: string, accounts: seq<string>, pre: seq<int>, post: seq<int>, fee: int)
    requires var n := Reach(accounts, pre, post);
             && (n > 0 ==> 0 <= fee <= pre[0])
             && forall i :: 0 <= i < n ==> 0 <= pre[i] < TWO63 && 0 <= post[i] < TWO63
    ensures Balance(NativeEvents(txHash, accounts, pre, post, fee)) == Moved(pre, post, fee, Reach(accounts, pre, post))
  {
    forall i | 0 <= i < Reach(accounts, pre, post) ensures FitsInt64(Change(pre, post, fee, i)) {
      assert 0 <= pre[i] < TWO63 && 0 <= post[i] < TWO63;
    }
    Conserved(txHash, accounts, pre, post, fee);
  }

  /** One event for each net change that is not zero, and none else, in the order of the accounts; it is about the
      account that changed, and says by how much and which way. */
  lemma OneEventEach(txHash: string, accounts: seq<string>, pre: seq<int>, post: seq<int>, fee: int)
    ensures var es, n := NativeEvents(txHash, accounts, pre, post, fee), Reach(accounts, pre, post);
            && Ascending(es, 0, n) && OfTransaction(es, "SOL", txHash)
            && (forall i :: 0 <= i < n ==> (Numbered(es, i) <==> NetChange(pre, post, fee, i) != 0))
            && forall e :: e in es ==> OneSide(e, ToLower(accounts[e.index]), "", NetChange(pre, post, fee, e.index))
  {
    var changes := Changes(accounts, pre, post, fee);
    EventForChange(txHash, accounts, changes, |changes|);
    forall e | e in NativeEvents(txHash, accounts, pre, post, fee)
      ensures 0 <= e.index < |changes|
              && OneSide(e, ToLower(accounts[e.index]), "", NetChange(pre, post, fee, e.index))
    {
      NativeSays(txHash, accounts, changes, |changes|, e);
    }
  }

  lemma {:induction false} NativeSays(txHash: string, accounts: seq<string>, changes: seq<int>, n: nat, e: Event)
    requires n <= |changes| && n <= |accounts| && e in NativeUpTo(txHash, accounts, changes, n)
    ensures 0 <= e.index < n && OneSide(e, ToLower(accounts[e.index]), "", changes[e.index])
  {
    if n == 0 {
    } else if e in NativeUpTo(txHash, accounts, changes, n - 1) {
      NativeSays(txHash, accounts, changes, n - 1, e);
    }
  }

  ghost predicate Tells(es: seq<Event>, changes: seq<int>, txHash: string, n: nat)
    requires n <= |changes|
  {
    && Ascending(es, 0, n) && OfTransaction(es, "SOL", txHash)
    && forall i :: 0 <= i < n ==> (Numbered(es, i) <==> changes[i] != 0)
  }

  lemma {:induction false} EventForChange(txHash: string, accounts: seq<string>, changes: seq<int>, n: nat)
    requires n <= |changes| && n <= |accounts|
    ensures Tells(NativeUpTo(txHash, accounts, changes, n), changes, txHash, n)
  {
    if n == 0 {
    } else {
      var prior := NativeUpTo(txHash, accounts, changes, n - 1);
      EventForChange(txHash, accounts, changes, n - 1);
      if changes[n - 1] != 0 {
        TellsOne(prior, NativeEvent(txHash, accounts[n - 1], changes[n - 1], n - 1), changes, txHash, n);
      } else {
        assert prior + [] == prior;
        TellsNone(prior, changes, txHash, n);
      }
    }
  }

  lemma TellsOne(prior: seq<Event>, e: Event, changes: seq<int>, txHash: string, n: nat)
    requires 0 < n <= |changes| && Tells(prior, changes, txHash, n - 1) && changes[n - 1] != 0
    requires e.index == n - 1 && e.chain == "SOL" && e.txHash == txHash
    ensures Tells(prior + [e], changes, txHash, n)
  {
    AscendingAppend(prior, e, 0, n - 1);
  }

  lemma TellsNone(es: seq<Event>, changes: seq<int>, txHash: string, n: nat)
    requires 0 < n <= |changes| && Tells(es, changes, txHash, n - 1) && changes[n - 1] == 0
    ensures Tells(es, changes, txHash, n)
  {
  }

  ghost predicate Numbered(es: seq<Event>, i: int) {
    exists k :: 0 <= k < |es| && es[k].index == i
  }

  lemma AscendingAppend(es: seq<Event>, e: Event, low: int, n: int)
    requires Ascending(es, low, n) && low <= n == e.index
    ensures Ascending(es + [e], low, n + 1) && Numbered(es + [e], n)
    ensures forall i :: i < n ==> (Numbered(es + [e], i) <==> Numbered(es, i))
  {
    assert (es + [e])[|es|] == e;
    forall i | i < n ensures Numbered(es + [e], i) <==> Numbered(es, i) {
      if k :| 0 <= k < |es| && es[k].index == i {
        assert (es + [e])[k].index == i;
      }
    }
  }

  // --- Token balances -------------------------------------------------------------------------------------------

  function IsDecimalDigit(c: char): bool {
    '0' <= c <= '9'
  }

  /** The digits of a string read as a number modulo 2^64; everything else is skipped. */
  function Uint64Of(s: string): (n: int)
    ensures IsUint64(n)
  {
    if s == "" then 0
    else
      var c, n := s[|s| - 1], Uint64Of(s[..|s| - 1]);
      if IsDecimalDigit(c) then (n * 10 + (c as int - '0' as int)) % TWO64 else n
  }

  method ParseUint64(s: string) returns (n: int)
    ensures n == Uint64Of(s)
  {
    n := 0;
    for i := 0 to |s|
      invariant n == Uint64Of(s[..i])
    {
      var c := s[i];
      assert s[..i + 1][..i] == s[..i];
      if IsDecimalDigit(c) {
        n := (n * 10 + (c as int - '0' as int)) % TWO64;
      }
    }
    assert s[..|s|] == s;
  }

  /** Reading back a 64-bit number that was written in decimal. */
  lemma {:induction false} Uint64OfDecimal(n: nat)
    requires n < TWO64
    ensures Uint64Of(Decimal(n)) == n
    decreases n
  {
    var q := Quotient(n, 10);
    var s := Decimal(n);
    if q != 0 {
      Uint64OfDecimal(q);
      assert s[..|s| - 1] == Decimal(q);
    } else {
      assert s[..|s| - 1] == "" && Uint64Of("") == 0;
    }
  }

  datatype TokenBalance = TokenBalance(account: nat, mint: string, owner: string, amount: string)

  /** The balance the map holds for an account after the first n entries: the last of them wins. */
  function LastFor(pre: seq<TokenBalance>, account: nat, n: nat): Option<TokenBalance>
    requires n <= |pre|
  {
    if n == 0 then None else if pre[n - 1].account == account then Some(pre[n - 1]) else LastFor(pre, account, n - 1)
  }

  function AmountOf(b: Option<TokenBalance>): (n: int)
    ensures IsUint64(n)
  {
    if b.Some? then Uint64Of(b.value.amount) else 0
  }

  function Befores(pre: seq<TokenBalance>, post: seq<TokenBalance>): (s: seq<int>)
    ensures |s| == |post|
  {
    seq(|post|, i requires 0 <= i < |post| => AmountOf(LastFor(pre, post[i].account, |pre|)))
  }

  function Afters(post: seq<TokenBalance>): (s: seq<int>)
    ensures |s| == |post|
  {
    seq(|post|, i requires 0 <= i < |post| => Uint64Of(post[i].amount))
  }

  function TokenEvent(txHash: string, before: int, after: int, b: TokenBalance, i: nat): Event {
    var owner := ToLower(b.owner);
    Event("SOL", txHash, 10000 + i, owner, if after > before then In else Out, owner, owner,
          Some(Asset(b.mint, Some(if after > before then after - before else before - after))))
  }

  /** The events of the first n balances: one for each that differs from before. */
  function TokenUpTo(txHash: string, befores: seq<int>, afters: seq<int>, post: seq<TokenBalance>, n: nat): seq<Event>
    requires n <= |post| == |befores| == |afters|
  {
    if n == 0 then []
    else TokenUpTo(txHash, befores, afters, post, n - 1)
         + if befores[n - 1] == afters[n - 1] then []
             else [TokenEvent(txHash, befores[n - 1], afters[n - 1], post[n - 1], n - 1)]
  }

  function TokenEvents(txHash: string, pre: seq<TokenBalance>, post: seq<TokenBalance>): seq<Event> {
    TokenUpTo(txHash, Befores(pre, post), Afters(post), post, |post|)
  }

  method BuildPreMap(pre: seq<TokenBalance>) returns (preMap: map<nat, TokenBalance>)
    ensures forall a :: LastFor(pre, a, |pre|) == if a in preMap then Some(preMap[a]) else None
  {
    preMap := map[];
    for i := 0 to |pre|
      invariant forall a :: LastFor(pre, a, i) == if a in preMap then Some(preMap[a]) else None
    {
      preMap := preMap[pre[i].account := pre[i]];
    }
  }

  method ParseAmount(b: Option<TokenBalance>) returns (n: int)
    ensures n == AmountOf(b)
  {
    n := 0;
    if b.Some? && b.value.amount != "" {
      n := ParseUint64(b.value.amount);
    }
  }

  method ParseTokenTransfers(txHash: string, pre: seq<TokenBalance>,
                             post: seq<TokenBalance>) returns (events: seq<Event>)
    ensures events == TokenEvents(txHash, pre, post)
  {
    ghost var befores, afters := Befores(pre, post), Afters(post);
    var preMap := BuildPreMap(pre);
    events := [];
    for i := 0 to |post|
      invariant events == TokenUpTo(txHash, befores, afters, post, i)
    {
      var b := post[i];
      var before := ParseAmount(if b.account in preMap then Some(preMap[b.account]) else None);
      var after := ParseAmount(Some(b));
      assert before == befores[i] && after == afters[i];
      if before == after {
        continue;
      }
      events := events + [TokenEvent(txHash, before, after, b, i)];
    }
  }

  /** What the events of the token balances add up to: the balances after, less those before of the same accounts. An
      account that is only in the list before leaves no event. */
  lemma TokensConserved(txHash: string, pre: seq<TokenBalance>, post: seq<TokenBalance>)
    ensures Balance(TokenEvents(txHash, pre, post)) == Sum(Afters(post), |post|) - Sum(Befores(pre, post), |post|)
  {
    TokenBalanceUpTo(txHash, Befores(pre, post), Afters(post), post, |post|);
  }

  lemma TokenMore(txHash: string, befores: seq<int>, afters: seq<int>, post: seq<TokenBalance>, n: nat)
    requires 0 < n <= |post| == |befores| == |afters|
    ensures var prior := TokenUpTo(txHash, befores, afters, post, n - 1);
            TokenUpTo(txHash, befores, afters, post, n)
            == if befores[n - 1] == afters[n - 1] then prior
               else prior + [TokenEvent(txHash, befores[n - 1], afters[n - 1], post[n - 1], n - 1)]
  {
    var prior := TokenUpTo(txHash, befores, afters, post, n - 1);
    assert prior + [] == prior;
  }

  lemma {:induction false} TokenBalanceUpTo(txHash: string, befores: seq<int>, afters: seq<int>,
                                            post: seq<TokenBalance>, n: nat)
    requires n <= |post| == |befores| == |afters|
    ensures Balance(TokenUpTo(txHash, befores, afters, post, n)) == Sum(afters, n) - Sum(befores, n)
  {
    if n == 0 {
    } else {
      var prior := TokenUpTo(txHash, befores, afters, post, n - 1);
      TokenBalanceUpTo(txHash, befores, afters, post, n - 1);
      TokenMore(txHash, befores, afters, post, n);
      if befores[n - 1] != afters[n - 1] {
        BalanceAppend(prior, TokenEvent(txHash, befores[n - 1], afters[n - 1], post[n - 1], n - 1));
      }
    }
  }

  lemma {:induction false} TokenNumbers(txHash: string, befores: seq<int>, afters: seq<int>, post: seq<TokenBalance>,
                                        n: nat)
    requires n <= |post| == |befores| == |afters|
    ensures var es := TokenUpTo(txHash, befores, afters, post, n);
            Ascending(es, 10000, 10000 + n) && OfTransaction(es, "SOL", txHash)
  {
    if n == 0 {
    } else {
      var prior := TokenUpTo(txHash, befores, afters, post, n - 1);
      TokenNumbers(txHash, befores, afters, post, n - 1);
      if befores[n - 1] == afters[n - 1] {
        assert prior + [] == prior;
      } else {
        var e := TokenEvent(txHash, befores[n - 1], afters[n - 1], post[n - 1], n - 1);
        AscendingAppend(prior, e, 10000, 10000 + n - 1);
      }
    }
  }

  lemma {:induction false} TokenSays(txHash: string, befores: seq<int>, afters: seq<int>, post: seq<TokenBalance>,
                                     n: nat, e: Event)
    requires n <= |post| == |befores| == |afters| && e in TokenUpTo(txHash, befores, afters, post, n)
    ensures var i := e.index - 10000;
            0 <= i < n && OneSide(e, ToLower(post[i].owner), post[i].mint, afters[i] - befores[i])
  {
    if n == 0 {
    } else if e in TokenUpTo(txHash, befores, afters, post, n - 1) {
      TokenSays(txHash, befores, afters, post, n - 1, e);
    }
  }

  /** Balance i has its event if it differs from before. */
  lemma {:induction false} TokenIsTold(txHash: string, befores: seq<int>, afters: seq<int>, post: seq<TokenBalance>,
                                       n: nat, i: nat)
    requires i < n <= |post| == |befores| == |afters| && befores[i] != afters[i]
    ensures TokenEvent(txHash, befores[i], afters[i], post[i], i) in TokenUpTo(txHash, befores, afters, post, n)
  {
    if i < n - 1 {
      TokenIsTold(txHash, befores, afters, post, n - 1, i);
    }
  }

  /** One event for each token balance that differs from before, about the owner and the mint of that balance. */
  lemma TokenEventEach(txHash: string, pre: seq<TokenBalance>, post: seq<TokenBalance>, i: nat)
    requires i < |post|
    ensures var es, before, after := TokenEvents(txHash, pre, post), Befores(pre, post)[i], Afters(post)[i];
            && ((exists e :: e in es && e.index == 10000 + i) <==> before != after)
            && forall e :: e in es && e.index == 10000 + i ==>
                 OneSide(e, ToLower(post[i].owner), post[i].mint, after - before)
  {
    var befores, afters, es := Befores(pre, post), Afters(post), TokenEvents(txHash, pre, post);
    if befores[i] != afters[i] {
      TokenIsTold(txHash, befores, afters, post, |post|, i);
    }
    forall e | e in es && e.index == 10000 + i
      ensures OneSide(e, ToLower(post[i].owner), post[i].mint, afters[i] - befores[i]) && befores[i] != afters[i]
    {
      TokenSays(txHash, befores, afters, post, |post|, e);
    }
  }

  predicate LastEntry(pre: seq<TokenBalance>, account: nat, n: nat, i: int)
    requires n <= |pre|
  {
    0 <= i < n && pre[i].account == account && forall j :: i < j < n ==> pre[j].account != account
  }

  /** The balance before is that of the last entry for the account, and there is none exactly without an entry. */
  lemma {:induction false} LastForIs(pre: seq<TokenBalance>, account: nat, n: nat)
    requires n <= |pre|
    ensures forall i :: LastEntry(pre, account, n, i) ==> LastFor(pre, account, n) == Some(pre[i])
    ensures LastFor(pre, account, n) == None <==> forall j :: 0 <= j < n ==> pre[j].account != account
  {
    if n == 0 {
    } else {
      LastForIs(pre, account, n - 1);
      forall i | LastEntry(pre, account, n, i) && i < n - 1 ensures LastEntry(pre, account, n - 1, i) {
      }
    }
  }

  /** Up to 10000 accounts no two events of a transaction share an id. */
  lemma KeysDistinct(txHash: string, accounts: seq<string>, pre: seq<int>, post: seq<int>, fee: int,
                     tokensBefore: seq<TokenBalance>, tokensAfter: seq<TokenBalance>)
    requires Reach(accounts, pre, post) <= 10000
    ensures DistinctKeys(NativeEvents(txHash, accounts, pre, post, fee)
                         + TokenEvents(txHash, tokensBefore, tokensAfter))
  {
    var es, fs := NativeEvents(txHash, accounts, pre, post, fee), TokenEvents(txHash, tokensBefore, tokensAfter);
    OneEventEach(txHash, accounts, pre, post, fee);
    TokenNumbers(txHash, Befores(tokensBefore, tokensAfter), Afters(tokensAfter), tokensAfter, |tokensAfter|);
    JoinedKeys(es, fs, "SOL", txHash, 0, 10000, 10000 + |tokensAfter|);
  }

  /** With more, native event 10000 + j and token event j do. */
  lemma KeyClash(txHash: string, account: string, change: int, before: int, after: int, b: TokenBalance, i: nat, j: nat)
    ensures KeyOf(NativeEvent(txHash, account, change, i)) == KeyOf(TokenEvent(txHash, before, after, b, j))
            <==> i == 10000 + j
  {
    if KeyOf(NativeEvent(txHash, account, change, i)) == KeyOf(TokenEvent(txHash, before, after, b, j)) {
      KeyInjective("SOL", txHash, i, "SOL", txHash, 10000 + j);
    }
  }
}
