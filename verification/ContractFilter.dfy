/** The worker's list of contracts, rebuilt from the table at every refresh. */
module ContractFilter {
  import opened Prelude
  import opened Base58
  import opened AddrCodec

  datatype Contract = Contract(chain: string, address: string, symbol: string, decimals: int)

  /** What the first n rows say about a chain: its contracts, and the last symbol and decimals worth noting of each. */
  function Listed(rows: seq<Contract>, n: nat, k: string): set<string>
    requires n <= |rows|
  {
    if n == 0 then {}
    else Listed(rows, n - 1, k) + if ToUpper(rows[n - 1].chain) == k then {rows[n - 1].address} else {}
  }

  function SymbolsOn(rows: seq<Contract>, n: nat, k: string): map<string, string>
    requires n <= |rows|
  {
    if n == 0 then map[]
    else
      var r, m := rows[n - 1], SymbolsOn(rows, n - 1, k);
      if ToUpper(r.chain) == k && r.symbol != "" then m[r.address := r.symbol] else m
  }

  function DecimalsOn(rows: seq<Contract>, n: nat, k: string): map<string, int>
    requires n <= |rows|
  {
    if n == 0 then map[]
    else
      var r, m := rows[n - 1], DecimalsOn(rows, n - 1, k);
      if ToUpper(r.chain) == k && r.decimals > 0 then m[r.address := r.decimals] else m
  }

  function Of<T>(m: map<string, map<string, T>>, k: string): map<string, T> {
    if k in m then m[k] else map[]
  }

  function SetOf(m: map<string, set<string>>, k: string): set<string> {
    if k in m then m[k] else {}
  }

  /** The tables say what the first n rows say. */
  ghost predicate Told(allowed: map<string, set<string>>, symbols: map<string, map<string, string>>,
                       decimals: map<string, map<string, int>>, rows: seq<Contract>, n: nat)
    requires n <= |rows|
  {
    && (forall k :: SetOf(allowed, k) == Listed(rows, n, k))
    && (forall k :: Of(symbols, k) == SymbolsOn(rows, n, k))
    && (forall k :: Of(decimals, k) == DecimalsOn(rows, n, k))
  }

  lemma ToldMore(a: map<string, set<string>>, s: map<string, map<string, string>>, d: map<string, map<string, int>>,
                 a': map<string, set<string>>, s': map<string, map<string, string>>, d': map<string, map<string, int>>,
                 rows: seq<Contract>, n: nat)
    requires n < |rows| && Told(a, s, d, rows, n)
    requires var c, k := rows[n], ToUpper(rows[n].chain);
             && SetOf(a', k) == SetOf(a, k) + {c.address}
             && Of(s', k) == (if c.symbol != "" then Of(s, k)[c.address := c.symbol] else Of(s, k))
             && Of(d', k) == (if c.decimals > 0 then Of(d, k)[c.address := c.decimals] else Of(d, k))
             && forall j :: j != k ==> SetOf(a', j) == SetOf(a, j) && Of(s', j) == Of(s, j) && Of(d', j) == Of(d, j)
    ensures Told(a', s', d', rows, n + 1)
  {
    var k := ToUpper(rows[n].chain);
    forall j ensures SetOf(a', j) == Listed(rows, n + 1, j) {
      assert SetOf(a, j) == Listed(rows, n, j);
    }
    forall j ensures Of(s', j) == SymbolsOn(rows, n + 1, j) {
      assert Of(s, j) == SymbolsOn(rows, n, j);
      assert j != k ==> SetOf(a', j) == SetOf(a, j);
    }
    forall j ensures Of(d', j) == DecimalsOn(rows, n + 1, j) {
      assert Of(d, j) == DecimalsOn(rows, n, j);
      assert j != k ==> SetOf(a', j) == SetOf(a, j);
    }
  }

  class Filter {
    var allowed: map<string, set<string>>
    var symbols: map<string, map<string, string>>
    var decimals: map<string, map<string, int>>

    constructor ()
      ensures Holds([])
    {
      allowed, symbols, decimals := map[], map[], map[];
    }

    /** The three tables say what the rows say, chain by chain. */
    ghost predicate Holds(rows: seq<Contract>)
      reads this
    {
      Told(allowed, symbols, decimals, rows, |rows|)
    }

    method Reload(rows: seq<Contract>)
      modifies this
      ensures Holds(rows)
    {
      var newAllowed: map<string, set<string>> := map[];
      var newSymbols: map<string, map<string, string>> := map[];
      var newDecimals: map<string, map<string, int>> := map[];
      for i := 0 to |rows|
        invariant newSymbols.Keys == newAllowed.Keys == newDecimals.Keys
        invariant Told(newAllowed, newSymbols, newDecimals, rows, i)
      {
        var c := rows[i];
        var key := ToUpper(c.chain);
        ghost var a, s, d := newAllowed, newSymbols, newDecimals;
        if key !in newAllowed {
          newAllowed := newAllowed[key := {}];
          newSymbols, newDecimals := newSymbols[key := map[]], newDecimals[key := map[]];
        }
        newAllowed := newAllowed[key := newAllowed[key] + {c.address}];
        if c.symbol != "" {
          newSymbols := newSymbols[key := newSymbols[key][c.address := c.symbol]];
        }
        if c.decimals > 0 {
          newDecimals := newDecimals[key := newDecimals[key][c.address := c.decimals]];
        }
        ToldMore(a, s, d, newAllowed, newSymbols, newDecimals, rows, i);
      }
      allowed, symbols, decimals := newAllowed, newSymbols, newDecimals;
    }

    method IsAllowed(sum: Checksum, chain: string, contract: string, ghost rows: seq<Contract>) returns (ok: bool)
      requires Holds(rows)
      ensures ok == Accepts(sum, rows, chain, contract)
    {
      if contract == "" {
        return true;
      }
      var k := ToUpper(chain);
      assert SetOf(allowed, k) == Listed(rows, |rows|, k);
      if k !in allowed || allowed[k] == {} {
        return true;
      }
      ok := Normalize(sum, Get(chain), contract) in allowed[k];
    }

    method GetSymbol(chain: string, contract: string, ghost rows: seq<Contract>) returns (symbol: string)
      requires Holds(rows)
      ensures symbol == SymbolOf(rows, chain, contract)
    {
      if contract == "" {
        return "";
      }
      assert Of(symbols, ToUpper(chain)) == SymbolsOn(rows, |rows|, ToUpper(chain));
      var k := ToUpper(chain);
      if k in symbols && contract in symbols[k] {
        return symbols[k][contract];
      }
      return "";
    }

    method GetDecimals(chain: string, contract: string, ghost rows: seq<Contract>) returns (d: int)
      requires Holds(rows)
      ensures d == DecimalsOf(rows, chain, contract)
    {
      if contract == "" {
        return 0;
      }
      assert Of(decimals, ToUpper(chain)) == DecimalsOn(rows, |rows|, ToUpper(chain));
      var k := ToUpper(chain);
      if k in decimals && contract in decimals[k] {
        return decimals[k][contract];
      }
      return 0;
    }
  }

  predicate Accepts(sum: Checksum, rows: seq<Contract>, chain: string, contract: string) {
    var listed := Listed(rows, |rows|, ToUpper(chain));
    contract == "" || listed == {} || Normalize(sum, Get(chain), contract) in listed
  }

  function SymbolOf(rows: seq<Contract>, chain: string, contract: string): string {
    var m := SymbolsOn(rows, |rows|, ToUpper(chain));
    if contract != "" && contract in m then m[contract] else ""
  }

  function DecimalsOf(rows: seq<Contract>, chain: string, contract: string): int {
    var m := DecimalsOn(rows, |rows|, ToUpper(chain));
    if contract != "" && contract in m then m[contract] else 0
  }

  // --- What the rows mean ---------------------------------------------------------------------------------------

  ghost predicate IsRow(rows: seq<Contract>, n: nat, k: string, address: string, i: int)
    requires n <= |rows|
  {
    0 <= i < n && ToUpper(rows[i].chain) == k && rows[i].address == address
  }

  lemma {:induction false} ListedIff(rows: seq<Contract>, n: nat, k: string, address: string)
    requires n <= |rows|
    ensures address in Listed(rows, n, k) <==> exists i :: IsRow(rows, n, k, address, i)
  {
    if n == 0 {
    } else {
      ListedIff(rows, n - 1, k, address);
      forall i
        ensures IsRow(rows, n, k, address, i)
                <==> IsRow(rows, n - 1, k, address, i) || (i == n - 1 && Names(rows[i], k, address))
      {
      }
      assert Names(rows[n - 1], k, address) ==> IsRow(rows, n, k, address, n - 1);
    }
  }

  predicate Names(r: Contract, k: string, address: string) {
    ToUpper(r.chain) == k && r.address == address
  }

  /** Rows as the store creates them: chain in upper case, address in the chain's own form. */
  ghost predicate Stored(sum: Checksum, rows: seq<Contract>) {
    forall i :: 0 <= i < |rows| ==>
      ToUpper(rows[i].chain) == rows[i].chain && Normalize(sum, Get(rows[i].chain), rows[i].address) == rows[i].address
  }

  /** A chain without rows, and only such a one, has nothing listed. */
  lemma ListedNone(rows: seq<Contract>, k: string)
    ensures Listed(rows, |rows|, k) == {} <==> forall i :: 0 <= i < |rows| ==> ToUpper(rows[i].chain) != k
  {
    forall i | 0 <= i < |rows| && ToUpper(rows[i].chain) == k ensures Listed(rows, |rows|, k) != {} {
      assert IsRow(rows, |rows|, k, rows[i].address, i);
      ListedIff(rows, |rows|, k, rows[i].address);
    }
    if x :| x in Listed(rows, |rows|, k) {
      ListedIff(rows, |rows|, k, x);
    }
  }

  /** An event passes when it has no contract, its chain has no row, or a row names the same contract. */
  lemma AcceptsIff(sum: Checksum, rows: seq<Contract>, chain: string, contract: string)
    requires Stored(sum, rows)
    ensures Accepts(sum, rows, chain, contract) <==>
              || contract == ""
              || (forall i :: 0 <= i < |rows| ==> rows[i].chain != ToUpper(chain))
              || exists i :: SameContract(sum, rows, chain, contract, i)
  {
    ListedNone(rows, ToUpper(chain));
    SameContractIff(sum, rows, chain, contract);
  }

  lemma SameContractIff(sum: Checksum, rows: seq<Contract>, chain: string, contract: string)
    requires Stored(sum, rows)
    ensures Normalize(sum, Get(chain), contract) in Listed(rows, |rows|, ToUpper(chain))
       <==> exists i :: SameContract(sum, rows, chain, contract, i)
  {
    var k, n, address := ToUpper(chain), |rows|, Normalize(sum, Get(chain), contract);
    ListedIff(rows, n, k, address);
    GetUpper(chain);
    forall i ensures IsRow(rows, n, k, address, i) <==> SameContract(sum, rows, chain, contract, i) {
    }
  }

  ghost predicate SameContract(sum: Checksum, rows: seq<Contract>, chain: string, contract: string, i: int) {
    0 <= i < |rows| && rows[i].chain == ToUpper(chain)
    && Normalize(sum, Get(chain), rows[i].address) == Normalize(sum, Get(chain), contract)
  }

  lemma GetUpper(chain: string)
    ensures Get(ToUpper(chain)) == Get(chain)
  {
    assert ToUpper(ToUpper(chain)) == ToUpper(chain);
  }

  /** Row i is the last of the first n with something to note about a contract. */
  ghost predicate LastSymbol(rows: seq<Contract>, n: nat, k: string, address: string, i: int)
    requires n <= |rows|
  {
    IsRow(rows, n, k, address, i) && rows[i].symbol != ""
    && forall j :: i < j < n && Names(rows[j], k, address) ==> rows[j].symbol == ""
  }

  ghost predicate LastDecimals(rows: seq<Contract>, n: nat, k: string, address: string, i: int)
    requires n <= |rows|
  {
    IsRow(rows, n, k, address, i) && rows[i].decimals > 0
    && forall j :: i < j < n && Names(rows[j], k, address) ==> rows[j].decimals <= 0
  }

  lemma {:induction false} SymbolsIff(rows: seq<Contract>, n: nat, k: string, address: string)
    requires n <= |rows|
    ensures address in SymbolsOn(rows, n, k) <==> exists i :: LastSymbol(rows, n, k, address, i)
    ensures forall i :: LastSymbol(rows, n, k, address, i) ==>
              address in SymbolsOn(rows, n, k) && SymbolsOn(rows, n, k)[address] == rows[i].symbol
  {
    if n == 0 {
    } else {
      SymbolsIff(rows, n - 1, k, address);
      var r := rows[n - 1];
      if Names(r, k, address) && r.symbol != "" {
        assert LastSymbol(rows, n, k, address, n - 1);
      } else {
        forall i | LastSymbol(rows, n, k, address, i) ensures LastSymbol(rows, n - 1, k, address, i) {
        }
        if address in SymbolsOn(rows, n, k) {
          var i :| LastSymbol(rows, n - 1, k, address, i);
          assert LastSymbol(rows, n, k, address, i);
        }
      }
    }
  }

  lemma {:induction false} DecimalsIff(rows: seq<Contract>, n: nat, k: string, address: string)
    requires n <= |rows|
    ensures address in DecimalsOn(rows, n, k) <==> exists i :: LastDecimals(rows, n, k, address, i)
    ensures forall i :: LastDecimals(rows, n, k, address, i) ==>
              address in DecimalsOn(rows, n, k) && DecimalsOn(rows, n, k)[address] == rows[i].decimals
  {
    if n == 0 {
    } else {
      DecimalsIff(rows, n - 1, k, address);
      var r := rows[n - 1];
      if Names(r, k, address) && r.decimals > 0 {
        assert LastDecimals(rows, n, k, address, n - 1);
      } else {
        forall i | LastDecimals(rows, n, k, address, i) ensures LastDecimals(rows, n - 1, k, address, i) {
        }
        if address in DecimalsOn(rows, n, k) {
          var i :| LastDecimals(rows, n - 1, k, address, i);
          assert LastDecimals(rows, n, k, address, i);
        }
      }
    }
  }

  /** Symbol and decimals are those of the last row that has them for the contract as spelled, and there are none for a
      contract that is not listed. */
  lemma NotedIff(rows: seq<Contract>, chain: string, contract: string)
    requires contract != ""
    ensures forall i :: LastSymbol(rows, |rows|, ToUpper(chain), contract, i) ==>
            SymbolOf(rows, chain, contract) == rows[i].symbol
    ensures forall i :: LastDecimals(rows, |rows|, ToUpper(chain), contract, i) ==>
            DecimalsOf(rows, chain, contract) == rows[i].decimals
    ensures SymbolOf(rows, chain, contract) != "" || DecimalsOf(rows, chain, contract) != 0 ==>
              contract in Listed(rows, |rows|, ToUpper(chain))
  {
    SymbolsIff(rows, |rows|, ToUpper(chain), contract);
    DecimalsIff(rows, |rows|, ToUpper(chain), contract);
    ListedIff(rows, |rows|, ToUpper(chain), contract);
  }
}
