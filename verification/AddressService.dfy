/** The API's side of a subscription: the rows it creates, the Redis keys it writes, and the events it publishes. */
module AddressService {
  import opened Prelude
  import opened Base58
  import opened WatchedAddress
  import opened Matcher
  import opened AddrCodec

  const BATCH_SIZE: nat := 500
  const INCREMENTAL_MAX_LEN: nat := 50000

  function NormalizeAddress(sum: Checksum, chain: string, address: string): string {
    Normalize(sum, AddrCodec.Get(chain), address)
  }

  predicate IsLowerHex(digits: string) {
    |digits| >= 2 && IsHexDigits(digits) && ToLower(digits) == digits
  }

  /** What a text is stored as, chain by chain: on TRON the canonical form of exactly the accounts it spells, on Solana
      just what it says, on any other chain 0x and the digits it spells in some case. */
  ghost predicate StoredAs(sum: Checksum, reqChain: string, text: string, stored: string) {
    var chain, t := ToUpper(reqChain), TrimSpace(text);
    && (chain == "TRON" ==> forall a: Account :: stored == Canonical(sum, a) <==> Spells(t, a))
    && (chain == "SOL" ==> stored == t)
    && (chain != "TRON" && chain != "SOL" ==>
          forall digits :: IsLowerHex(digits) ==>
            (stored == "0x" + digits <==> ToLower(t) == digits || ToLower(t) == "0x" + digits))
  }

  lemma NormalizedIsStored(sum: Checksum, reqChain: string, text: string)
    ensures StoredAs(sum, reqChain, text, NormalizeAddress(sum, reqChain, text))
  {
    var chain, stored := ToUpper(reqChain), NormalizeAddress(sum, reqChain, text);
    if chain == "TRON" {
      forall a: Account ensures stored == Canonical(sum, a) <==> Spells(TrimSpace(text), a) {
        NormalizeMeets(sum, text, a);
      }
    } else if chain != "SOL" {
      forall digits | IsLowerHex(digits)
        ensures stored == "0x" + digits
           <==> ToLower(TrimSpace(text)) == digits || ToLower(TrimSpace(text)) == "0x" + digits
      {
        EvmMeets(text, digits);
      }
    }
  }

  /** The addresses of a list that are kept, chain by chain: those that some entry spells. */
  ghost predicate Imports(sum: Checksum, reqChain: string, texts: seq<string>, valid: seq<string>) {
    var chain := ToUpper(reqChain);
    && (chain == "TRON" ==> forall a: Account :: Canonical(sum, a) in valid <==> Spelled(texts, a))
    && (chain == "SOL" ==> forall x :: x in valid <==> x != "" && Given(texts, x))
    && (chain != "TRON" && chain != "SOL" ==>
          forall digits :: IsLowerHex(digits) ==> ("0x" + digits in valid <==> SpelledInHex(texts, digits)))
  }

  ghost predicate Spelled(texts: seq<string>, a: Account) {
    exists i :: 0 <= i < |texts| && Spells(TrimSpace(texts[i]), a)
  }

  ghost predicate Given(texts: seq<string>, x: string) {
    exists i :: 0 <= i < |texts| && TrimSpace(texts[i]) == x
  }

  ghost predicate SpelledInHex(texts: seq<string>, digits: string) {
    exists i :: 0 <= i < |texts| && ToLower(TrimSpace(texts[i])) in {digits, "0x" + digits}
  }

  function NormalizedList(sum: Checksum, chain: string, addresses: seq<string>): (ns: seq<string>)
    ensures |ns| == |addresses|
  {
    seq(|addresses|, i requires 0 <= i < |addresses| => NormalizeAddress(sum, chain, TrimSpace(addresses[i])))
  }

  /** Without the empty ones and without repetitions, in the order of first appearance. */
  function Distinct(ns: seq<string>, n: nat): seq<string>
    requires n <= |ns|
  {
    if n == 0 then []
    else
      var prior, x := Distinct(ns, n - 1), ns[n - 1];
      if x == "" || x in prior then prior else prior + [x]
  }

  lemma DistinctMore(ns: seq<string>, n: nat)
    requires n < |ns|
    ensures var prior, x := Distinct(ns, n), ns[n];
            && Distinct(ns, n + 1) == (if x == "" || x in Elements(prior) then prior else prior + [x])
            && Elements(prior + [x]) == Elements(prior) + {x}
  {
  }

  // --- Chunks ---------------------------------------------------------------------------------------------------

  datatype Report = Report(rows: Table, firstId: nat, success: seq<Row>, fail: seq<string>)

  function ChunkEnd(valid: seq<string>, i: nat): (end: nat)
    requires i < |valid|
    ensures i < end <= |valid| && (end == i + 500 || (end == |valid| && end <= i + 500))
  {
    if i + BATCH_SIZE > |valid| then |valid| else i + BATCH_SIZE
  }

  /** One chunk inserted as a whole, or listed as failed. */
  function Inserted(col: Collation, appId: nat, chain: string, batch: seq<string>, dbUp: bool, acc: Report): Report {
    if dbUp && Insertable(col, acc.rows, appId, chain, batch) then
      var rows := NewRows(acc.firstId, appId, chain, batch);
      Report(acc.rows + rows, acc.firstId + |batch|, acc.success + rows, acc.fail)
    else acc.(fail := acc.fail + batch)
  }

  /** The chunks from position i on; `down` are the positions of the chunks during which the database fails. */
  function Import(col: Collation, appId: nat, chain: string, valid: seq<string>, down: set<nat>, i: nat,
                  acc: Report): Report
    requires i <= |valid|
    decreases |valid| - i
  {
    if i == |valid| then acc
    else
      var end := ChunkEnd(valid, i);
      Import(col, appId, chain, valid, down, end, Inserted(col, appId, chain, valid[i..end], i !in down, acc))
  }

  datatype AddressResp = AddressResp(id: nat, address: string)

  datatype Response = Response(total: nat, success: seq<AddressResp>, fail: seq<string>)

  function RespOf(rows: seq<Row>): (r: seq<AddressResp>)
    ensures |r| == |rows|
  {
    seq(|rows|, i requires 0 <= i < |rows| => AddressResp(rows[i].id, rows[i].address))
  }

  function AddressesOf(rows: seq<Row>): (r: seq<string>)
    ensures |r| == |rows|
  {
    seq(|rows|, i requires 0 <= i < |rows| => rows[i].address)
  }

  // --- Redis ----------------------------------------------------------------------------------------------------

  function Reversed(s: seq<string>): (r: seq<string>)
    ensures |r| == |s|
  {
    if s == [] then [] else Reversed(s[1..]) + [s[0]]
  }

  /** LPUSH of several members puts the last of them first; LTRIM keeps the newest. */
  function Pushed(list: seq<string>, members: seq<string>): seq<string> {
    FirstOf(Reversed(members) + list, INCREMENTAL_MAX_LEN)
  }

  function ListOf(incremental: map<string, seq<string>>, chain: string): seq<string> {
    if chain in incremental then incremental[chain] else []
  }

  class Service {
    const addrStore: AddressStore
    const rdb: Redis
    const sum: Checksum
    var published: seq<AddressEvent>

    constructor (addrStore: AddressStore, rdb: Redis, sum: Checksum)
      ensures this.addrStore == addrStore && this.rdb == rdb && this.sum == sum && published == []
    {
      this.addrStore, this.rdb, this.sum, published := addrStore, rdb, sum, [];
    }

    /** The members join the hot set and head the incremental list, and the event goes out; nothing of it
        without Redis. */
    method Announce(chain: string, members: seq<string>, event: AddressEvent, redisUp: bool)
      modifies this, rdb
      ensures !redisUp ==>
              rdb.hot == old(rdb.hot) && rdb.incremental == old(rdb.incremental) && published == old(published)
      ensures redisUp ==> rdb.hot == old(rdb.hot)[chain := HotSet(old(rdb.hot), chain) + Elements(members)]
      ensures redisUp ==>
              rdb.incremental == old(rdb.incremental)[chain := Pushed(ListOf(old(rdb.incremental), chain), members)]
      ensures redisUp ==> published == old(published) + [event]
      ensures rdb.lastActive == old(rdb.lastActive) && rdb.snapshot == old(rdb.snapshot)
      ensures rdb.snapshotMaxId == old(rdb.snapshotMaxId)
    {
      if redisUp {
        rdb.hot := rdb.hot[chain := HotSet(rdb.hot, chain) + Elements(members)];
        rdb.incremental := rdb.incremental[chain := Pushed(ListOf(rdb.incremental, chain), members)];
        published := published + [event];
      }
    }

    method Create(appId: nat, reqChain: string, address: string, redisUp: bool) returns (resp: Option<AddressResp>)
      requires addrStore.Valid()
      modifies this, rdb, addrStore
      ensures addrStore.Valid()
      ensures var chain, a := ToUpper(reqChain), NormalizeAddress(sum, reqChain, address);
              && (resp.None? <==> Taken(addrStore.collation, old(addrStore.rows), appId, chain, a))
              && (resp.None? ==> addrStore.rows == old(addrStore.rows) && published == old(published)
                                 && rdb.hot == old(rdb.hot) && rdb.incremental == old(rdb.incremental))
              && (resp.Some? ==> StoredAs(sum, reqChain, address, resp.value.address))
              && (resp.Some? ==> resp.value.address == a
                                 && addrStore.rows == old(addrStore.rows) + [Row(resp.value.id, appId, chain, a, true)])
              && (!redisUp ==> published == old(published) && rdb.hot == old(rdb.hot)
                               && rdb.incremental == old(rdb.incremental))
              && (resp.Some? && redisUp ==> published == old(published) + [Add(chain, a)])
              && (resp.Some? && redisUp ==> rdb.hot == old(rdb.hot)[chain := HotSet(old(rdb.hot), chain) + {a}])
              && (resp.Some? && redisUp ==>
                    rdb.incremental == old(rdb.incremental)[chain := Pushed(ListOf(old(rdb.incremental), chain), [a])])
    {
      var chain, a := ToUpper(reqChain), NormalizeAddress(sum, reqChain, address);
      NormalizedIsStored(sum, reqChain, address);
      var ok, id := addrStore.Create(appId, chain, a);
      if !ok {
        return None;
      }
      Announce(chain, [a], Add(chain, a), redisUp);
      assert Elements([a]) == {a};
      resp := Some(AddressResp(id, a));
    }

    method CleanUp(reqChain: string, addresses: seq<string>) returns (valid: seq<string>)
      ensures valid == Distinct(NormalizedList(sum, reqChain, addresses), |addresses|)
      ensures Imports(sum, reqChain, addresses, valid)
    {
      CleanedUpImports(sum, reqChain, addresses);
      ghost var ns := NormalizedList(sum, reqChain, addresses);
      valid := [];
      var seen: set<string> := {};
      for i := 0 to |addresses|
        invariant valid == Distinct(ns, i) && seen == Elements(valid)
      {
        var addr := NormalizeAddress(sum, reqChain, TrimSpace(addresses[i]));
        assert addr == ns[i];
        DistinctMore(ns, i);
        if addr == "" || addr in seen {
          continue;
        }
        seen := seen + {addr};
        valid := valid + [addr];
      }
    }

    method Insert(appId: nat, chain: string, valid: seq<string>, down: set<nat>)
      returns (success: seq<Row>, fail: seq<string>)
      requires addrStore.Valid()
      modifies addrStore
      ensures addrStore.Valid()
      ensures Report(addrStore.rows, addrStore.FirstId(), success, fail)
           == Import(addrStore.collation, appId, chain, valid, down, 0,
                     Report(old(addrStore.rows), old(addrStore.FirstId()), [], []))
    {
      success, fail := [], [];
      ghost var result := Import(addrStore.collation, appId, chain, valid, down, 0,
                                 Report(addrStore.rows, addrStore.FirstId(), [], []));
      var i := 0;
      while i < |valid|
        invariant i <= |valid| && addrStore.Valid()
        invariant result == Import(addrStore.collation, appId, chain, valid, down, i,
                                   Report(addrStore.rows, addrStore.FirstId(), success, fail))
        decreases |valid| - i
      {
        var end := ChunkEnd(valid, i);
        var batch := valid[i..end];
        ghost var acc := Report(addrStore.rows, addrStore.FirstId(), success, fail);
        var first := addrStore.FirstId();
        var ok := addrStore.BatchCreate(appId, chain, batch, i !in down);
        if !ok {
          fail := fail + batch;
        } else {
          success := success + NewRows(first, appId, chain, batch);
        }
        assert addrStore.rows + [] == addrStore.rows;
        assert Report(addrStore.rows, addrStore.FirstId(), success, fail)
            == Inserted(addrStore.collation, appId, chain, batch, i !in down, acc);
        i := end;
      }
    }

    /** Imports a list; nothing happens, and there is no response, when no address is left after cleaning it up. */
    method BatchCreate(appId: nat, reqChain: string, addresses: seq<string>, down: set<nat>, redisUp: bool)
      returns (resp: Option<Response>, ghost report: Report)
      requires addrStore.Valid()
      modifies this, rdb, addrStore
      ensures addrStore.Valid()
      ensures var chain, valid := ToUpper(reqChain), Distinct(NormalizedList(sum, reqChain, addresses), |addresses|);
              && report == Import(addrStore.collation, appId, chain, valid, down, 0,
                                  Report(old(addrStore.rows), old(addrStore.FirstId()), [], []))
              && (resp.None? <==> valid == [])
              && (resp.Some? ==> resp.value == Response(|valid|, RespOf(report.success), report.fail))
              && addrStore.rows == report.rows
              && Imports(sum, reqChain, addresses, AddressesOf(report.success) + report.fail)
              && EnabledFor(report.success, appId, chain)
              && (report.success == [] || !redisUp ==>
                    rdb.hot == old(rdb.hot) && rdb.incremental == old(rdb.incremental) && published == old(published))
              && (report.success != [] && redisUp ==>
                    && rdb.hot
                        == old(rdb.hot)[chain := HotSet(old(rdb.hot), chain) + Elements(AddressesOf(report.success))]
                    && rdb.incremental
                       == old(rdb.incremental)[chain := Pushed(ListOf(old(rdb.incremental), chain),
                                                               AddressesOf(report.success))]
                    && published == old(published) + [BatchAdd(chain, |report.success|)])
    {
      var chain := ToUpper(reqChain);
      ImportedAreSpelled(sum, reqChain, addresses, addrStore.collation, appId, down, addrStore.rows,
                         addrStore.FirstId());
      var valid := CleanUp(reqChain, addresses);
      if |valid| == 0 {
        report := Report(addrStore.rows, addrStore.FirstId(), [], []);
        return None, report;
      }
      var success, fail := Insert(appId, chain, valid, down);
      report := Report(addrStore.rows, addrStore.FirstId(), success, fail);
      if |success| > 0 {
        Announce(chain, AddressesOf(success), BatchAdd(chain, |success|), redisUp);
      }
      resp := Some(Response(|valid|, RespOf(success), fail));
    }
  }

  // --- Every address once, on one side --------------------------------------------------------------------------

  /** What cleaning up leaves: no address twice, none empty, none missing. */
  lemma {:induction false} DistinctIs(ns: seq<string>, n: nat)
    requires n <= |ns|
    ensures NoDuplicates(Distinct(ns, n))
    ensures forall x :: x in Distinct(ns, n) <==> x != "" && x in ns[..n]
  {
    if n == 0 {
    } else {
      DistinctIs(ns, n - 1);
      assert ns[..n] == ns[..n - 1] + [ns[n - 1]];
      assert Distinct(ns, n - 1) <= Distinct(ns, n);
    }
  }

  lemma TrimTwice(s: string)
    ensures TrimSpace(TrimSpace(s)) == TrimSpace(s)
  {
    TrimEnds(s);
    TrimNothing(TrimSpace(s));
  }

  /** Entry i of a list is stored as it would be alone, whatever white space is around it. */
  lemma EntryIsStored(sum: Checksum, reqChain: string, texts: seq<string>, i: nat)
    requires i < |texts|
    ensures StoredAs(sum, reqChain, texts[i], NormalizedList(sum, reqChain, texts)[i])
  {
    TrimTwice(texts[i]);
    NormalizedIsStored(sum, reqChain, TrimSpace(texts[i]));
  }

  /** What is kept of a list are the addresses its entries spell. */
  lemma CleanedUpImports(sum: Checksum, reqChain: string, texts: seq<string>)
    ensures Imports(sum, reqChain, texts, Distinct(NormalizedList(sum, reqChain, texts), |texts|))
  {
    var ns := NormalizedList(sum, reqChain, texts);
    var valid := Distinct(ns, |texts|);
    forall i | 0 <= i < |texts| ensures StoredAs(sum, reqChain, texts[i], ns[i]) {
      EntryIsStored(sum, reqChain, texts, i);
    }
    DistinctIs(ns, |ns|);
    assert ns[..|ns|] == ns;
    if ToUpper(reqChain) == "TRON" {
      KeptTron(sum, reqChain, texts, ns, valid);
    } else if ToUpper(reqChain) == "SOL" {
      KeptSol(sum, reqChain, texts, ns, valid);
    } else {
      KeptEvm(sum, reqChain, texts, ns, valid);
    }
  }

  ghost predicate Kept(sum: Checksum, reqChain: string, texts: seq<string>, ns: seq<string>, valid: seq<string>) {
    && |ns| == |texts| && (forall i :: 0 <= i < |texts| ==> StoredAs(sum, reqChain, texts[i], ns[i]))
    && forall x :: x in valid <==> x != "" && x in ns
  }

  lemma KeptTron(sum: Checksum, reqChain: string, texts: seq<string>, ns: seq<string>, valid: seq<string>)
    requires Kept(sum, reqChain, texts, ns, valid) && ToUpper(reqChain) == "TRON"
    ensures Imports(sum, reqChain, texts, valid)
  {
    forall a: Account ensures Canonical(sum, a) in valid <==> Spelled(texts, a) {
      CanonicalForm(sum, a);
      if Spelled(texts, a) {
        var i :| 0 <= i < |texts| && Spells(TrimSpace(texts[i]), a);
        assert StoredAs(sum, reqChain, texts[i], ns[i]);
      }
      if Canonical(sum, a) in valid {
        var i :| 0 <= i < |ns| && ns[i] == Canonical(sum, a);
        assert StoredAs(sum, reqChain, texts[i], ns[i]);
      }
    }
  }

  lemma KeptSol(sum: Checksum, reqChain: string, texts: seq<string>, ns: seq<string>, valid: seq<string>)
    requires Kept(sum, reqChain, texts, ns, valid) && ToUpper(reqChain) == "SOL"
    ensures Imports(sum, reqChain, texts, valid)
  {
    forall x ensures x in valid <==> x != "" && Given(texts, x) {
      if x in valid {
        var i :| 0 <= i < |ns| && ns[i] == x;
        assert StoredAs(sum, reqChain, texts[i], ns[i]);
      }
      if Given(texts, x) {
        var i :| 0 <= i < |texts| && TrimSpace(texts[i]) == x;
        assert StoredAs(sum, reqChain, texts[i], ns[i]);
      }
    }
  }

  lemma KeptEvm(sum: Checksum, reqChain: string, texts: seq<string>, ns: seq<string>, valid: seq<string>)
    requires Kept(sum, reqChain, texts, ns, valid) && ToUpper(reqChain) != "TRON" && ToUpper(reqChain) != "SOL"
    ensures Imports(sum, reqChain, texts, valid)
  {
    forall digits | IsLowerHex(digits) ensures "0x" + digits in valid <==> SpelledInHex(texts, digits) {
      if SpelledInHex(texts, digits) {
        var i :| 0 <= i < |texts| && ToLower(TrimSpace(texts[i])) in {digits, "0x" + digits};
        assert StoredAs(sum, reqChain, texts[i], ns[i]);
      }
      if "0x" + digits in valid {
        var i :| 0 <= i < |ns| && ns[i] == "0x" + digits;
        assert StoredAs(sum, reqChain, texts[i], ns[i]);
      }
    }
  }

  /** s is a and b put together, each in its own order. */
  ghost predicate Merge(s: seq<string>, a: seq<string>, b: seq<string>)
    decreases |s|
  {
    if s == [] then a == [] && b == []
    else (a != [] && a[0] == s[0] && Merge(s[1..], a[1..], b)) || (b != [] && b[0] == s[0] && Merge(s[1..], a, b[1..]))
  }

  lemma {:induction false} MergeOne(s: seq<string>)
    ensures Merge(s, s, []) && Merge(s, [], s)
    decreases |s|
  {
    if s == [] {
    } else {
      MergeOne(s[1..]);
    }
  }

  lemma {:induction false} MergeAppend(s: seq<string>, a: seq<string>, b: seq<string>, s': seq<string>,
                                       a': seq<string>, b': seq<string>)
    requires Merge(s, a, b) && Merge(s', a', b')
    ensures Merge(s + s', a + a', b + b')
    decreases |s|
  {
    if s == [] {
      assert s + s' == s' && a + a' == a' && b + b' == b';
    } else {
      assert (s + s')[1..] == s[1..] + s';
      if a != [] && a[0] == s[0] && Merge(s[1..], a[1..], b) {
        MergeAppend(s[1..], a[1..], b, s', a', b');
        assert (a + a')[1..] == a[1..] + a';
      } else {
        MergeAppend(s[1..], a, b[1..], s', a', b');
        assert (b + b')[1..] == b[1..] + b';
      }
    }
  }

  lemma {:induction false} MergeFacts(s: seq<string>, a: seq<string>, b: seq<string>)
    requires Merge(s, a, b)
    ensures multiset(s) == multiset(a) + multiset(b) && |s| == |a| + |b|
    decreases |s|
  {
    if s == [] {
    } else {
      assert s == [s[0]] + s[1..];
      if a != [] && a[0] == s[0] && Merge(s[1..], a[1..], b) {
        MergeFacts(s[1..], a[1..], b);
        assert a == [a[0]] + a[1..];
      } else {
        MergeFacts(s[1..], a, b[1..]);
        assert b == [b[0]] + b[1..];
      }
    }
  }

  lemma AddressesOfNew(success: seq<Row>, firstId: nat, appId: nat, chain: string, batch: seq<string>)
    ensures AddressesOf(success + NewRows(firstId, appId, chain, batch)) == AddressesOf(success) + batch
  {
  }

  /** One chunk keeps the partition: what was done so far, in the order it came. */
  lemma InsertedMerges(done: seq<string>, batch: seq<string>, col: Collation, appId: nat, chain: string, dbUp: bool,
                       acc: Report)
    requires Merge(done, AddressesOf(acc.success), acc.fail)
    ensures var r := Inserted(col, appId, chain, batch, dbUp, acc); Merge(done + batch, AddressesOf(r.success), r.fail)
  {
    MergeOne(batch);
    var r := Inserted(col, appId, chain, batch, dbUp, acc);
    if dbUp && Insertable(col, acc.rows, appId, chain, batch) {
      AddressesOfNew(acc.success, acc.firstId, appId, chain, batch);
      MergeAppend(done, AddressesOf(acc.success), acc.fail, batch, batch, []);
      assert acc.fail + [] == acc.fail;
    } else {
      MergeAppend(done, AddressesOf(acc.success), acc.fail, batch, [], batch);
      assert AddressesOf(acc.success) + [] == AddressesOf(acc.success);
    }
  }

  lemma {:induction false} ImportMerges(col: Collation, appId: nat, chain: string, valid: seq<string>,
                                        down: set<nat>, i: nat, acc: Report)
    requires i <= |valid| && Merge(valid[..i], AddressesOf(acc.success), acc.fail)
    ensures var r := Import(col, appId, chain, valid, down, i, acc); Merge(valid, AddressesOf(r.success), r.fail)
    decreases |valid| - i
  {
    if i == |valid| {
      assert valid[..i] == valid;
    } else {
      var end := ChunkEnd(valid, i);
      InsertedMerges(valid[..i], valid[i..end], col, appId, chain, i !in down, acc);
      assert valid[..end] == valid[..i] + valid[i..end];
      ImportMerges(col, appId, chain, valid, down, end, Inserted(col, appId, chain, valid[i..end], i !in down, acc));
    }
  }

  /** The table gains exactly the successful rows, behind the old ones. */
  lemma {:induction false} ImportAppends(col: Collation, appId: nat, chain: string, valid: seq<string>,
                                         down: set<nat>, i: nat, acc: Report, rows: Table)
    requires i <= |valid| && acc.rows == rows + acc.success
    ensures var r := Import(col, appId, chain, valid, down, i, acc); r.rows == rows + r.success
    decreases |valid| - i
  {
    if i == |valid| {
    } else {
      var end := ChunkEnd(valid, i);
      var next := Inserted(col, appId, chain, valid[i..end], i !in down, acc);
      assert next.rows == rows + next.success;
      ImportAppends(col, appId, chain, valid, down, end, next, rows);
    }
  }

  /** Success and failure partition the cleaned-up list: in order on either side, disjoint, nothing lost,
      nothing twice. */
  lemma ImportPartitions(sum: Checksum, reqChain: string, addresses: seq<string>, col: Collation, appId: nat,
                         down: set<nat>,
                         rows: Table, firstId: nat)
    ensures var valid := Distinct(NormalizedList(sum, reqChain, addresses), |addresses|);
            var r := Import(col, appId, ToUpper(reqChain), valid, down, 0, Report(rows, firstId, [], []));
            && Merge(valid, AddressesOf(r.success), r.fail) && |valid| == |r.success| + |r.fail|
            && NoDuplicates(AddressesOf(r.success)) && NoDuplicates(r.fail)
            && (forall x :: x in AddressesOf(r.success) ==> x !in r.fail)
            && (forall x :: x in valid <==> x in AddressesOf(r.success) || x in r.fail)
            && r.rows == rows + r.success
  {
    var ns := NormalizedList(sum, reqChain, addresses);
    var valid := Distinct(ns, |addresses|);
    var acc := Report(rows, firstId, [], []);
    var r := Import(col, appId, ToUpper(reqChain), valid, down, 0, acc);
    assert valid[..0] == [] && AddressesOf([]) == [];
    ImportMerges(col, appId, ToUpper(reqChain), valid, down, 0, acc);
    assert rows + [] == rows;
    ImportAppends(col, appId, ToUpper(reqChain), valid, down, 0, acc, rows);
    DistinctIs(ns, |addresses|);
    Disjoint(valid, AddressesOf(r.success), r.fail);
  }

  ghost predicate EnabledFor(rows: seq<Row>, appId: nat, chain: string) {
    forall row :: row in rows ==> row.appId == appId && row.chain == chain && row.enabled
  }

  lemma {:induction false} ImportEnabled(col: Collation, appId: nat, chain: string, valid: seq<string>, down: set<nat>,
                                         i: nat, acc: Report)
    requires i <= |valid| && EnabledFor(acc.success, appId, chain)
    ensures EnabledFor(Import(col, appId, chain, valid, down, i, acc).success, appId, chain)
    decreases |valid| - i
  {
    if i == |valid| {
    } else {
      var end := ChunkEnd(valid, i);
      var next := Inserted(col, appId, chain, valid[i..end], i !in down, acc);
      assert EnabledFor(NewRows(acc.firstId, appId, chain, valid[i..end]), appId, chain);
      assert EnabledFor(next.success, appId, chain);
      ImportEnabled(col, appId, chain, valid, down, end, next);
    }
  }

  /** Every address that an entry of the list spells becomes an enabled row of the application, or is
      listed as failed. */
  lemma ImportedAreSpelled(sum: Checksum, reqChain: string, addresses: seq<string>, col: Collation, appId: nat,
                           down: set<nat>, rows: Table, firstId: nat)
    ensures var valid := Distinct(NormalizedList(sum, reqChain, addresses), |addresses|);
            var r := Import(col, appId, ToUpper(reqChain), valid, down, 0, Report(rows, firstId, [], []));
            && Imports(sum, reqChain, addresses, AddressesOf(r.success) + r.fail)
            && EnabledFor(r.success, appId, ToUpper(reqChain))
  {
    var valid := Distinct(NormalizedList(sum, reqChain, addresses), |addresses|);
    var r := Import(col, appId, ToUpper(reqChain), valid, down, 0, Report(rows, firstId, [], []));
    CleanedUpImports(sum, reqChain, addresses);
    ImportPartitions(sum, reqChain, addresses, col, appId, down, rows, firstId);
    SameImports(sum, reqChain, addresses, valid, AddressesOf(r.success) + r.fail);
    ImportEnabled(col, appId, ToUpper(reqChain), valid, down, 0, Report(rows, firstId, [], []));
  }

  lemma SameImports(sum: Checksum, reqChain: string, texts: seq<string>, valid: seq<string>, other: seq<string>)
    requires Imports(sum, reqChain, texts, valid) && forall x :: x in valid <==> x in other
    ensures Imports(sum, reqChain, texts, other)
  {
  }

  lemma Disjoint(s: seq<string>, a: seq<string>, b: seq<string>)
    requires NoDuplicates(s) && Merge(s, a, b)
    ensures NoDuplicates(a) && NoDuplicates(b) && |s| == |a| + |b|
    ensures forall x :: x in a ==> x !in b
    ensures forall x :: x in s <==> x in a || x in b
  {
    MergeFacts(s, a, b);
    CountOne(s);
    assert forall x :: multiset(s)[x] == multiset(a)[x] + multiset(b)[x];
    AtMostOnce(a);
    AtMostOnce(b);
    forall x ensures x in s <==> x in a || x in b {
      assert x in multiset(s) <==> x in multiset(a) || x in multiset(b);
    }
    forall x | x in a ensures x !in b {
      assert multiset(a)[x] >= 1;
      assert multiset(b)[x] == 0;
    }
  }

  // --- What the subscriber of a batch event reads ---------------------------------------------------------------

  lemma {:induction false} ReversedElements(s: seq<string>)
    ensures Elements(Reversed(s)) == Elements(s)
  {
    if s == [] {
    } else {
      ReversedElements(s[1..]);
      assert s == [s[0]] + s[1..];
      assert Elements(s) == {s[0]} + Elements(s[1..]);
      assert Elements(Reversed(s)) == Elements(Reversed(s[1..])) + {s[0]};
    }
  }

  lemma {:induction false} ReversedDrop(s: seq<string>, n: nat)
    requires n <= |s|
    ensures Reversed(s)[..|s| - n] == Reversed(s[n..])
  {
    if n > 0 {
      ReversedDrop(s[1..], n - 1);
      assert s[1..][n - 1..] == s[n..];
    } else {
      assert s[0..] == s;
    }
  }

  /** With nothing pushed in between, the newest `count` entries are exactly the addresses of the batch, or its newest
      50000 when it is larger than the list may be. */
  lemma BatchEventCovers(list: seq<string>, members: seq<string>)
    ensures var n := if |members| <= 50000 then 0 else |members| - 50000;
            Elements(FirstOf(Pushed(list, members), |members|)) == Elements(members[n..])
  {
    var n := if |members| <= INCREMENTAL_MAX_LEN then 0 else |members| - INCREMENTAL_MAX_LEN;
    var all := Reversed(members) + list;
    var kept := Pushed(list, members);
    ReversedDrop(members, n);
    ReversedElements(members[n..]);
    var first := FirstOf(kept, |members|);
    assert first == all[..|members| - n];
    assert all[..|members| - n] == Reversed(members)[..|members| - n];
  }

  /** A blank entry of a list survives cleaning up exactly on the chains of the EVM codec, as "0x"; elsewhere it is
      empty and skipped. */
  lemma BlankIsKeptIff(sum: Checksum, chain: string, addresses: seq<string>, i: nat)
    requires i < |addresses| && TrimSpace(addresses[i]) == ""
    ensures var ns := NormalizedList(sum, chain, addresses);
            ns[i] in Distinct(ns, |ns|) <==> ToUpper(chain) !in {"TRON", "SOL"}
    ensures ToUpper(chain) !in {"TRON", "SOL"} ==>
              "0x" in Distinct(NormalizedList(sum, chain, addresses), |addresses|)
  {
    var ns := NormalizedList(sum, chain, addresses);
    DistinctIs(ns, |ns|);
    assert ns[..|ns|] == ns && ns[i] in ns;
    BlankNormalized(sum, chain);
  }

  lemma BlankNormalized(sum: Checksum, chain: string)
    ensures NormalizeAddress(sum, chain, "") == if ToUpper(chain) !in {"TRON", "SOL"} then "0x" else ""
  {
    assert ToLower("") == "" && TrimSpace("") == "";
  }
}
