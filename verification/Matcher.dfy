/** The address matcher of a worker: its filters, its watermark, and the Redis keys it shares with the API. */
module Matcher {
  import opened Prelude
  import opened Bloom
  import opened WatchedAddress
  import opened WatchIndex
  import opened PagedLoad

  datatype AddressEvent = Add(chain: string, address: string)
                        | BatchAdd(chain: string, count: int)
                        | Remove(chain: string, address: string)
                        | Unknown

  /** Seven days, in seconds. */
  const HOT_TTL: int := 7 * 24 * 3600

  /** LRANGE key 0 stop, for a non-negative stop. */
  function FirstOf(list: seq<string>, n: nat): seq<string> {
    if |list| <= n then list else list[..n]
  }

  function HotSet(m: map<string, set<string>>, key: string): set<string> {
    if key in m then m[key] else {}
  }

  ghost predicate AllHit(h: Hash, f: Bits, addresses: seq<string>) {
    forall a :: a in addresses ==> Hit(h, f, a)
  }

  lemma AddedHit(h: Hash, f: Bits, addresses: seq<string>)
    ensures AllHit(h, Absorb(h, f, Elements(addresses)), addresses)
  {
    forall a | a in addresses ensures Hit(h, Absorb(h, f, Elements(addresses)), a) {
      NoFalseNegatives(h, f, Elements(addresses), a);
    }
  }

  /** The repair pass has come to all chains but those of `todo`. */
  ghost predicate RepairedBut(h: Hash, fs: Filters, fs': Filters, lists: map<string, seq<string>>,
                              readable: set<string>,
                              todo: set<string>) {
    && fs'.Keys == fs.Keys
    && forall c :: c in fs ==>
         if c in readable && c in lists && c !in todo then AllHit(h, fs'[c], lists[c]) else fs'[c] == fs[c]
  }

  /** Additions by event, each of a whole list. */
  ghost predicate ListAdditions(lists: map<string, seq<string>>, steps: seq<Step>) {
    forall step :: step in steps ==>
      step.AddEvent? && step.chain in lists && step.items == Elements(lists[step.chain])
  }

  class Redis {
    var hot: map<string, set<string>>
    var lastActive: map<(string, string), int>
    var incremental: map<string, seq<string>>
    var snapshot: map<string, Blob>
    var snapshotMaxId: Option<nat>

    constructor ()
      ensures hot == map[] && lastActive == map[] && incremental == map[] && snapshot == map[] && snapshotMaxId == None
    {
      hot, lastActive, incremental, snapshot, snapshotMaxId := map[], map[], map[], map[], None;
    }
  }

  class Matcher {
    const h: Hash
    const bfs: map<string, Filter>
    const rdb: Redis
    const addrStore: AddressStore
    var lastDBSyncID: nat

    ghost predicate Valid() {
      && (forall c :: c in bfs ==> bfs[c].h == h)
      && (forall c, d :: c in bfs && d in bfs && c != d ==> bfs[c] != bfs[d])
    }

    ghost function Filters(): (fs: Filters)
      reads this, bfs.Values
      ensures fs.Keys == bfs.Keys
    {
      map c | c in bfs :: bfs[c].bf
    }

    ghost function Index(): WatchIndex.Index
      reads this, bfs.Values
    {
      WatchIndex.Index(Filters(), lastDBSyncID)
    }

    /** One empty filter per configured chain, under its upper-case name. `m` bits and `k` probes are what the library
        computes from the expected number of addresses and the wanted false-positive rate. */
    constructor (h: Hash, rdb: Redis, addrStore: AddressStore, chains: seq<string>, m: nat, k: nat)
      requires 0 < m && 0 < k
      ensures Valid() && lastDBSyncID == 0
      ensures this.h == h && this.rdb == rdb && this.addrStore == addrStore
      ensures bfs.Keys == set c | c in chains :: ToUpper(c)
      ensures forall c :: c in bfs ==> fresh(bfs[c]) && IsEmpty(bfs[c].bf)
    {
      var filters: map<string, Filter> := map[];
      for i := 0 to |chains|
        invariant filters.Keys == set c | c in chains[..i] :: ToUpper(c)
        invariant forall c :: c in filters ==> fresh(filters[c]) && filters[c].h == h && IsEmpty(filters[c].bf)
        invariant forall c, d :: c in filters && d in filters && c != d ==> filters[c] != filters[d]
      {
        var f := new Filter(h, m, k);
        filters := filters[ToUpper(chains[i]) := f];
        assert chains[..i + 1] == chains[..i] + [chains[i]];
      }
      assert chains[..|chains|] == chains;
      this.h, this.rdb, this.addrStore, this.bfs, this.lastDBSyncID := h, rdb, addrStore, filters, 0;
    }

    /** Layers: the chain's filter, then the hot set, then the table. Whatever the hot set holds, and whether or not
        Redis answers, the rows are those of the plain query as soon as the filter lets the address through. */
    method IsWatched(chain: string, address: string, redisUp: bool, dbUp: bool, now: int)
      returns (rows: seq<Row>, ok: bool)
      requires Valid()
      modifies rdb
      ensures ok ==> rows == Lookup(h, Filters(), addrStore.collation, addrStore.rows, chain, address)
      ensures !ok ==> !dbUp
      ensures !dbUp ==> rows == []
      ensures var promoted := redisUp && rows != [] && address !in HotSet(old(rdb.hot), chain);
              && rdb.hot == (if promoted then old(rdb.hot)[chain := HotSet(old(rdb.hot), chain) + {address}]
                             else old(rdb.hot))
              && rdb.lastActive == if promoted then old(rdb.lastActive)[(chain, address) := now]
                                   else old(rdb.lastActive)
      ensures rdb.incremental == old(rdb.incremental) && rdb.snapshot == old(rdb.snapshot)
      ensures rdb.snapshotMaxId == old(rdb.snapshotMaxId)
    {
      if chain !in bfs {
        return [], true;
      }
      var positive := bfs[chain].Test(address);
      if !positive {
        return [], true;
      }
      if redisUp && address in HotSet(rdb.hot, chain) {
        if !dbUp {
          return [], false;
        }
        return ListByChainAddress(addrStore.collation, addrStore.rows, chain, address), true;
      }
      if !dbUp {
        return [], false;
      }
      rows := ListByChainAddress(addrStore.collation, addrStore.rows, chain, address);
      ok := true;
      if rows != [] && redisUp {
        PromoteToHot(chain, address, now);
      }
    }

    method PromoteToHot(chain: string, address: string, now: int)
      modifies rdb
      ensures rdb.hot == old(rdb.hot)[chain := HotSet(old(rdb.hot), chain) + {address}]
      ensures rdb.lastActive == old(rdb.lastActive)[(chain, address) := now]
      ensures rdb.incremental == old(rdb.incremental) && rdb.snapshot == old(rdb.snapshot)
      ensures rdb.snapshotMaxId == old(rdb.snapshotMaxId)
    {
      rdb.hot := rdb.hot[chain := HotSet(rdb.hot, chain) + {address}];
      rdb.lastActive := rdb.lastActive[(chain, address) := now];
    }

    method AddToBF(chain: string, address: string)
      requires Valid()
      modifies bfs.Values
      ensures Filters() == AddTo(h, old(Filters()), chain, {address})
    {
      if chain in bfs {
        bfs[chain].Add(address);
      }
    }

    /** Adds the listed addresses that do not test positive yet. */
    method AddMissing(chain: string, addresses: seq<string>)
      requires Valid() && chain in bfs
      modifies bfs[chain]
      ensures bfs[chain].bf == Absorb(h, old(bfs[chain].bf), Elements(addresses))
    {
      var bf := bfs[chain];
      AbsorbNothing(h, bf.bf);
      assert Elements(addresses[..0]) == {};
      for i := 0 to |addresses|
        invariant bf.bf == Absorb(h, old(bf.bf), Elements(addresses[..i]))
      {
        var present := bf.Test(addresses[i]);
        ghost var before := bf.bf;
        if !present {
          bf.Add(addresses[i]);
        } else {
          AbsorbHit(h, bf.bf, addresses[i]);
        }
        AbsorbTwice(h, old(bf.bf), Elements(addresses[..i]), {addresses[i]});
        assert Elements(addresses[..i + 1]) == Elements(addresses[..i]) + {addresses[i]};
      }
      assert addresses[..|addresses|] == addresses;
    }

    /** Reads the newest `count` entries of the incremental list. */
    method HandleBatchAdd(chain: string, count: int, redisUp: bool)
      requires Valid()
      modifies bfs.Values
      ensures Filters() == if 0 < count && redisUp && chain in rdb.incremental
                           then AddTo(h, old(Filters()), chain, Elements(FirstOf(rdb.incremental[chain], count)))
                           else old(Filters())
    {
      if count <= 0 || chain !in bfs || !redisUp || chain !in rdb.incremental {
        return;
      }
      AddMissing(chain, FirstOf(rdb.incremental[chain], count));
    }

    method HandleAddressEvent(event: AddressEvent, redisUp: bool)
      requires Valid()
      modifies bfs.Values, rdb
      ensures event.Add? ==> Filters() == AddTo(h, old(Filters()), event.chain, {event.address})
      ensures event.BatchAdd? && 0 < event.count && redisUp && event.chain in old(rdb.incremental)
              ==> Filters() == AddTo(h, old(Filters()), event.chain,
                                     Elements(FirstOf(old(rdb.incremental)[event.chain], event.count)))
      ensures !event.Add? && !(event.BatchAdd? && 0 < event.count && redisUp && event.chain in old(rdb.incremental))
              ==> Filters() == old(Filters())
      ensures rdb.hot == if event.Remove? && redisUp && event.chain in old(rdb.hot)
                         then old(rdb.hot)[event.chain := old(rdb.hot)[event.chain] - {event.address}]
                         else old(rdb.hot)
      ensures rdb.incremental == old(rdb.incremental) && rdb.snapshot == old(rdb.snapshot)
      ensures rdb.snapshotMaxId == old(rdb.snapshotMaxId) && rdb.lastActive == old(rdb.lastActive)
    {
      match event
      case Add(chain, address) => AddToBF(chain, address);
      case BatchAdd(chain, count) => HandleBatchAdd(chain, count, redisUp);
      case Remove(chain, address) =>
        if redisUp && chain in rdb.hot {
          rdb.hot := rdb.hot[chain := rdb.hot[chain] - {address}];
        }
      case Unknown =>
    }

    /** The repair pass over every chain's incremental list; a chain whose list cannot be read is skipped. Afterwards
        every listed address tests positive, and the pass was a series of additions by event of the machine. */
    method SyncIncremental(readable: set<string>, ghost blank: WatchIndex.Filters, ghost w: World)
      returns (ghost steps: seq<Step>)
      requires Valid() && w.up && w.x == Index()
      modifies bfs.Values
      ensures forall c :: c in bfs ==>
                if c in readable && c in rdb.incremental then AllHit(h, Filters()[c], rdb.incremental[c])
                else Filters()[c] == old(Filters())[c]
      ensures ListAdditions(rdb.incremental, steps)
      ensures AllowedRun(h, blank, w, steps) && After(h, blank, w, steps) == w.(x := Index())
    {
      ghost var fs, lists := Filters(), rdb.incremental;
      var todo := bfs.Keys;
      steps := [];
      while todo != {}
        invariant todo <= bfs.Keys && RepairedBut(h, fs, Filters(), lists, readable, todo)
        invariant ListAdditions(lists, steps)
        invariant AllowedRun(h, blank, w, steps) && After(h, blank, w, steps) == w.(x := Index())
        decreases |todo|
      {
        var chain :| chain in todo;
        steps := RepairNext(chain, readable, fs, todo, blank, w, steps);
        todo := todo - {chain};
      }
    }

    /** One chain of the pass; `todo` are those it has not come to. */
    method RepairNext(chain: string, readable: set<string>, ghost fs: WatchIndex.Filters, ghost todo: set<string>,
                      ghost blank: WatchIndex.Filters, ghost w: World, ghost steps: seq<Step>)
      returns (ghost steps': seq<Step>)
      requires Valid() && chain in bfs && chain in todo && w.up
      requires RepairedBut(h, fs, Filters(), rdb.incremental, readable, todo) && ListAdditions(rdb.incremental, steps)
      requires AllowedRun(h, blank, w, steps) && After(h, blank, w, steps) == w.(x := Index())
      modifies bfs[chain]
      ensures RepairedBut(h, fs, Filters(), rdb.incremental, readable, todo - {chain})
      ensures ListAdditions(rdb.incremental, steps')
      ensures AllowedRun(h, blank, w, steps') && After(h, blank, w, steps') == w.(x := Index())
    {
      steps' := steps;
      if chain in readable && chain in rdb.incremental {
        ghost var before := Filters();
        var addresses := rdb.incremental[chain];
        AddMissing(chain, addresses);
        assert Filters() == AddTo(h, before, chain, Elements(addresses));
        AddedHit(h, before[chain], addresses);
        RunSnoc(h, blank, w, steps, AddEvent(chain, Elements(addresses)));
        steps' := steps + [AddEvent(chain, Elements(addresses))];
      }
    }

    /** Adds each row's address to the filter of its chain, noting the last id among all rows and among those of
        configured chains. */
    method AddAll(rows: seq<Row>) returns (lastId: nat, lastKnown: nat)
      requires Valid()
      modifies bfs.Values
      ensures Filters() == AddRows(h, old(Filters()), rows)
      ensures lastId == MaxId(rows) && lastKnown == MaxId(OnKnownChain(rows, bfs.Keys))
    {
      ghost var fs := Filters();
      AddRowsNone(h, fs);
      lastId, lastKnown := 0, 0;
      for i := 0 to |rows|
        invariant Filters() == AddRows(h, fs, rows[..i])
        invariant lastId == MaxId(rows[..i]) && lastKnown == MaxId(OnKnownChain(rows[..i], bfs.Keys))
      {
        AddOne(rows[i]);
        if rows[i].chain in bfs && rows[i].id > lastKnown {
          lastKnown := rows[i].id;
        }
        if rows[i].id > lastId {
          lastId := rows[i].id;
        }
        AddRowsTwice(h, fs, rows[..i], [rows[i]]);
        LastIdStep(rows, i, bfs.Keys);
        assert rows[..i + 1] == rows[..i] + [rows[i]];
      }
      assert rows[..|rows|] == rows;
    }

    method AddOne(row: Row)
      requires Valid()
      modifies bfs.Values
      ensures Filters() == AddRows(h, old(Filters()), [row])
    {
      ghost var fs := Filters();
      if row.chain in bfs {
        bfs[row.chain].Add(row.address);
      }
      forall c | c in bfs ensures bfs[c].bf == AddRows(h, fs, [row])[c] {
        assert AddressesOn([row], c) == if c == row.chain then {row.address} else {};
        AbsorbNothing(h, fs[c]);
      }
    }

    /** Pulls the enabled rows above the watermark and moves the watermark to the last of them. */
    method SyncFromDB(dbUp: bool)
      requires Valid()
      modifies this, bfs.Values
      ensures Index() == if dbUp then SyncOf(h, old(Index()), addrStore.rows) else old(Index())
    {
      if !dbUp {
        return;
      }
      var was := ListAfterID(addrStore.rows, lastDBSyncID);
      if was == [] {
        return;
      }
      var maxID, _ := AddAll(was);
      lastDBSyncID := maxID;
    }

    /** Reads the enabled rows page by page until the pages reach the row count. `pages` is what the query for each page
        returns, `pageUp` says which queries succeed. */
    method LoadPages(pages: Pages, count: nat, pageUp: set<nat>)
      returns (ok: bool, total: nat, maxID: nat, ghost n: nat)
      requires Valid() && PageSizes(pages, count)
      modifies bfs.Values
      ensures Filters() == AddRows(h, old(Filters()), Joined(pages, n))
      ensures ok ==> LastPage(count, n) && total == count
      ensures ok ==> maxID == MaxId(OnKnownChain(Joined(pages, n), bfs.Keys))
      ensures !ok ==> n + 1 !in pageUp
    {
      ghost var fs := Filters();
      AddRowsNone(h, fs);
      var page := 1;
      total, maxID, n := 0, 0, 0;
      while true
        invariant page == n + 1 && Start(page) <= count && (n == 0 || Start(page) < count)
        invariant total == Start(page) && Filters() == AddRows(h, fs, Joined(pages, n))
        invariant maxID == MaxId(OnKnownChain(Joined(pages, n), bfs.Keys))
        decreases count - Start(page)
      {
        if page !in pageUp {
          return false, total, maxID, n;
        }
        var found;
        found, maxID := LoadPage(pages, page, count, maxID, fs);
        total, n := total + found, n + 1;
        if page * PAGE_SIZE >= count {
          break;
        }
        page := page + 1;
      }
      ok := true;
    }

    /** One page more. */
    method LoadPage(pages: Pages, page: nat, count: nat, maxID: nat, ghost fs: WatchIndex.Filters)
      returns (found: nat, maxID': nat)
      requires Valid() && 0 < page && PageSizes(pages, count) && Start(page) <= count
      requires Filters() == AddRows(h, fs, Joined(pages, page - 1))
      requires maxID == MaxId(OnKnownChain(Joined(pages, page - 1), bfs.Keys))
      modifies bfs.Values
      ensures Filters() == AddRows(h, fs, Joined(pages, page))
      ensures maxID' == MaxId(OnKnownChain(Joined(pages, page), bfs.Keys))
      ensures found == if count <= Start(page + 1) then count - Start(page) else PAGE_SIZE
    {
      var was := pages(page);
      var _, last := AddAll(was);
      AddRowsTwice(h, fs, Joined(pages, page - 1), was);
      LastIdAppend(Joined(pages, page - 1), was, bfs.Keys);
      found, maxID' := |was|, Max(maxID, last);
    }

    /** The full load at start-up, of a table that does not change meanwhile; only a load that reads every page moves
        the watermark. */
    method LoadFromDB(orders: Orders, pageUp: set<nat>) returns (ok: bool, total: nat, ghost n: nat)
      requires Valid() && forall p :: multiset(orders(p)) == multiset(Enabled(addrStore.rows))
      modifies this, bfs.Values
      ensures ok ==> LastPage(|Enabled(addrStore.rows)|, n) && total == |Enabled(addrStore.rows)|
      ensures ok ==> Index() == Loaded(h, old(Filters()), Visited(orders, n))
      ensures ok && Complete(addrStore.rows, Visited(orders, n)) ==>
              Index() == LoadOf(h, old(Filters()), addrStore.rows)
      ensures !ok ==> lastDBSyncID == old(lastDBSyncID) && n + 1 !in pageUp
      ensures !ok ==> Filters() == AddRows(h, old(Filters()), Visited(orders, n))
    {
      ghost var fs := Filters();
      var count := |Enabled(addrStore.rows)|;
      SameLength(addrStore.rows, orders);
      PagesFit(orders, count);
      var maxID;
      ok, total, maxID, n := LoadPages(PagesOf(orders), count, pageUp);
      if ok {
        lastDBSyncID := maxID;
        CompleteIsLoad(h, fs, addrStore.rows, Visited(orders, n));
      }
    }

    static lemma SameLength(t: Table, orders: Orders)
      requires forall p :: multiset(orders(p)) == multiset(Enabled(t))
      ensures forall p :: |orders(p)| == |Enabled(t)|
    {
      forall p ensures |orders(p)| == |Enabled(t)| {
        assert |multiset(orders(p))| == |orders(p)| && |multiset(Enabled(t))| == |Enabled(t)|;
      }
    }

    /** Writes every chain's filter, then the watermark; a write that fails leaves the key as it was. */
    method SnapshotBF(setUp: set<string>, watermarkUp: bool) returns (ok: bool)
      requires Valid()
      modifies rdb
      ensures forall c :: c in rdb.snapshot <==> c in old(rdb.snapshot) || (c in bfs && c in setUp)
      ensures forall c :: c in rdb.snapshot ==>
                rdb.snapshot[c] == if c in bfs && c in setUp then Encoded(bfs[c].bf) else old(rdb.snapshot)[c]
      ensures rdb.snapshotMaxId == if watermarkUp then Some(lastDBSyncID) else old(rdb.snapshotMaxId)
      ensures ok == (watermarkUp && forall c :: c in bfs ==> c in setUp)
      ensures rdb.hot == old(rdb.hot) && rdb.lastActive == old(rdb.lastActive)
      ensures rdb.incremental == old(rdb.incremental)
    {
      ok := true;
      var todo := bfs.Keys;
      while todo != {}
        invariant todo <= bfs.Keys
        invariant forall c :: c in rdb.snapshot <==> c in old(rdb.snapshot) || (c in bfs && c !in todo && c in setUp)
        invariant forall c :: c in rdb.snapshot ==>
                    rdb.snapshot[c] == if c in bfs && c !in todo && c in setUp then Encoded(bfs[c].bf)
                                       else old(rdb.snapshot)[c]
        invariant ok == forall c :: c in bfs && c !in todo ==> c in setUp
        invariant rdb.snapshotMaxId == old(rdb.snapshotMaxId)
        invariant rdb.hot == old(rdb.hot) && rdb.lastActive == old(rdb.lastActive)
        invariant rdb.incremental == old(rdb.incremental)
        decreases |todo|
      {
        var chain :| chain in todo;
        todo := todo - {chain};
        var data := bfs[chain].Encode();
        if chain in setUp {
          rdb.snapshot := rdb.snapshot[chain := data];
        } else {
          ok := false;
        }
      }
      if watermarkUp {
        rdb.snapshotMaxId := Some(lastDBSyncID);
      } else {
        ok := false;
      }
    }

    /** One chain more: `todo` are those the restore has not come to. */
    method RestoreFilter(chain: string, getUp: set<string>, ghost fs: WatchIndex.Filters, ghost todo: set<string>)
      returns (decoded: bool)
      requires Valid() && chain in todo && chain in bfs
      requires Filters() == RestoredBut(fs, todo, rdb.snapshot, getUp)
      modifies bfs[chain]
      ensures decoded == Decodes(chain, rdb.snapshot, getUp)
      ensures Filters() == RestoredBut(fs, todo - {chain}, rdb.snapshot, getUp)
    {
      decoded := false;
      if chain in getUp && chain in rdb.snapshot {
        decoded := bfs[chain].Decode(rdb.snapshot[chain]);
      }
    }

    /** A filter once the restore has passed its chain. */
    static ghost function RestoredBits(before: Bits, chain: string, snapshot: map<string, Blob>,
                                       getUp: set<string>): Bits {
      if Decodes(chain, snapshot, getUp) then snapshot[chain].value else before
    }

    static ghost function RestoredBut(fs: WatchIndex.Filters, todo: set<string>, snapshot: map<string, Blob>,
                                      getUp: set<string>): WatchIndex.Filters {
      map c | c in fs :: if c in todo then fs[c] else RestoredBits(fs[c], c, snapshot, getUp)
    }

    static ghost predicate Decodes(chain: string, snapshot: map<string, Blob>, getUp: set<string>) {
      chain in getUp && chain in snapshot && snapshot[chain].Encoded?
    }

    /** Replaces the filter of every chain whose snapshot can be read and decoded. */
    method RestoreFilters(getUp: set<string>) returns (anyRestored: bool)
      requires Valid()
      modifies bfs.Values
      ensures Filters() == Restore(old(Filters()), rdb.snapshot, getUp)
      ensures anyRestored == (ReadableOf(bfs.Keys, rdb.snapshot, getUp) != {})
    {
      anyRestored := false;
      ghost var fs, snapshot := Filters(), rdb.snapshot;
      var todo := bfs.Keys;
      while todo != {}
        invariant todo <= bfs.Keys
        invariant Filters() == RestoredBut(fs, todo, snapshot, getUp)
        invariant anyRestored <==> exists c :: c in bfs && c !in todo && Decodes(c, snapshot, getUp)
        decreases |todo|
      {
        var chain :| chain in todo;
        var decoded := RestoreFilter(chain, getUp, fs, todo);
        todo := todo - {chain};
        anyRestored := anyRestored || decoded;
      }
      RestoredAll(fs, Filters(), snapshot, getUp);
    }

    static lemma RestoredAll(fs: WatchIndex.Filters, fs': WatchIndex.Filters, snapshot: map<string, Blob>,
                             getUp: set<string>)
      requires fs' == RestoredBut(fs, {}, snapshot, getUp)
      ensures fs' == Restore(fs, snapshot, getUp)
      ensures ReadableOf(fs.Keys, snapshot, getUp) != {} <==> exists c :: c in fs && Decodes(c, snapshot, getUp)
    {
      if c :| c in fs && Decodes(c, snapshot, getUp) {
        assert c in ReadableOf(fs.Keys, snapshot, getUp);
      }
    }

    /** One chain that decodes is enough for the worker to count as restored. */
    method RestoreBF(getUp: set<string>, watermarkUp: bool, dbUp: bool) returns (restored: bool)
      requires Valid()
      modifies this, bfs.Values
      ensures restored == (ReadableOf(bfs.Keys, rdb.snapshot, getUp) != {})
      ensures Index() == if !restored then old(Index()) else
                RestoredIndex(h, old(Index()), rdb.snapshot, rdb.snapshotMaxId, addrStore.rows, getUp,
                              watermarkUp, dbUp)
    {
      ghost var fs := Filters();
      restored := RestoreFilters(getUp);
      if !restored {
        RestoreNothing(fs, rdb.snapshot, getUp);
        return;
      }
      assert Index() == WatchIndex.Index(Restore(fs, rdb.snapshot, getUp), lastDBSyncID);
      if watermarkUp && rdb.snapshotMaxId.Some? {
        lastDBSyncID := rdb.snapshotMaxId.value;
        assert Index() == WatchIndex.Index(Restore(fs, rdb.snapshot, getUp), rdb.snapshotMaxId.value);
        SyncFromDB(dbUp);
      }
    }

    predicate StillActive(chain: string, address: string, readable: set<string>, now: int)
      reads rdb
    {
      address in readable && (chain, address) in rdb.lastActive && rdb.lastActive[(chain, address)] >= now - HOT_TTL
    }

    /** The daily job: whoever was not active for seven days, or whose activity cannot be read, leaves the hot set. */
    method DowngradeHotToCold(chain: string, membersUp: bool, readable: set<string>, now: int) returns (removed: nat)
      modifies rdb
      ensures membersUp && chain in old(rdb.hot) ==>
                rdb.hot == old(rdb.hot)[chain := HotSet(rdb.hot, chain)]
                && (forall a :: a in HotSet(rdb.hot, chain)
                           <==> a in old(rdb.hot)[chain] && a in readable && (chain, a) in rdb.lastActive
                                && now - rdb.lastActive[(chain, a)] <= 604800)
                && removed == |old(rdb.hot)[chain]| - |rdb.hot[chain]|
      ensures !membersUp || chain !in old(rdb.hot) ==> rdb.hot == old(rdb.hot) && removed == 0
      ensures rdb.lastActive == old(rdb.lastActive) && rdb.incremental == old(rdb.incremental)
      ensures rdb.snapshot == old(rdb.snapshot) && rdb.snapshotMaxId == old(rdb.snapshotMaxId)
    {
      removed := 0;
      if !membersUp || chain !in rdb.hot {
        return;
      }
      ghost var members := rdb.hot[chain];
      var todo := rdb.hot[chain];
      while todo != {}
        invariant todo <= members && chain in rdb.hot && rdb.hot == old(rdb.hot)[chain := rdb.hot[chain]]
        invariant rdb.hot[chain] == set a | a in members && (a in todo || StillActive(chain, a, readable, now))
        invariant removed + |rdb.hot[chain]| == |members|
        invariant rdb.lastActive == old(rdb.lastActive) && rdb.incremental == old(rdb.incremental)
        invariant rdb.snapshot == old(rdb.snapshot) && rdb.snapshotMaxId == old(rdb.snapshotMaxId)
        decreases |todo|
      {
        var addr :| addr in todo;
        todo := todo - {addr};
        if !StillActive(chain, addr, readable, now) {
          assert addr in rdb.hot[chain];
          rdb.hot := rdb.hot[chain := rdb.hot[chain] - {addr}];
          removed := removed + 1;
        }
      }
      assert rdb.hot[chain] == set a | a in members && StillActive(chain, a, readable, now);
    }
  }
}
