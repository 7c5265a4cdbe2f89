/** What the in-memory index knows about the table, as values: the filters, the id watermark, the stored
    snapshot, and every run of the worker that changes them. */
module WatchIndex {
  import opened Prelude
  import opened Bloom
  import opened WatchedAddress

  type Filters = map<string, Bits>
  datatype Index = Index(filters: Filters, watermark: nat)

  function AddressesOn(rows: seq<Row>, chain: string): set<string> {
    set r | r in rows && r.chain == chain :: r.address
  }

  /** Each row's address added to the filter of its chain; rows of other chains are skipped. */
  ghost function AddRows(h: Hash, fs: Filters, rows: seq<Row>): (r: Filters)
    ensures r.Keys == fs.Keys
  {
    map c | c in fs :: Absorb(h, fs[c], AddressesOn(rows, c))
  }

  ghost function AddTo(h: Hash, fs: Filters, chain: string, items: set<string>): (r: Filters)
    ensures r.Keys == fs.Keys
  {
    if chain in fs then fs[chain := Absorb(h, fs[chain], items)] else fs
  }

  function OnKnownChain(rows: seq<Row>, chains: set<string>): seq<Row> {
    Select(rows, (r: Row) => r.chain in chains)
  }

  /** The full load of a worker that starts without a snapshot. */
  ghost function LoadOf(h: Hash, fs: Filters, t: Table): Index {
    Index(AddRows(h, fs, Enabled(t)), MaxId(OnKnownChain(Enabled(t), fs.Keys)))
  }

  /** One completed incremental sync. */
  ghost function SyncOf(h: Hash, x: Index, t: Table): Index {
    var news := ListAfterID(t, x.watermark);
    if news == [] then x else Index(AddRows(h, x.filters, news), MaxId(news))
  }

  ghost predicate CoversChain(h: Hash, f: Bits, t: Table, chain: string, upto: nat) {
    forall r :: r in t && r.enabled && r.chain == chain && r.id <= upto ==> Hit(h, f, r.address)
  }

  /** Every enabled row of a known chain whose id is at most `upto` tests positive in its chain's filter. */
  ghost predicate Covers(h: Hash, fs: Filters, t: Table, upto: nat) {
    forall c :: c in fs ==> CoversChain(h, fs[c], t, c, upto)
  }

  /** What the three-layer funnel answers. */
  ghost function Lookup(h: Hash, fs: Filters, col: Collation, t: Table, chain: string, address: string): seq<Row> {
    if chain !in fs || !Hit(h, fs[chain], address) then [] else ListByChainAddress(col, t, chain, address)
  }

  /** The funnel answers exactly the plain query, unless the only rows the query finds are ones not yet covered or
      ones that merely compare equal (letter case) without being equal. */
  lemma FunnelRefinesQuery(h: Hash, fs: Filters, col: Collation, t: Table, upto: nat, chain: string, address: string)
    requires Covers(h, fs, t, upto) && chain in fs
    requires var rows := ListByChainAddress(col, t, chain, address);
             rows == [] || exists r :: r in rows && r.id <= upto && r.chain == chain && r.address == address
    ensures Lookup(h, fs, col, t, chain, address) == ListByChainAddress(col, t, chain, address)
  {
    var rows := ListByChainAddress(col, t, chain, address);
    if rows != [] {
      var r :| r in rows && r.id <= upto && r.chain == chain && r.address == address;
      assert CoversChain(h, fs[chain], t, chain, upto);
    }
  }

  lemma FunnelIsTheQuery(h: Hash, fs: Filters, t: Table, chain: string, address: string)
    requires Covers(h, fs, t, MaxId(t)) && chain in fs
    ensures Lookup(h, fs, Binary, t, chain, address) == ListByChainAddress(Binary, t, chain, address)
  {
    var rows := ListByChainAddress(Binary, t, chain, address);
    if rows != [] {
      MaxIdIsMax(t);
      assert rows[0] in rows && rows[0].id <= MaxId(t);
    }
    FunnelRefinesQuery(h, fs, Binary, t, MaxId(t), chain, address);
  }

  // --- Single operations -------------------------------------------------------------------------------------

  lemma AddRowsTwice(h: Hash, fs: Filters, a: seq<Row>, b: seq<Row>)
    ensures AddRows(h, AddRows(h, fs, a), b) == AddRows(h, fs, a + b)
  {
    forall c | c in fs
      ensures AddRows(h, AddRows(h, fs, a), b)[c] == AddRows(h, fs, a + b)[c]
    {
      AbsorbTwice(h, fs[c], AddressesOn(a, c), AddressesOn(b, c));
      assert AddressesOn(a + b, c) == AddressesOn(a, c) + AddressesOn(b, c);
    }
  }

  lemma AddRowsNone(h: Hash, fs: Filters)
    ensures AddRows(h, fs, []) == fs
  {
    forall c | c in fs ensures AddRows(h, fs, [])[c] == fs[c] {
      assert AddressesOn([], c) == {};
      AbsorbNothing(h, fs[c]);
    }
  }

  /** One more row seen, as the loops that track the last id see it. */
  lemma LastIdStep(rows: seq<Row>, i: nat, chains: set<string>)
    requires i < |rows|
    ensures MaxId(rows[..i + 1]) == Max(MaxId(rows[..i]), rows[i].id)
    ensures MaxId(OnKnownChain(rows[..i + 1], chains))
         == if rows[i].chain in chains then Max(MaxId(OnKnownChain(rows[..i], chains)), rows[i].id)
            else MaxId(OnKnownChain(rows[..i], chains))
  {
    assert rows[..i + 1] == rows[..i] + [rows[i]];
    MaxIdAppend(rows[..i], [rows[i]]);
    var known := OnKnownChain(rows[..i], chains);
    SelectAppend(rows[..i], [rows[i]], (r: Row) => r.chain in chains);
    if rows[i].chain in chains {
      assert OnKnownChain(rows[..i + 1], chains) == known + [rows[i]];
      MaxIdAppend(known, [rows[i]]);
    } else {
      assert OnKnownChain(rows[..i + 1], chains) == known + [] == known;
    }
  }

  lemma LastIdAppend(a: seq<Row>, b: seq<Row>, chains: set<string>)
    ensures MaxId(OnKnownChain(a + b, chains)) == Max(MaxId(OnKnownChain(a, chains)), MaxId(OnKnownChain(b, chains)))
  {
    SelectAppend(a, b, (r: Row) => r.chain in chains);
    MaxIdAppend(OnKnownChain(a, chains), OnKnownChain(b, chains));
  }

  /** The outcome of a full load depends neither on the order in which the rows arrive nor on repetitions. */
  lemma LoadInAnyOrder(h: Hash, fs: Filters, t: Table, ordered: seq<Row>)
    requires forall r :: r in ordered <==> r in Enabled(t)
    ensures AddRows(h, fs, ordered) == LoadOf(h, fs, t).filters
    ensures MaxId(OnKnownChain(ordered, fs.Keys)) == LoadOf(h, fs, t).watermark
  {
    forall c | c in fs ensures AddressesOn(ordered, c) == AddressesOn(Enabled(t), c) { }
    MaxIdIsMax(OnKnownChain(Enabled(t), fs.Keys));
    MaxIdUnique(OnKnownChain(ordered, fs.Keys), LoadOf(h, fs, t).watermark);
  }

  lemma AddRowsCovers(h: Hash, fs: Filters, t: Table, rows: seq<Row>, c: string, since: nat)
    requires c in fs && CoversChain(h, fs[c], t, c, since)
    requires forall r :: r in t && r.enabled && r.chain == c && since < r.id ==> r in rows
    ensures CoversChain(h, AddRows(h, fs, rows)[c], t, c, MaxId(t))
  {
    forall r | r in t && r.enabled && r.chain == c
      ensures Hit(h, AddRows(h, fs, rows)[c], r.address)
    {
      if since < r.id {
        assert r.address in AddressesOn(rows, c);
      }
      NoFalseNegatives(h, fs[c], AddressesOn(rows, c), r.address);
    }
  }

  lemma AddToCovers(h: Hash, fs: Filters, t: Table, chain: string, items: set<string>, c: string, upto: nat)
    requires c in fs && CoversChain(h, fs[c], t, c, upto)
    ensures CoversChain(h, AddTo(h, fs, chain, items)[c], t, c, upto)
  {
    if c == chain {
      forall r | r in t && r.enabled && r.chain == c && r.id <= upto
        ensures Hit(h, AddTo(h, fs, chain, items)[c], r.address)
      {
        NoFalseNegatives(h, fs[c], items, r.address);
      }
    }
  }

  /** A completed sync extends coverage from the watermark to every row its query saw. */
  lemma SyncCoversChain(h: Hash, x: Index, t: Table, c: string)
    requires c in x.filters && CoversChain(h, x.filters[c], t, c, x.watermark)
    ensures CoversChain(h, SyncOf(h, x, t).filters[c], t, c, MaxId(t))
  {
    var news := ListAfterID(t, x.watermark);
    if news == [] {
      forall r | r in t && r.enabled && r.chain == c ensures r.id <= x.watermark {
        assert x.watermark < r.id ==> r in news;
      }
    } else {
      AddRowsCovers(h, x.filters, t, news, c, x.watermark);
    }
  }

  lemma SubsetMaxId(part: seq<Row>, t: seq<Row>)
    requires forall r :: r in part ==> r in t
    ensures MaxId(part) <= MaxId(t)
  {
    MaxIdIsMax(part);
    MaxIdIsMax(t);
  }

  lemma SyncWatermark(h: Hash, x: Index, t: Table)
    ensures x.watermark <= SyncOf(h, x, t).watermark <= Max(x.watermark, MaxId(t))
  {
    var news := ListAfterID(t, x.watermark);
    SubsetMaxId(news, t);
    MaxIdIsMax(news);
    if news != [] {
      assert news[0] in news;
    }
  }

  /** A sync leaves the watermark at the highest enabled id there is, or where it was if that is higher. */
  lemma SyncedWatermark(h: Hash, x: Index, t: Table)
    ensures forall r :: r in t && r.enabled ==> r.id <= SyncOf(h, x, t).watermark
    ensures SyncOf(h, x, t).watermark == x.watermark
            || exists r :: r in t && r.enabled && r.id == SyncOf(h, x, t).watermark > x.watermark
  {
    var news := ListAfterID(t, x.watermark);
    MaxIdIsMax(news);
    if news == [] {
      forall r | r in t && r.enabled ensures r.id <= x.watermark {
        assert r !in news;
      }
    } else {
      assert news[0] in news && MaxId(news) > x.watermark;
      forall r | r in t && r.enabled ensures r.id <= MaxId(news) {
        if x.watermark < r.id {
          assert r in news;
        }
      }
    }
  }

  /** A full load leaves it at the highest id of an enabled row on a configured chain. */
  lemma LoadedWatermark(h: Hash, fs: Filters, t: Table)
    ensures var m := LoadOf(h, fs, t).watermark;
            && (forall r :: r in t && r.enabled && r.chain in fs ==> r.id <= m)
            && (m == 0 || exists r :: r in t && r.enabled && r.chain in fs && r.id == m)
  {
    var known := OnKnownChain(Enabled(t), fs.Keys);
    MaxIdIsMax(known);
    assert forall r :: r in t && r.enabled && r.chain in fs ==> r in known;
  }

  lemma LoadCovers(h: Hash, fs: Filters, t: Table)
    requires Sorted(t)
    ensures Covers(h, LoadOf(h, fs, t).filters, t, MaxId(t)) && LoadOf(h, fs, t).watermark <= MaxId(t)
  {
    SubsetMaxId(OnKnownChain(Enabled(t), fs.Keys), t);
    forall c | c in fs ensures CoversChain(h, LoadOf(h, fs, t).filters[c], t, c, MaxId(t)) {
      forall r | r in t ensures 0 < r.id { }
      AddRowsCovers(h, fs, t, Enabled(t), c, 0);
    }
  }

  lemma DisableCovers(h: Hash, f: Bits, t: Table, c: string, upto: nat, id: nat)
    requires CoversChain(h, f, t, c, upto)
    ensures CoversChain(h, f, Disable(t, id), c, upto)
  {
    forall r | r in Disable(t, id) && r.enabled && r.chain == c && r.id <= upto
      ensures Hit(h, f, r.address)
    {
      var i :| 0 <= i < |t| && Disable(t, id)[i] == r;
      assert t[i] in t;
    }
  }

  lemma DisableKeepsIds(t: Table, id: nat)
    ensures MaxId(Disable(t, id)) == MaxId(t)
  {
    var d := Disable(t, id);
    MaxIdIsMax(t);
    forall r | r in d ensures r.id <= MaxId(t) {
      var i :| 0 <= i < |t| && d[i] == r;
      assert t[i] in t;
    }
    if MaxId(t) != 0 {
      var r :| r in t && r.id == MaxId(t);
      var i :| 0 <= i < |t| && t[i] == r;
      assert d[i] in d && d[i].id == MaxId(t);
    }
    MaxIdUnique(d, MaxId(t));
  }

  lemma DisableSorted(t: Table, id: nat)
    requires Sorted(t)
    ensures Sorted(Disable(t, id))
  {
  }

  /** A row that becomes visible below the watermark stays covered exactly when its chain is not configured or its
      address already tests positive: the next syncs never look at it again. */
  lemma LateCommit(h: Hash, x: Index, t: Table, row: Row)
    requires Covers(h, x.filters, t, x.watermark) && row.enabled && row.id <= x.watermark
    ensures Covers(h, x.filters, Commit(t, row), x.watermark)
       <==> (row.chain in x.filters ==> Hit(h, x.filters[row.chain], row.address))
    ensures row !in ListAfterID(Commit(t, row), x.watermark)
  {
    var t' := Commit(t, row);
    assert row in t';
    if row.chain in x.filters && Covers(h, x.filters, t', x.watermark) {
      assert CoversChain(h, x.filters[row.chain], t', row.chain, x.watermark);
    }
    if row.chain in x.filters ==> Hit(h, x.filters[row.chain], row.address) {
      forall c | c in x.filters ensures CoversChain(h, x.filters[c], t', c, x.watermark) {
        assert CoversChain(h, x.filters[c], t, c, x.watermark);
      }
    }
  }

  // --- Whole runs --------------------------------------------------------------------------------------------

  /** What is remembered of a snapshot when it is written: the id up to which the encoded filter covered its chain, and
      the watermark at its encoding. */
  datatype Mark = Mark(cover: nat, at: nat)

  /** `cover[c]` is the id up to which the running worker's filter of chain c covers its rows. */
  datatype World = World(rows: Table, up: bool, x: Index, cover: map<string, nat>,
                         snapshot: map<string, Blob>, marks: map<string, Mark>, storedWatermark: Option<nat>)

  datatype Step =
    | CommitRow(row: Row)
    | DisableRow(id: nat)
    | AddEvent(chain: string, items: set<string>)
    | Sync
    | EncodeChain(chain: string)
    | WriteWatermark
    | LoseSnapshot(chain: string)
    | DamageSnapshot(chain: string)
    | LoseWatermark
    | Crash
    | Boot(getUp: set<string>, watermarkUp: bool, dbUp: bool)

  /** The chains whose snapshot key can be read and decoded. */
  ghost function ReadableOf(chains: set<string>, snapshot: map<string, Blob>, getUp: set<string>): set<string> {
    set c | c in chains && c in getUp && c in snapshot && snapshot[c].Encoded?
  }

  ghost function Restore(fs: Filters, snapshot: map<string, Blob>, getUp: set<string>): (r: Filters)
    ensures r.Keys == fs.Keys
  {
    map c | c in fs :: if c in ReadableOf(fs.Keys, snapshot, getUp) then snapshot[c].value else fs[c]
  }

  lemma RestoreNothing(fs: Filters, snapshot: map<string, Blob>, getUp: set<string>)
    requires ReadableOf(fs.Keys, snapshot, getUp) == {}
    ensures Restore(fs, snapshot, getUp) == fs
  {
  }

  /** The index after a restore that found something: the stored watermark is taken over and synced from; without a
      readable watermark nothing is synced for now. */
  ghost function RestoredIndex(h: Hash, x: Index, snapshot: map<string, Blob>, stored: Option<nat>, t: Table,
                               getUp: set<string>, watermarkUp: bool, dbUp: bool): Index {
    var fs := Restore(x.filters, snapshot, getUp);
    if watermarkUp && stored.Some? then
      if dbUp then SyncOf(h, Index(fs, stored.value), t) else Index(fs, stored.value)
    else Index(fs, x.watermark)
  }

  /** Start-up: restore what decodes, then sync from the stored watermark; with nothing to restore, load everything. */
  ghost function BootOf(h: Hash, blank: Filters, w: World, getUp: set<string>, watermarkUp: bool, dbUp: bool): World {
    var readable := ReadableOf(blank.Keys, w.snapshot, getUp);
    var all := map c | c in blank :: MaxId(w.rows);
    if readable == {} then
      w.(up := true, x := LoadOf(h, blank, w.rows), cover := all)
    else
      w.(up := true,
         x := RestoredIndex(h, Index(blank, 0), w.snapshot, w.storedWatermark, w.rows, getUp, watermarkUp, dbUp),
         cover := if watermarkUp && w.storedWatermark.Some? && dbUp then all
                  else map c | c in blank :: if c in readable && c in w.marks then w.marks[c].cover else 0)
  }

  ghost function Next(h: Hash, blank: Filters, w: World, s: Step): World {
    match s
    case CommitRow(row) => w.(rows := Commit(w.rows, row))
    case DisableRow(id) => w.(rows := Disable(w.rows, id))
    case AddEvent(chain, items) => w.(x := w.x.(filters := AddTo(h, w.x.filters, chain, items)))
    case Sync => w.(x := SyncOf(h, w.x, w.rows), cover := map c | c in blank :: MaxId(w.rows))
    case EncodeChain(c) =>
      if c in w.x.filters && c in w.cover then
        w.(snapshot := w.snapshot[c := Encoded(w.x.filters[c])], marks := w.marks[c := Mark(w.cover[c], w.x.watermark)])
      else w
    case WriteWatermark => w.(storedWatermark := Some(w.x.watermark))
    case LoseSnapshot(c) => w.(snapshot := w.snapshot - {c})
    case DamageSnapshot(c) => w.(snapshot := w.snapshot[c := Garbage])
    case LoseWatermark => w.(storedWatermark := None)
    case Crash => w.(up := false)
    case Boot(getUp, watermarkUp, dbUp) => BootOf(h, blank, w, getUp, watermarkUp, dbUp)
  }

  /** The conditions under which the index may be relied on. Rows become visible in id order; a watermark is written
      only after every chain's filter was stored and without an advance of the watermark since each of those encodings;
      a restore finds all configured chains decodable, or none. */
  ghost predicate Allowed(blank: Filters, w: World, s: Step) {
    match s
    case CommitRow(row) => row.enabled && MaxId(w.rows) < row.id
    case DisableRow(_) => true
    case AddEvent(_, _) => w.up
    case Sync => w.up
    case EncodeChain(c) => w.up && c in blank
    case WriteWatermark => w.up && forall c :: c in blank ==> Stored(w, c) && w.marks[c].at == w.x.watermark
    case LoseSnapshot(_) => true
    case DamageSnapshot(_) => true
    case LoseWatermark => true
    case Crash => w.up
    case Boot(getUp, _, dbUp) =>
      var readable := ReadableOf(blank.Keys, w.snapshot, getUp);
      !w.up && ((readable == {} && dbUp) || (readable != {} && readable == blank.Keys))
  }

  ghost predicate Stored(w: World, c: string) {
    c in w.snapshot && w.snapshot[c].Encoded? && c in w.marks
  }

  ghost predicate InvUp(h: Hash, blank: Filters, w: World) {
    && w.x.filters.Keys == blank.Keys && w.cover.Keys == blank.Keys && w.x.watermark <= MaxId(w.rows)
    && forall c :: c in blank ==>
         && CoversChain(h, w.x.filters[c], w.rows, c, w.cover[c])
         && w.x.watermark <= w.cover[c] <= MaxId(w.rows)
         && (w.storedWatermark.Some? ==> w.storedWatermark.value <= w.cover[c])
  }

  ghost predicate InvStored(h: Hash, blank: Filters, w: World) {
    && (w.storedWatermark.Some? ==> w.storedWatermark.value <= MaxId(w.rows))
    && forall c :: c in blank && c in w.snapshot && w.snapshot[c].Encoded? ==>
         && c in w.marks
         && CoversChain(h, w.snapshot[c].value, w.rows, c, w.marks[c].cover)
         && w.marks[c].at <= w.marks[c].cover <= MaxId(w.rows)
         && (w.storedWatermark.Some? ==> w.storedWatermark.value <= w.marks[c].cover)
  }

  ghost predicate Inv(h: Hash, blank: Filters, w: World) {
    Sorted(w.rows) && (w.up ==> InvUp(h, blank, w)) && InvStored(h, blank, w)
  }

  ghost predicate AllowedRun(h: Hash, blank: Filters, w: World, run: seq<Step>)
    decreases |run|
  {
    run == [] || (Allowed(blank, w, run[0]) && AllowedRun(h, blank, Next(h, blank, w, run[0]), run[1..]))
  }

  ghost function After(h: Hash, blank: Filters, w: World, run: seq<Step>): World
    decreases |run|
  {
    if run == [] then w else After(h, blank, Next(h, blank, w, run[0]), run[1..])
  }

  lemma {:induction false} RunSnoc(h: Hash, blank: Filters, w: World, run: seq<Step>, s: Step)
    requires AllowedRun(h, blank, w, run) && Allowed(blank, After(h, blank, w, run), s)
    ensures AllowedRun(h, blank, w, run + [s])
    ensures After(h, blank, w, run + [s]) == Next(h, blank, After(h, blank, w, run), s)
    decreases |run|
  {
    if run == [] {
      assert (run + [s])[1..] == [];
    } else {
      assert (run + [s])[1..] == run[1..] + [s];
      RunSnoc(h, blank, Next(h, blank, w, run[0]), run[1..], s);
    }
  }

  lemma CommitCovers(h: Hash, f: Bits, t: Table, c: string, upto: nat, row: Row)
    requires CoversChain(h, f, t, c, upto) && upto < row.id
    ensures CoversChain(h, f, Commit(t, row), c, upto)
  {
  }

  lemma CommitMaxId(t: Table, row: Row)
    requires MaxId(t) < row.id
    ensures MaxId(Commit(t, row)) == row.id
  {
    MaxIdIsMax(t);
    MaxIdUnique(Commit(t, row), row.id);
  }

  lemma CommitKeepsInv(h: Hash, blank: Filters, w: World, row: Row)
    requires Inv(h, blank, w) && Allowed(blank, w, CommitRow(row))
    ensures Inv(h, blank, Next(h, blank, w, CommitRow(row)))
  {
    CommitMaxId(w.rows, row);
    MaxIdIsMax(w.rows);
    CommitSorted(w.rows, row);
    forall c | c in blank && w.up
      ensures CoversChain(h, w.x.filters[c], Commit(w.rows, row), c, w.cover[c])
    {
      CommitCovers(h, w.x.filters[c], w.rows, c, w.cover[c], row);
    }
    forall c | c in blank && Stored(w, c)
      ensures CoversChain(h, w.snapshot[c].value, Commit(w.rows, row), c, w.marks[c].cover)
    {
      CommitCovers(h, w.snapshot[c].value, w.rows, c, w.marks[c].cover, row);
    }
  }

  lemma DisableKeepsInv(h: Hash, blank: Filters, w: World, id: nat)
    requires Inv(h, blank, w)
    ensures Inv(h, blank, Next(h, blank, w, DisableRow(id)))
  {
    DisableKeepsIds(w.rows, id);
    DisableSorted(w.rows, id);
    forall c | c in blank && w.up
      ensures CoversChain(h, w.x.filters[c], Disable(w.rows, id), c, w.cover[c])
    {
      DisableCovers(h, w.x.filters[c], w.rows, c, w.cover[c], id);
    }
    forall c | c in blank && Stored(w, c)
      ensures CoversChain(h, w.snapshot[c].value, Disable(w.rows, id), c, w.marks[c].cover)
    {
      DisableCovers(h, w.snapshot[c].value, w.rows, c, w.marks[c].cover, id);
    }
  }

  lemma SyncKeepsInv(h: Hash, blank: Filters, w: World)
    requires Inv(h, blank, w) && w.up
    ensures Inv(h, blank, Next(h, blank, w, Sync))
  {
    SyncWatermark(h, w.x, w.rows);
    forall c | c in blank
      ensures CoversChain(h, SyncOf(h, w.x, w.rows).filters[c], w.rows, c, MaxId(w.rows))
    {
      assert CoversChain(h, w.x.filters[c], w.rows, c, w.x.watermark);
      SyncCoversChain(h, w.x, w.rows, c);
    }
  }

  lemma AddKeepsInv(h: Hash, blank: Filters, w: World, chain: string, items: set<string>)
    requires Inv(h, blank, w) && w.up
    ensures Inv(h, blank, Next(h, blank, w, AddEvent(chain, items)))
  {
    forall c | c in blank
      ensures CoversChain(h, AddTo(h, w.x.filters, chain, items)[c], w.rows, c, w.cover[c])
    {
      AddToCovers(h, w.x.filters, w.rows, chain, items, c, w.cover[c]);
    }
  }

  /** A restore of every chain followed by its sync covers the whole current table, as a full load does. */
  lemma BootKeepsInv(h: Hash, blank: Filters, w: World, getUp: set<string>, watermarkUp: bool, dbUp: bool)
    requires Inv(h, blank, w) && Allowed(blank, w, Boot(getUp, watermarkUp, dbUp))
    ensures Inv(h, blank, BootOf(h, blank, w, getUp, watermarkUp, dbUp))
    ensures var w' := BootOf(h, blank, w, getUp, watermarkUp, dbUp);
            ReadableOf(blank.Keys, w.snapshot, getUp) == {} || (watermarkUp && w.storedWatermark.Some? && dbUp)
            ==> Covers(h, w'.x.filters, w'.rows, MaxId(w'.rows))
  {
    var readable := ReadableOf(blank.Keys, w.snapshot, getUp);
    if readable == {} {
      LoadCovers(h, blank, w.rows);
    } else {
      var fs := Restore(blank, w.snapshot, getUp);
      forall c | c in blank ensures Stored(w, c) && fs[c] == w.snapshot[c].value {
        assert c in readable;
      }
      if watermarkUp && w.storedWatermark.Some? && dbUp {
        RestoredSync(h, blank, w, Index(fs, w.storedWatermark.value));
      }
    }
  }

  /** A sync after a full restore covers the table. */
  lemma RestoredSync(h: Hash, blank: Filters, w: World, x: Index)
    requires InvStored(h, blank, w) && Sorted(w.rows) && w.storedWatermark == Some(x.watermark)
    requires x.filters.Keys == blank.Keys
    requires forall c :: c in blank ==> Stored(w, c) && x.filters[c] == w.snapshot[c].value
    ensures SyncOf(h, x, w.rows).watermark <= MaxId(w.rows)
    ensures forall c :: c in blank ==> CoversChain(h, SyncOf(h, x, w.rows).filters[c], w.rows, c, MaxId(w.rows))
  {
    SyncWatermark(h, x, w.rows);
    forall c | c in blank ensures CoversChain(h, SyncOf(h, x, w.rows).filters[c], w.rows, c, MaxId(w.rows)) {
      assert CoversChain(h, x.filters[c], w.rows, c, x.watermark);
      SyncCoversChain(h, x, w.rows, c);
    }
  }

  lemma EncodeKeepsInv(h: Hash, blank: Filters, w: World, c: string)
    requires Inv(h, blank, w) && w.up && c in blank
    ensures Inv(h, blank, Next(h, blank, w, EncodeChain(c)))
  {
    var w' := Next(h, blank, w, EncodeChain(c));
    assert InvUp(h, blank, w');
    assert CoversChain(h, w.x.filters[c], w.rows, c, w.cover[c]);
    assert InvStored(h, blank, w');
  }

  lemma WatermarkKeepsInv(h: Hash, blank: Filters, w: World)
    requires Inv(h, blank, w) && Allowed(blank, w, WriteWatermark)
    ensures Inv(h, blank, Next(h, blank, w, WriteWatermark))
  {
    var w' := Next(h, blank, w, WriteWatermark);
    assert InvUp(h, blank, w');
    assert InvStored(h, blank, w');
  }

  /** Forgetting stored snapshots, or the watermark, keeps the rest. */
  lemma LossKeepsInv(h: Hash, blank: Filters, w: World, w': World)
    requires Inv(h, blank, w) && w' == w.(snapshot := w'.snapshot, storedWatermark := w'.storedWatermark, up := w'.up)
    requires w'.up ==> w.up
    requires w'.storedWatermark == w.storedWatermark || w'.storedWatermark == None
    requires forall c :: c in w'.snapshot && w'.snapshot[c].Encoded? ==>
             c in w.snapshot && w.snapshot[c] == w'.snapshot[c]
    ensures Inv(h, blank, w')
  {
    assert w'.up ==> InvUp(h, blank, w');
    assert InvStored(h, blank, w');
  }

  lemma StepKeepsInv(h: Hash, blank: Filters, w: World, s: Step)
    requires Inv(h, blank, w) && Allowed(blank, w, s)
    ensures Inv(h, blank, Next(h, blank, w, s))
  {
    match s
    case CommitRow(row) => CommitKeepsInv(h, blank, w, row);
    case DisableRow(id) => DisableKeepsInv(h, blank, w, id);
    case AddEvent(chain, items) => AddKeepsInv(h, blank, w, chain, items);
    case Sync => SyncKeepsInv(h, blank, w);
    case EncodeChain(c) => EncodeKeepsInv(h, blank, w, c);
    case WriteWatermark => WatermarkKeepsInv(h, blank, w);
    case Boot(getUp, watermarkUp, dbUp) => BootKeepsInv(h, blank, w, getUp, watermarkUp, dbUp);
    case DamageSnapshot(_) => LossKeepsInv(h, blank, w, Next(h, blank, w, s));
    case LoseSnapshot(_) => LossKeepsInv(h, blank, w, Next(h, blank, w, s));
    case LoseWatermark => LossKeepsInv(h, blank, w, Next(h, blank, w, s));
    case Crash => LossKeepsInv(h, blank, w, Next(h, blank, w, s));
  }

  /** No false negatives over all runs, crashes and restarts included. */
  lemma {:induction false} RunKeepsInv(h: Hash, blank: Filters, w: World, run: seq<Step>)
    requires Inv(h, blank, w) && AllowedRun(h, blank, w, run)
    ensures Inv(h, blank, After(h, blank, w, run))
    decreases |run|
  {
    if run == [] {
    } else {
      StepKeepsInv(h, blank, w, run[0]);
      RunKeepsInv(h, blank, Next(h, blank, w, run[0]), run[1..]);
    }
  }

  /** Before anything ran: rows may exist, nothing is stored, no worker is up. */
  ghost predicate Initial(w: World) {
    Sorted(w.rows) && !w.up && w.snapshot == map[] && w.storedWatermark == None
  }

  /** In every reachable state with a running worker, the funnel answers the plain query for each address that some
      enabled row at or below the watermark has. */
  lemma ReachableFunnel(h: Hash, blank: Filters, w0: World, run: seq<Step>, w: World, row: Row)
    requires Initial(w0) && AllowedRun(h, blank, w0, run) && w == After(h, blank, w0, run) && w.up
    requires row in w.rows && row.enabled && row.chain in blank && row.id <= w.x.watermark
    ensures Lookup(h, w.x.filters, Binary, w.rows, row.chain, row.address)
         == ListByChainAddress(Binary, w.rows, row.chain, row.address)
  {
    RunKeepsInv(h, blank, w0, run);
    assert Covers(h, w.x.filters, w.rows, w.x.watermark) by {
      forall c | c in w.x.filters ensures CoversChain(h, w.x.filters[c], w.rows, c, w.x.watermark) { }
    }
    assert row in ListByChainAddress(Binary, w.rows, row.chain, row.address);
    FunnelRefinesQuery(h, w.x.filters, Binary, w.rows, w.x.watermark, row.chain, row.address);
  }

  /** After a completed sync in a reachable state the funnel answers the plain query for every address whatever. */
  lemma SyncedFunnel(h: Hash, blank: Filters, w0: World, run: seq<Step>, w: World, chain: string, address: string)
    requires Initial(w0) && AllowedRun(h, blank, w0, run) && w == After(h, blank, w0, run) && w.up
    requires chain in blank
    ensures Lookup(h, SyncOf(h, w.x, w.rows).filters, Binary, w.rows, chain, address)
         == ListByChainAddress(Binary, w.rows, chain, address)
  {
    RunKeepsInv(h, blank, w0, run);
    SyncKeepsInv(h, blank, w);
    var fs := SyncOf(h, w.x, w.rows).filters;
    assert Covers(h, fs, w.rows, MaxId(w.rows)) by {
      var w' := Next(h, blank, w, Sync);
      assert InvUp(h, blank, w');
      forall c | c in fs ensures CoversChain(h, fs[c], w.rows, c, MaxId(w.rows)) {
        assert w'.cover[c] == MaxId(w.rows);
      }
    }
    FunnelIsTheQuery(h, fs, w.rows, chain, address);
  }

  /** No running filter ever loses a bit. */
  lemma HitStays(h: Hash, blank: Filters, w: World, s: Step, chain: string, address: string)
    requires chain in w.x.filters && Hit(h, w.x.filters[chain], address) && !s.Boot?
    ensures chain in Next(h, blank, w, s).x.filters && Hit(h, Next(h, blank, w, s).x.filters[chain], address)
  {
    if s.AddEvent? {
      NoFalseNegatives(h, w.x.filters[chain], s.items, address);
    } else if s.Sync? {
      var news := ListAfterID(w.rows, w.x.watermark);
      NoFalseNegatives(h, w.x.filters[chain], AddressesOn(news, chain), address);
    }
  }

  lemma {:induction false} HitStaysAlong(h: Hash, blank: Filters, w: World, run: seq<Step>, chain: string,
                                         address: string)
    requires chain in w.x.filters && Hit(h, w.x.filters[chain], address)
    requires forall i :: 0 <= i < |run| ==> !run[i].Boot?
    ensures var fs := After(h, blank, w, run).x.filters; chain in fs && Hit(h, fs[chain], address)
    decreases |run|
  {
    if run == [] {
    } else {
      HitStays(h, blank, w, run[0], chain, address);
      HitStaysAlong(h, blank, Next(h, blank, w, run[0]), run[1..], chain, address);
    }
  }

  /** An address that came by event is found like the plain query finds it, at once and for as long as the worker is not
      restarted, even while its row is above the watermark. */
  lemma AddedIsFound(h: Hash, blank: Filters, w: World, chain: string, items: set<string>, run: seq<Step>, w': World,
                     col: Collation, address: string)
    requires chain in w.x.filters && address in items && forall i :: 0 <= i < |run| ==> !run[i].Boot?
    requires w' == After(h, blank, Next(h, blank, w, AddEvent(chain, items)), run)
    ensures Lookup(h, w'.x.filters, col, w'.rows, chain, address) == ListByChainAddress(col, w'.rows, chain, address)
  {
    NoFalseNegatives(h, w.x.filters[chain], items, address);
    HitStaysAlong(h, blank, Next(h, blank, w, AddEvent(chain, items)), run, chain, address);
  }

  /** The pass over the incremental lists is a series of additions by event: it keeps the invariant, and whatever stands
      in a list is found from then on as the plain query finds it. */
  lemma RepairedIsFound(h: Hash, blank: Filters, w: World, repairs: seq<Step>, m: World, run: seq<Step>, w': World,
                        col: Collation, chain: string, address: string)
    requires Inv(h, blank, w) && AllowedRun(h, blank, w, repairs) && m == After(h, blank, w, repairs)
    requires chain in m.x.filters && Hit(h, m.x.filters[chain], address)
    requires (forall i :: 0 <= i < |run| ==> !run[i].Boot?) && w' == After(h, blank, m, run)
    ensures Inv(h, blank, m)
    ensures Lookup(h, w'.x.filters, col, w'.rows, chain, address) == ListByChainAddress(col, w'.rows, chain, address)
  {
    RunKeepsInv(h, blank, w, repairs);
    HitStaysAlong(h, blank, m, run, chain, address);
  }

  // --- Where the conditions are needed -----------------------------------------------------------------------

  /** A row at or below the stored watermark whose chain was not restored. */
  ghost predicate Unread(blank: Filters, w: World, readable: set<string>, c: string, r: Row)
    requires w.storedWatermark.Some?
  {
    && c in blank && c !in readable
    && r in w.rows && r.enabled && r.chain == c && r.id <= w.storedWatermark.value
  }

  /** Restoring any non-empty choice of chains and syncing covers the whole table exactly when every configured chain
      with an enabled row at or below the stored watermark was among those that decoded, save for rows whose probe
      positions the newer addresses of the chain happen to set. */
  lemma RestoreExact(h: Hash, blank: Filters, w: World, getUp: set<string>)
    requires Sorted(w.rows) && InvStored(h, blank, w) && w.storedWatermark.Some?
    requires forall c :: c in blank ==> IsEmpty(blank[c])
    requires ReadableOf(blank.Keys, w.snapshot, getUp) != {}
    ensures var w' := BootOf(h, blank, w, getUp, true, true);
            Covers(h, w'.x.filters, w'.rows, MaxId(w'.rows))
            <==> forall c, r :: Unread(blank, w, ReadableOf(blank.Keys, w.snapshot, getUp), c, r) ==>
                                  LuckyHit(h, blank[c], w, r)
  {
    var readable := ReadableOf(blank.Keys, w.snapshot, getUp);
    var x := Index(Restore(blank, w.snapshot, getUp), w.storedWatermark.value);
    var w' := BootOf(h, blank, w, getUp, true, true);
    forall c | c in readable ensures CoversChain(h, w'.x.filters[c], w.rows, c, MaxId(w.rows)) {
      assert CoversChain(h, x.filters[c], w.rows, c, x.watermark);
      SyncCoversChain(h, x, w.rows, c);
    }
    forall c | c in blank && c !in readable
      ensures w'.x.filters[c] == Absorb(h, blank[c], AddressesOn(ListAfterID(w.rows, x.watermark), c))
    {
      SyncAbsorbs(h, x, w.rows, c);
    }
    UnreadDecide(h, blank, w, readable, w'.x.filters);
  }

  lemma SyncAbsorbs(h: Hash, x: Index, t: Table, c: string)
    requires c in x.filters
    ensures SyncOf(h, x, t).filters[c] == Absorb(h, x.filters[c], AddressesOn(ListAfterID(t, x.watermark), c))
  {
    if ListAfterID(t, x.watermark) == [] {
      assert AddressesOn([], c) == {};
      AbsorbNothing(h, x.filters[c]);
    }
  }

  lemma UnreadDecide(h: Hash, blank: Filters, w: World, readable: set<string>, fs: Filters)
    requires w.storedWatermark.Some? && readable <= blank.Keys == fs.Keys
    requires forall c :: c in readable ==> CoversChain(h, fs[c], w.rows, c, MaxId(w.rows))
    requires var news := ListAfterID(w.rows, w.storedWatermark.value);
             forall c :: c in blank && c !in readable ==> fs[c] == Absorb(h, blank[c], AddressesOn(news, c))
    ensures Covers(h, fs, w.rows, MaxId(w.rows))
       <==> forall c, r :: Unread(blank, w, readable, c, r) ==> LuckyHit(h, blank[c], w, r)
  {
    MaxIdIsMax(w.rows);
    if forall c, r :: Unread(blank, w, readable, c, r) ==> LuckyHit(h, blank[c], w, r) {
      forall c | c in blank && c !in readable ensures CoversChain(h, fs[c], w.rows, c, MaxId(w.rows)) {
        forall r | r in w.rows && r.enabled && r.chain == c ensures Hit(h, fs[c], r.address) {
          assert r.id <= w.storedWatermark.value ==> Unread(blank, w, readable, c, r);
          AboveIsHit(h, blank[c], w, r, fs[c]);
        }
      }
    }
    if Covers(h, fs, w.rows, MaxId(w.rows)) {
      forall c, r | Unread(blank, w, readable, c, r) ensures LuckyHit(h, blank[c], w, r) {
        assert CoversChain(h, fs[c], w.rows, c, MaxId(w.rows));
      }
    }
  }

  lemma AboveIsHit(h: Hash, blank: Bits, w: World, r: Row, f: Bits)
    requires w.storedWatermark.Some? && r in w.rows && r.enabled
    requires f == Absorb(h, blank, AddressesOn(ListAfterID(w.rows, w.storedWatermark.value), r.chain))
    requires r.id <= w.storedWatermark.value ==> LuckyHit(h, blank, w, r)
    ensures Hit(h, f, r.address)
  {
    var news := ListAfterID(w.rows, w.storedWatermark.value);
    if w.storedWatermark.value < r.id {
      assert r in news && r.address in AddressesOn(news, r.chain);
      NoFalseNegatives(h, blank, AddressesOn(news, r.chain), r.address);
    }
  }

  /** The addresses above the stored watermark alone make this row's address test positive. */
  ghost predicate LuckyHit(h: Hash, blank: Bits, w: World, r: Row)
    requires w.storedWatermark.Some?
  {
    Hit(h, Absorb(h, blank, AddressesOn(ListAfterID(w.rows, w.storedWatermark.value), r.chain)), r.address)
  }

  /** The filter of a chain as a restart rebuilds it: the stored bits and the addresses above the stored watermark. */
  ghost function Rebuilt(h: Hash, w: World, c: string): Bits
    requires Stored(w, c)
  {
    Absorb(h, w.snapshot[c].value, AddressesOn(ListAfterID(w.rows, w.x.watermark), c))
  }

  lemma BootAfterWrite(h: Hash, blank: Filters, w: World, w': World)
    requires blank.Keys != {} && forall c :: c in blank ==> Stored(w, c)
    requires w' == BootOf(h, blank, Next(h, blank, Next(h, blank, w, WriteWatermark), Crash), blank.Keys, true, true)
    ensures w'.rows == w.rows && w'.x.filters.Keys == blank.Keys
    ensures forall c :: c in blank ==> w'.x.filters[c] == Rebuilt(h, w, c)
  {
    var news := ListAfterID(w.rows, w.x.watermark);
    assert ReadableOf(blank.Keys, w.snapshot, blank.Keys) == blank.Keys;
    forall c | c in blank ensures w'.x.filters[c] == Rebuilt(h, w, c) {
      if news == [] {
        assert AddressesOn(news, c) == {};
        AbsorbNothing(h, w.snapshot[c].value);
      }
    }
  }

  /** A row that came between a chain's stored filter and the watermark. */
  ghost predicate InGap(blank: Filters, w: World, c: string, r: Row) {
    c in blank && Stored(w, c) && r in w.rows && r.enabled && r.chain == c && w.marks[c].cover < r.id <= w.x.watermark
  }

  /** Writing the watermark, crashing, restoring all chains and syncing covers the table exactly when every enabled row
      that came between a chain's stored filter and the watermark tests positive in what is rebuilt. An advance of the
      watermark since an encoding does harm only through rows of that chain. */
  lemma SnapshotExact(h: Hash, blank: Filters, w: World, w': World)
    requires Inv(h, blank, w) && w.up && blank.Keys != {} && forall c :: c in blank ==> Stored(w, c)
    requires w' == BootOf(h, blank, Next(h, blank, Next(h, blank, w, WriteWatermark), Crash), blank.Keys, true, true)
    ensures Covers(h, w'.x.filters, w'.rows, MaxId(w'.rows))
       <==> forall c, r :: InGap(blank, w, c, r) ==> Hit(h, Rebuilt(h, w, c), r.address)
  {
    BootAfterWrite(h, blank, w, w');
    forall c, r | c in blank && r in w.rows && r.enabled && r.chain == c && !InGap(blank, w, c, r)
      ensures Hit(h, w'.x.filters[c], r.address)
    {
      RebuiltHits(h, blank, w, c, r);
    }
    GapDecides(h, blank, w, w'.x.filters);
  }

  lemma GapDecides(h: Hash, blank: Filters, w: World, fs: Filters)
    requires fs.Keys == blank.Keys && forall c :: c in blank ==> Stored(w, c) && fs[c] == Rebuilt(h, w, c)
    requires forall c, r :: c in blank && r in w.rows && r.enabled && r.chain == c && !InGap(blank, w, c, r) ==>
                              Hit(h, fs[c], r.address)
    ensures Covers(h, fs, w.rows, MaxId(w.rows))
       <==> forall c, r :: InGap(blank, w, c, r) ==> Hit(h, Rebuilt(h, w, c), r.address)
  {
    MaxIdIsMax(w.rows);
    if Covers(h, fs, w.rows, MaxId(w.rows)) {
      forall c, r | InGap(blank, w, c, r) ensures Hit(h, Rebuilt(h, w, c), r.address) {
        assert CoversChain(h, fs[c], w.rows, c, MaxId(w.rows));
      }
    }
  }

  /** Rows the stored filter covers, and rows above the watermark, are found again in any case. */
  lemma RebuiltHits(h: Hash, blank: Filters, w: World, c: string, r: Row)
    requires Inv(h, blank, w) && c in blank && Stored(w, c) && r in w.rows && r.enabled && r.chain == c
    ensures r.id <= w.marks[c].cover || w.x.watermark < r.id ==> Hit(h, Rebuilt(h, w, c), r.address)
  {
    var news := ListAfterID(w.rows, w.x.watermark);
    if r.id <= w.marks[c].cover {
      assert CoversChain(h, w.snapshot[c].value, w.rows, c, w.marks[c].cover);
      assert Hit(h, w.snapshot[c].value, r.address);
    } else if w.x.watermark < r.id {
      assert r in news && r.address in AddressesOn(news, c);
    }
    if r.id <= w.marks[c].cover || w.x.watermark < r.id {
      NoFalseNegatives(h, w.snapshot[c].value, AddressesOn(news, c), r.address);
    }
  }

  /** A worker for one chain, just started on an empty table. */
  function JustStarted(blank: Filters, c: string): World {
    World([], true, Index(blank, 0), map[c := 0], map[], map[], None)
  }

  lemma JustStartedIsSound(h: Hash, blank: Filters, c: string)
    requires blank.Keys == {c}
    ensures Inv(h, blank, JustStarted(blank, c))
  {
    assert InvUp(h, blank, JustStarted(blank, c));
  }

  /** A watermark that advances between the encoding of a filter and the watermark write loses rows: a row committed
      and synced in between is in neither the stored filter nor, after a restart, in the rows the worker asks for. The
      watermark write is the one step of this run that the conditions exclude. */
  lemma SnapshotRace(h: Hash, blank: Filters, c: string, row: Row)
    requires blank.Keys == {c} && IsEmpty(blank[c])
    requires row.enabled && row.chain == c && 0 < row.id
    ensures var w1 := Next(h, blank, JustStarted(blank, c), EncodeChain(c));
            var w2 := Next(h, blank, w1, CommitRow(row));
            var w3 := Next(h, blank, w2, Sync);
            var w4 := Next(h, blank, w3, WriteWatermark);
            var w5 := Next(h, blank, w4, Crash);
            var w6 := BootOf(h, blank, w5, {c}, true, true);
            && Inv(h, blank, JustStarted(blank, c)) && !Allowed(blank, w3, WriteWatermark)
            && w6.up && row in w6.rows && w6.x == Index(blank, row.id) && !Hit(h, blank[c], row.address)
  {
    JustStartedIsSound(h, blank, c);
    EmptyMisses(h, blank[c], row.address);
    var w1 := Next(h, blank, JustStarted(blank, c), EncodeChain(c));
    var w2 := Next(h, blank, w1, CommitRow(row));
    assert w2.rows == [row] && w2.snapshot == map[c := Encoded(blank[c])];
    SyncOfOne(h, Index(blank, 0), row);
    var w3 := Next(h, blank, w2, Sync);
    assert w3.x.watermark == row.id && w3.marks[c].at == 0;
    BootAfterRace(h, blank, c, row, Next(h, blank, Next(h, blank, w3, WriteWatermark), Crash), {c});
  }

  lemma SyncOfOne(h: Hash, x: Index, row: Row)
    requires row.enabled && x.watermark < row.id
    ensures SyncOf(h, x, [row]).watermark == row.id
  {
    assert [row][1..] == [] && MaxId([row]) == row.id;
    assert ListAfterID([row], x.watermark) == [row];
  }

  lemma BootAfterRace(h: Hash, blank: Filters, c: string, row: Row, w: World, getUp: set<string>)
    requires blank.Keys == {c} && w.snapshot == map[c := Encoded(blank[c])] && c in getUp
    requires w.rows == [row] && w.storedWatermark == Some(row.id)
    ensures var w' := BootOf(h, blank, w, getUp, true, true);
            w'.up && w'.rows == [row] && w'.x == Index(blank, row.id)
  {
    assert c in ReadableOf(blank.Keys, w.snapshot, getUp);
    assert Restore(blank, w.snapshot, getUp) == blank;
    assert ListAfterID([row], row.id) == [];
  }
}
