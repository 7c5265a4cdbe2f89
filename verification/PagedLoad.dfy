/** The full load reads the enabled rows page by page, each page by a query of its own. Rows are ordered by their second
    of creation only, so two queries may order rows of one second differently. */
module PagedLoad {
  import opened Prelude
  import opened WatchedAddress
  import opened WatchIndex
  import opened Bloom

  /** The order in which the query for each page has the rows. */
  type Orders = nat -> seq<Row>

  /** What the query for each page returns. */
  type Pages = nat -> seq<Row>

  /** The second in which the row of an id was created. */
  type Clock = nat -> int

  /** ORDER BY created_at DESC. */
  ghost predicate NewestFirst(clock: Clock, s: seq<Row>) {
    forall i, j :: 0 <= i < j < |s| ==> clock(s[i].id) >= clock(s[j].id)
  }

  ghost predicate OrderOf(clock: Clock, t: Table, s: seq<Row>) {
    multiset(s) == multiset(Enabled(t)) && NewestFirst(clock, s)
  }

  ghost predicate Consistent(clock: Clock, t: Table, orders: Orders) {
    forall p :: OrderOf(clock, t, orders(p))
  }

  const PAGE_SIZE: nat := 10000

  /** The position at which a page begins. */
  function Start(page: nat): int {
    (page - 1) * 10000
  }

  /** One page of `ordered`. */
  function Page(ordered: seq<Row>, page: nat): seq<Row>
    requires 0 < page
  {
    if |ordered| <= Start(page) then []
    else if |ordered| <= Start(page + 1) then ordered[Start(page)..]
    else ordered[Start(page)..Start(page + 1)]
  }

  /** The rows of the first n pages. */
  function Joined(pages: Pages, n: nat): seq<Row> {
    if n == 0 then [] else Joined(pages, n - 1) + pages(n)
  }

  /** Pages are full, up to the last one, which holds what is left of the count. */
  ghost predicate PageSizes(pages: Pages, count: nat) {
    forall p :: 0 < p ==>
      |pages(p)| == if count <= Start(p) then 0 else if count <= Start(p + 1) then count - Start(p) else PAGE_SIZE
  }

  /** The pages that queries with these orders return. */
  function PagesOf(orders: Orders): Pages {
    (p: nat) => if p == 0 then [] else Page(orders(p), p)
  }

  function Visited(orders: Orders, n: nat): seq<Row> {
    Joined(PagesOf(orders), n)
  }

  /** Reading stops with the page that reaches the row count. */
  predicate LastPage(count: nat, n: nat) {
    0 < n && count <= Start(n + 1) && (n == 1 || Start(n) < count)
  }

  ghost predicate Complete(t: Table, visited: seq<Row>) {
    forall r :: r in visited <==> r in Enabled(t)
  }

  // --- What a load yields ---------------------------------------------------------------------------------------

  /** The index after a load that visited these rows. */
  ghost function Loaded(h: Hash, fs: Filters, visited: seq<Row>): Index {
    Index(AddRows(h, fs, visited), MaxId(OnKnownChain(visited, fs.Keys)))
  }

  /** Once every row is visited, in whatever order and however often, filters and watermark are those of the table. */
  lemma CompleteIsLoad(h: Hash, fs: Filters, t: Table, visited: seq<Row>)
    ensures Complete(t, visited) ==> Loaded(h, fs, visited) == LoadOf(h, fs, t)
  {
    if Complete(t, visited) {
      LoadInAnyOrder(h, fs, t, visited);
    }
  }

  /** A row that was passed over and that no sync will ask for. */
  ghost predicate Hidden(fs: Filters, t: Table, visited: seq<Row>, r: Row) {
    r in t && r.enabled && r.chain in fs && r !in visited && r.id <= MaxId(OnKnownChain(visited, fs.Keys))
  }

  /** The next sync completes the load exactly when every hidden row tests positive anyway. */
  lemma LoadedExact(h: Hash, fs: Filters, t: Table, visited: seq<Row>, x: Index)
    requires x == SyncOf(h, Loaded(h, fs, visited), t)
    ensures x.filters.Keys == fs.Keys
    ensures Covers(h, x.filters, t, MaxId(t))
       <==> forall r :: Hidden(fs, t, visited, r) ==> Hit(h, x.filters[r.chain], r.address)
  {
    forall r | r in t && r.enabled && r.chain in fs && !Hidden(fs, t, visited, r)
      ensures Hit(h, x.filters[r.chain], r.address)
    {
      SeenHits(h, fs, t, visited, x, r);
    }
    HiddenDecide(h, fs, t, visited, x.filters);
  }

  lemma HiddenDecide(h: Hash, fs: Filters, t: Table, visited: seq<Row>, fs': Filters)
    requires fs'.Keys == fs.Keys
    requires forall r :: r in t && r.enabled && r.chain in fs && !Hidden(fs, t, visited, r) ==>
                           Hit(h, fs'[r.chain], r.address)
    ensures Covers(h, fs', t, MaxId(t)) <==> forall r :: Hidden(fs, t, visited, r) ==> Hit(h, fs'[r.chain], r.address)
  {
    MaxIdIsMax(t);
    if Covers(h, fs', t, MaxId(t)) {
      forall r | Hidden(fs, t, visited, r) ensures Hit(h, fs'[r.chain], r.address) {
        assert CoversChain(h, fs'[r.chain], t, r.chain, MaxId(t));
      }
    }
  }

  lemma SeenHits(h: Hash, fs: Filters, t: Table, visited: seq<Row>, x: Index, r: Row)
    requires x == SyncOf(h, Loaded(h, fs, visited), t) && r in t && r.enabled && r.chain in fs
    requires !Hidden(fs, t, visited, r)
    ensures Hit(h, x.filters[r.chain], r.address)
  {
    var c, first := r.chain, Loaded(h, fs, visited);
    var news := ListAfterID(t, first.watermark);
    if r in visited {
      assert r.address in AddressesOn(visited, c);
      NoFalseNegatives(h, fs[c], AddressesOn(visited, c), r.address);
      NoFalseNegatives(h, first.filters[c], AddressesOn(news, c), r.address);
    } else {
      assert r in news && r.address in AddressesOn(news, c);
      NoFalseNegatives(h, first.filters[c], AddressesOn(news, c), r.address);
    }
  }

  // --- When every row is visited --------------------------------------------------------------------------------

  /** A page begins where those before it end. */
  lemma PageExtends(s: seq<Row>, page: nat)
    requires 0 < page && Start(page) <= |s|
    ensures s[..Start(page)] + Page(s, page) == if |s| <= Start(page + 1) then s else s[..Start(page + 1)]
  {
  }

  /** With one and the same order the pages make it up. */
  lemma {:induction false} SameOrderJoins(pages: Pages, s: seq<Row>, n: nat)
    requires (forall p :: 1 <= p <= n ==> pages(p) == Page(s, p)) && (n == 0 || Start(n) <= |s|)
    ensures Joined(pages, n) == if |s| <= Start(n + 1) then s else s[..Start(n + 1)]
  {
    if n == 0 {
    } else {
      SameOrderJoins(pages, s, n - 1);
      PageExtends(s, n);
    }
  }

  lemma PagesFit(orders: Orders, count: nat)
    requires forall p :: |orders(p)| == count
    ensures PageSizes(PagesOf(orders), count)
  {
  }

  /** A row is on the page its position says, and on no other. */
  lemma OnPageIff(ordered: seq<Row>, page: nat, r: Row)
    requires 0 < page
    ensures r in Page(ordered, page)
       <==> exists i :: Start(page) <= i < Start(page + 1) && i < |ordered| && ordered[i] == r
  {
    var from, was := Start(page), Page(ordered, page);
    if i :| from <= i < Start(page + 1) && i < |ordered| && ordered[i] == r {
      assert was[i - from] == r;
    }
    if r in was {
      var k :| 0 <= k < |was| && was[k] == r;
      assert ordered[from + k] == r;
    }
  }

  lemma {:induction false} JoinedIff(pages: Pages, n: nat, r: Row)
    ensures r in Joined(pages, n) <==> exists p :: 1 <= p <= n && r in pages(p)
  {
    if n == 0 {
    } else {
      JoinedIff(pages, n - 1, r);
    }
  }

  function Keys(clock: Clock, s: seq<Row>): (keys: seq<int>)
    ensures |keys| == |s| && forall i :: 0 <= i < |s| ==> keys[i] == clock(s[i].id)
  {
    seq(|s|, i requires 0 <= i < |s| => clock(s[i].id))
  }

  function Without<T>(s: seq<T>, k: nat): seq<T>
    requires k < |s|
  {
    s[..k] + s[k + 1..]
  }

  lemma WithoutOne<T>(s: seq<T>, k: nat)
    requires k < |s|
    ensures multiset(Without(s, k)) == multiset(s) - multiset{s[k]} && s[k] in multiset(s)
  {
    assert s == s[..k] + [s[k]] + s[k + 1..];
  }

  lemma KeysWithoutOne(clock: Clock, s: seq<Row>, k: nat)
    requires k < |s|
    ensures multiset(Keys(clock, s)) == multiset(Keys(clock, Without(s, k))) + multiset{clock(s[k].id)}
  {
    var keys := Keys(clock, s);
    assert Keys(clock, Without(s, k)) == Without(keys, k);
    WithoutOne(keys, k);
  }

  lemma {:induction false} SameRowsSameKeys(clock: Clock, a: seq<Row>, b: seq<Row>)
    requires multiset(a) == multiset(b)
    ensures multiset(Keys(clock, a)) == multiset(Keys(clock, b))
    decreases |a|
  {
    if a == [] {
      assert |multiset(b)| == |b|;
    } else {
      assert a[0] in multiset(b);
      var k :| 0 <= k < |b| && b[k] == a[0];
      SameKeysMore(clock, a, b, k);
    }
  }

  lemma SameKeysMore(clock: Clock, a: seq<Row>, b: seq<Row>, k: nat)
    requires multiset(a) == multiset(b) && k < |b| && a != [] && a[0] == b[k]
    ensures multiset(Keys(clock, a)) == multiset(Keys(clock, b))
    decreases |a|, 0
  {
    WithoutOne(a, 0);
    WithoutOne(b, k);
    SameRowsSameKeys(clock, Without(a, 0), Without(b, k));
    KeysWithoutOne(clock, a, 0);
    KeysWithoutOne(clock, b, k);
  }

  ghost predicate Falling(keys: seq<int>) {
    forall i, j :: 0 <= i < j < |keys| ==> keys[i] >= keys[j]
  }

  lemma FallingHead(a: seq<int>, b: seq<int>)
    requires multiset(a) == multiset(b) && Falling(a) && Falling(b) && a != [] && b != []
    ensures a[0] == b[0]
  {
    assert a[0] in multiset(b) && b[0] in multiset(a);
    assert a[0] in b && b[0] in a;
  }

  lemma {:induction false} FallingUnique(a: seq<int>, b: seq<int>)
    requires multiset(a) == multiset(b) && Falling(a) && Falling(b)
    ensures a == b
    decreases |a|
  {
    assert |multiset(a)| == |a| && |multiset(b)| == |b|;
    if a == [] {
    } else {
      FallingHead(a, b);
      FallingTails(a[0], a[1..], b[1..], a, b);
    }
  }

  lemma FallingTails(x: int, a': seq<int>, b': seq<int>, a: seq<int>, b: seq<int>)
    requires a == [x] + a' && b == [x] + b' && multiset(a) == multiset(b) && Falling(a) && Falling(b)
    ensures a == b
    decreases |a|, 0
  {
    assert multiset(a') == multiset(a) - multiset{x} && multiset(b') == multiset(b) - multiset{x};
    assert Falling(a') && Falling(b') by {
      assert a' == a[1..] && b' == b[1..];
    }
    FallingUnique(a', b');
  }

  /** However ties are broken, the seconds along the rows are the same. */
  lemma KeysAgree(clock: Clock, t: Table, a: seq<Row>, b: seq<Row>)
    requires OrderOf(clock, t, a) && OrderOf(clock, t, b)
    ensures Keys(clock, a) == Keys(clock, b) && Falling(Keys(clock, a))
  {
    SameRowsSameKeys(clock, a, b);
    FallingUnique(Keys(clock, a), Keys(clock, b));
  }

  /** No page begins between two rows of one second. */
  ghost predicate NoTieAcross(keys: seq<int>) {
    forall p: nat :: 0 < Start(p) < |keys| ==> keys[Start(p) - 1] != keys[Start(p)]
  }

  lemma SameSecondSamePage(keys: seq<int>, i: nat, j: nat, p: nat)
    requires Falling(keys) && NoTieAcross(keys) && i < |keys| && j < |keys| && keys[i] == keys[j]
    requires 0 < p && Start(p) <= i < Start(p + 1)
    ensures Start(p) <= j < Start(p + 1)
  {
    var low, high := Start(p), Start(p + 1);
    assert 0 < low < |keys| ==> keys[low - 1] != keys[low];
    assert 0 < high < |keys| ==> keys[high - 1] != keys[high];
  }

  lemma PageOf(i: nat, count: nat, n: nat) returns (p: nat)
    requires i < count && LastPage(count, n)
    ensures 1 <= p <= n && Start(p) <= i < Start(p + 1)
  {
    p := i / 10000 + 1;
  }

  lemma PositionOf(t: Table, s: seq<Row>, r: Row) returns (i: nat)
    requires multiset(s) == multiset(Enabled(t)) && r in Enabled(t)
    ensures i < |s| && s[i] == r
  {
    assert r in multiset(s);
    i :| 0 <= i < |s| && s[i] == r;
  }

  lemma EachIsVisited(clock: Clock, t: Table, s: seq<Row>, n: nat, orders: Orders, r: Row)
    requires OrderOf(clock, t, s) && LastPage(|s|, n) && NoTieAcross(Keys(clock, s))
    requires Consistent(clock, t, orders) && r in Enabled(t)
    ensures r in Visited(orders, n)
  {
    var i := PositionOf(t, s, r);
    var p := PageOf(i, |s|, n);
    assert OrderOf(clock, t, orders(p));
    var j := PositionOf(t, orders(p), r);
    KeysAgree(clock, t, s, orders(p));
    assert Keys(clock, s)[i] == clock(r.id) == Keys(clock, orders(p))[j];
    SameSecondSamePage(Keys(clock, s), i, j, p);
    OnPageIff(orders(p), p, r);
    PageIsVisited(PagesOf(orders), n, p, r);
  }

  lemma PageIsVisited(pages: Pages, n: nat, p: nat, r: Row)
    requires 1 <= p <= n && r in pages(p)
    ensures r in Joined(pages, n)
  {
    JoinedIff(pages, n, r);
  }

  lemma NothingElseIsVisited(t: Table, orders: Orders, n: nat, r: Row)
    requires (forall p :: multiset(orders(p)) == multiset(Enabled(t))) && r in Visited(orders, n)
    ensures r in Enabled(t)
  {
    JoinedIff(PagesOf(orders), n, r);
    var p :| 1 <= p <= n && r in Page(orders(p), p);
    OnPageIff(orders(p), p, r);
    assert r in multiset(orders(p));
  }

  // --- A tie across a page border -------------------------------------------------------------------------------

  function Swapped(s: seq<Row>, b: nat): seq<Row>
    requires 0 < b < |s|
  {
    s[b - 1 := s[b]][b := s[b - 1]]
  }

  /** One query has two rows of a second the other way round. */
  ghost function Disagreeing(s: seq<Row>, page: nat): Orders
    requires 0 < Start(page + 1) < |s|
  {
    p => if p == page then Swapped(s, Start(page + 1)) else s
  }

  lemma SwappedIsOrder(clock: Clock, t: Table, s: seq<Row>, b: nat)
    requires OrderOf(clock, t, s) && 0 < b < |s| && clock(s[b - 1].id) == clock(s[b].id)
    ensures OrderOf(clock, t, Swapped(s, b))
  {
    assert s == s[..b - 1] + [s[b - 1], s[b]] + s[b + 1..];
    assert Swapped(s, b) == s[..b - 1] + [s[b], s[b - 1]] + s[b + 1..];
    assert multiset([s[b], s[b - 1]]) == multiset([s[b - 1], s[b]]);
  }

  /** The row before the border is passed over: the first page has its neighbour instead, the next one as well. */
  lemma PassedOver(s: seq<Row>, page: nat, n: nat)
    requires 0 < page && Start(page + 1) < |s| && NoDuplicates(s)
    ensures s[Start(page + 1) - 1] !in Visited(Disagreeing(s, page), n)
  {
    var b := Start(page + 1);
    var r, orders := s[b - 1], Disagreeing(s, page);
    forall p | 1 <= p <= n ensures r !in Page(orders(p), p) {
      OnPageIff(orders(p), p, r);
    }
    JoinedIff(PagesOf(orders), n, r);
  }

  lemma {:induction false} SortedIsDistinct(t: Table)
    requires Sorted(t)
    ensures NoDuplicates(Enabled(t))
  {
    if t == [] {
    } else {
      SortedIsDistinct(t[1..]);
      assert forall r :: r in Enabled(t[1..]) ==> r in t[1..];
    }
  }

  lemma PermutedIsDistinct(t: Table, s: seq<Row>)
    requires Sorted(t) && multiset(s) == multiset(Enabled(t))
    ensures NoDuplicates(s)
  {
    SortedIsDistinct(t);
    CountOne(Enabled(t));
    AtMostOnce(s);
  }

  ghost predicate AlwaysComplete(clock: Clock, t: Table, n: nat) {
    forall orders :: Consistent(clock, t, orders) ==> Complete(t, Visited(orders, n))
  }

  /** Every way of breaking ties visits every row exactly when no page begins between two rows of one second. */
  lemma CompleteIff(clock: Clock, t: Table, s: seq<Row>, n: nat)
    requires Sorted(t) && OrderOf(clock, t, s) && LastPage(|s|, n)
    ensures AlwaysComplete(clock, t, n) <==> NoTieAcross(Keys(clock, s))
  {
    var keys := Keys(clock, s);
    if NoTieAcross(keys) {
      forall orders | Consistent(clock, t, orders) ensures Complete(t, Visited(orders, n)) {
        EachAndNothingElse(clock, t, s, n, orders);
      }
    } else {
      var p: nat :| 0 < Start(p) < |keys| && keys[Start(p) - 1] == keys[Start(p)];
      TieCanHide(clock, t, s, n, p - 1);
    }
  }

  lemma EachAndNothingElse(clock: Clock, t: Table, s: seq<Row>, n: nat, orders: Orders)
    requires OrderOf(clock, t, s) && LastPage(|s|, n) && NoTieAcross(Keys(clock, s)) && Consistent(clock, t, orders)
    ensures Complete(t, Visited(orders, n))
  {
    forall p ensures multiset(orders(p)) == multiset(Enabled(t)) {
      assert OrderOf(clock, t, orders(p));
    }
    forall r ensures r in Visited(orders, n) <==> r in Enabled(t) {
      if r in Enabled(t) {
        EachIsVisited(clock, t, s, n, orders, r);
      }
      if r in Visited(orders, n) {
        NothingElseIsVisited(t, orders, n, r);
      }
    }
  }

  lemma TieCanHide(clock: Clock, t: Table, s: seq<Row>, n: nat, page: nat)
    requires Sorted(t) && OrderOf(clock, t, s) && 0 < page && Start(page + 1) < |s|
    requires clock(s[Start(page + 1) - 1].id) == clock(s[Start(page + 1)].id)
    ensures !AlwaysComplete(clock, t, n)
  {
    var b := Start(page + 1);
    var orders := Disagreeing(s, page);
    SwappedIsOrder(clock, t, s, b);
    assert Consistent(clock, t, orders);
    PermutedIsDistinct(t, s);
    PassedOver(s, page, n);
    assert s[b - 1] in multiset(s);
    assert !Complete(t, Visited(orders, n));
  }

  /** With one order for all pages, or with one page, nothing is passed over either. */
  lemma SameOrderIsComplete(t: Table, s: seq<Row>, orders: Orders, n: nat)
    requires multiset(s) == multiset(Enabled(t)) && LastPage(|s|, n)
    requires orders(1) == s && (|s| <= PAGE_SIZE || forall p :: 1 <= p <= n ==> orders(p) == s)
    ensures Complete(t, Visited(orders, n))
  {
    SameOrderJoins(PagesOf(orders), s, n);
    assert Visited(orders, n) == s;
    forall r ensures r in s <==> r in Enabled(t) {
      assert r in s <==> r in multiset(s);
    }
  }
}
