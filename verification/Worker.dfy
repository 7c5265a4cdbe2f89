/** What a worker does with the events of one raw event: the contract filter, the address matcher, and the publication
    of each hit to matched.events. */
module Worker {
  import opened Prelude
  import opened Base58
  import opened Events
  import opened WatchedAddress
  import opened WatchIndex
  import opened Matcher
  import Bloom
  import opened Broker
  import Delivery
  import ContractFilter

  /** What decides whether an event is a hit. */
  datatype View = View(sum: Checksum, contracts: seq<ContractFilter.Contract>, h: Bloom.Hash, filters: Filters,
                       col: Collation, table: Table)

  ghost predicate Hit(v: View, e: Event) {
    && ContractFilter.Accepts(v.sum, v.contracts, e.chain, ContractOf(e))
    && Lookup(v.h, v.filters, v.col, v.table, e.chain, e.watched) != []
  }

  /** The events that are published: the hits for which the database answers. */
  ghost function Hits(v: View, events: seq<Event>, dbUp: seq<bool>): (hits: seq<bool>)
    requires |dbUp| == |events|
    ensures |hits| == |events|
  {
    seq(|events|, i requires 0 <= i < |events| => Hit(v, events[i]) && dbUp[i])
  }

  /** The queue after the first n events; `attempts` is how publishing each of them would go. */
  function Queued(hits: seq<bool>, events: seq<Event>, attempts: seq<seq<Delivery.Attempt>>, n: nat,
                  pool: multiset<Event>): multiset<Event>
    requires n <= |events| == |attempts| == |hits|
  {
    if n == 0 then pool
    else
      var prior, e := Queued(hits, events, attempts, n - 1, pool), events[n - 1];
      if hits[n - 1] then prior[e := prior[e] + Delivery.Copies(attempts[n - 1])] else prior
  }

  method Judge(v: View, e: Event, m: Matcher, filter: ContractFilter.Filter, redisUp: bool, dbUp: bool, now: int)
    returns (hit: bool)
    requires m.Valid() && filter.Holds(v.contracts)
    requires v.h == m.h && v.filters == m.Filters() && v.col == m.addrStore.collation && v.table == m.addrStore.rows
    modifies m.rdb
    ensures hit == (Hit(v, e) && dbUp)
  {
    hit := filter.IsAllowed(v.sum, e.chain, ContractOf(e), v.contracts);
    if hit {
      var rows, ok := m.IsWatched(e.chain, e.watched, redisUp, dbUp, now);
      hit := ok && rows != [];
    }
  }

  /** One event: judged, and published if it is a hit. */
  method HandleEvent(v: View, e: Event, attempts: seq<Delivery.Attempt>, m: Matcher, filter: ContractFilter.Filter,
                     queue: EventQueue, redisUp: bool, dbUp: bool, now: int, ghost hit: bool)
    requires m.Valid() && filter.Holds(v.contracts) && hit == (Hit(v, e) && dbUp)
    requires v.h == m.h && v.filters == m.Filters() && v.col == m.addrStore.collation && v.table == m.addrStore.rows
    modifies m.rdb, queue
    ensures queue.pool == if hit then old(queue.pool)[e := old(queue.pool)[e] + Delivery.Copies(attempts)]
                          else old(queue.pool)
  {
    var judged := Judge(v, e, m, filter, redisUp, dbUp, now);
    if !judged {
      return;
    }
    var published := queue.Publish(e, attempts);
  }

  lemma HitAt(v: View, events: seq<Event>, dbUp: seq<bool>, i: nat)
    requires i < |events| == |dbUp|
    ensures Hits(v, events, dbUp)[i] == (Hit(v, events[i]) && dbUp[i])
  {
  }

  /** Publishes the hits among the events, in order. An event for which the database does not answer is passed over, and
      a publication that fails for good is given up. */
  method HandleRawEvent(v: View, events: seq<Event>, attempts: seq<seq<Delivery.Attempt>>, m: Matcher,
                        filter: ContractFilter.Filter, queue: EventQueue, redisUp: bool, dbUp: seq<bool>, now: int)
    requires |events| == |attempts| == |dbUp|
    requires m.Valid() && filter.Holds(v.contracts)
    requires v.h == m.h && v.filters == m.Filters() && v.col == m.addrStore.collation && v.table == m.addrStore.rows
    modifies m.rdb, queue
    ensures queue.pool == Queued(Hits(v, events, dbUp), events, attempts, |events|, old(queue.pool))
  {
    ghost var hits := Hits(v, events, dbUp);
    for i := 0 to |events|
      invariant queue.pool == Queued(hits, events, attempts, i, old(queue.pool))
      invariant filter.Holds(v.contracts) && v.filters == m.Filters() && v.table == m.addrStore.rows
    {
      HitAt(v, events, dbUp, i);
      HandleEvent(v, events[i], attempts[i], m, filter, queue, redisUp, dbUp[i], now, hits[i]);
    }
  }

  /** A hit is in the queue more often than before, up to three times for each of its occurrences; nothing else is. */
  lemma {:induction false} QueuedCounts(hits: seq<bool>, events: seq<Event>, attempts: seq<seq<Delivery.Attempt>>,
                                        n: nat,
                                        pool: multiset<Event>, e: Event)
    requires n <= |events| == |attempts| == |hits|
    requires forall i :: 0 <= i < n ==> Delivery.Accepted(attempts[i]) && |attempts[i]| <= 3
    ensures var k := Occurrences(hits, events, n, e);
            pool[e] + k <= Queued(hits, events, attempts, n, pool)[e] <= pool[e] + 3 * k
  {
    if n == 0 {
    } else {
      QueuedCounts(hits, events, attempts, n - 1, pool, e);
      Delivery.CopiesBound(attempts[n - 1]);
    }
  }

  /** One of the first n events is a hit, is e, and left a copy. */
  ghost predicate LeftCopy(hits: seq<bool>, events: seq<Event>, attempts: seq<seq<Delivery.Attempt>>, n: nat, e: Event)
    requires n <= |events| == |attempts| == |hits|
  {
    exists i :: 0 <= i < n && hits[i] && events[i] == e && Delivery.Copies(attempts[i]) > 0
  }

  /** A hit is queued exactly when one of its publications left a copy; otherwise nothing will publish it again. */
  lemma {:induction false} QueuedIff(hits: seq<bool>, events: seq<Event>, attempts: seq<seq<Delivery.Attempt>>, n: nat,
                                     pool: multiset<Event>, e: Event)
    requires n <= |events| == |attempts| == |hits|
    ensures pool[e] <= Queued(hits, events, attempts, n, pool)[e]
    ensures pool[e] < Queued(hits, events, attempts, n, pool)[e] <==> LeftCopy(hits, events, attempts, n, e)
  {
    if n == 0 {
    } else {
      QueuedIff(hits, events, attempts, n - 1, pool, e);
      assert LeftCopy(hits, events, attempts, n, e) <==>
               || LeftCopy(hits, events, attempts, n - 1, e)
               || (hits[n - 1] && events[n - 1] == e && Delivery.Copies(attempts[n - 1]) > 0);
    }
  }

  function Occurrences(hits: seq<bool>, events: seq<Event>, n: nat, e: Event): nat
    requires n <= |events| == |hits|
  {
    if n == 0 then 0 else Occurrences(hits, events, n - 1, e) + if hits[n - 1] && events[n - 1] == e then 1 else 0
  }

  /** Once the filters cover the table, an event on a known chain is a hit exactly when the plain query finds an enabled
      subscription for it; only under a case-insensitive collation it matters that one of those is spelled alike. */
  lemma HitIsQuery(v: View, e: Event)
    requires Covers(v.h, v.filters, v.table, MaxId(v.table)) && e.chain in v.filters
    requires var rows := ListByChainAddress(v.col, v.table, e.chain, e.watched);
             v.col == Binary || rows == [] || exists r :: r in rows && r.chain == e.chain && r.address == e.watched
    ensures Hit(v, e) <==>
              && ContractFilter.Accepts(v.sum, v.contracts, e.chain, ContractOf(e))
              && ListByChainAddress(v.col, v.table, e.chain, e.watched) != []
  {
    if v.col == Binary {
      FunnelIsTheQuery(v.h, v.filters, v.table, e.chain, e.watched);
    } else {
      MaxIdIsMax(v.table);
      FunnelRefinesQuery(v.h, v.filters, v.col, v.table, MaxId(v.table), e.chain, e.watched);
    }
  }
}
