/** Fan-out of a matched event: one log row and one task for every subscription that is to hear of it. */
module Expander {
  import opened Prelude
  import opened Base58
  import opened WatchedAddress
  import opened Topology
  import opened Delivery
  import opened Broker
  import opened Dispatcher
  import opened Events
  import AllowList

  lemma CountAfterCreate(rows: Rows, id: nat, row: Dispatcher.Row, eventId: string, addressId: nat)
    requires id !in rows
    ensures CountFor(rows[id := row], eventId, addressId)
         == CountFor(rows, eventId, addressId) + if row.eventId == eventId && row.addressId == addressId then 1 else 0
  {
    var before, after := RowsFor(rows, eventId, addressId), RowsFor(rows[id := row], eventId, addressId);
    assert after == if row.eventId == eventId && row.addressId == addressId then before + {id} else before;
  }

  // --- Who is to hear of an event -------------------------------------------------------------------------------

  /** Allow-lists as they are stored: under upper-case chains. */
  predicate UpperLists(app: AllowList.App) {
    app.allowed.Json? ==> forall k :: k in app.allowed.lists ==> ToUpper(k) == k
  }

  function AllowedOf(raw: AllowList.Raw): map<string, set<string>> {
    if raw.Json? then map k | k in raw.lists :: Elements(raw.lists[k]) else map[]
  }

  /** Parsing such a list has one result. */
  lemma ParsedIsAllowedOf(app: AllowList.App, allowed: map<string, set<string>>)
    requires UpperLists(app) && AllowList.Parsed(app.allowed, allowed)
    ensures allowed == AllowedOf(app.allowed)
  {
    if app.allowed.Json? {
      var lists := app.allowed.lists;
      assert AllowList.UpperKeys(lists) == lists.Keys by {
        forall k | k in lists ensures k in AllowList.UpperKeys(lists) {
          assert ToUpper(k) == k;
        }
      }
      forall k | k in lists ensures allowed[k] == Elements(lists[k]) {
        assert AllowList.ParsedFrom(lists, k, allowed[k]);
      }
    }
  }

  /** The application exists, has a callback, and accepts the contract. */
  predicate Accepts(sum: Checksum, apps: map<nat, AllowList.App>, e: Event, appId: nat) {
    appId in apps && apps[appId].callbackUrl != ""
    && AllowList.IsContractAllowed(sum, AllowedOf(apps[appId].allowed), e.chain, ContractOf(e))
  }

  /** What can go wrong on the way, by address id; an address without attempts gets three good ones. */
  datatype Faults = Faults(check: set<nat>, info: set<nat>, create: set<nat>, attempts: map<nat, seq<Attempt>>)

  const GOOD: seq<Attempt> := [Confirmed, Confirmed, Confirmed]

  function AttemptsFor(f: Faults, id: nat): (attempts: seq<Attempt>)
    ensures |attempts| == MAX_RETRIES
  {
    if id in f.attempts && |f.attempts[id]| == MAX_RETRIES then f.attempts[id] else GOOD
  }

  predicate Passes(sum: Checksum, apps: map<nat, AllowList.App>, e: Event, f: Faults, wa: WatchedAddress.Row) {
    wa.id !in f.check && wa.id !in f.info && wa.id !in f.create && Accepts(sum, apps, e, wa.appId)
  }

  /** One of the first n subscriptions lets the event through to an address. */
  predicate Reaches(sum: Checksum, apps: map<nat, AllowList.App>, e: Event, f: Faults, was: seq<WatchedAddress.Row>,
                    n: nat, addressId: nat)
    requires n <= |was|
  {
    exists i :: 0 <= i < n && was[i].id == addressId && Passes(sum, apps, e, f, was[i])
  }

  /** Rows gained for one event: none twice, one for each address of the set that had none. */
  ghost predicate Gains(rows: Rows, rows': Rows, eventId: string, addressId: nat, wanted: bool) {
    CountFor(rows', eventId, addressId)
    == CountFor(rows, eventId, addressId) + if wanted && CountFor(rows, eventId, addressId) == 0 then 1 else 0
  }

  ghost predicate GainsDue(sum: Checksum, apps: map<nat, AllowList.App>, e: Event, f: Faults,
                           was: seq<WatchedAddress.Row>, n: nat,
                           rows: Rows, rows': Rows, a: nat)
    requires n <= |was|
  {
    Gains(rows, rows', KeyOf(e), a, Reaches(sum, apps, e, f, was, n, a))
  }

  /** A new row for one of the first n subscriptions, naming the callback of its application. */
  predicate ForSubscriber(sum: Checksum, apps: map<nat, AllowList.App>, e: Event, f: Faults,
                          was: seq<WatchedAddress.Row>, n: nat, row: Dispatcher.Row)
    requires n <= |was|
  {
    && row.eventId == KeyOf(e) && row.log == Log(Pending, 0)
    && exists i :: 0 <= i < n && was[i].id == row.addressId && Passes(sum, apps, e, f, was[i])
                   && row.callbackUrl == apps[was[i].appId].callbackUrl
  }

  /** Every pair gains what it is due, no row goes, and every new one is for a subscriber. */
  ghost predicate Expanded(sum: Checksum, apps: map<nat, AllowList.App>, e: Event, f: Faults,
                           was: seq<WatchedAddress.Row>, n: nat,
                           rows: Rows, rows': Rows)
    requires n <= |was|
  {
    && (forall id :: id in rows ==> id in rows' && rows'[id] == rows[id])
    && (forall id :: id in rows' && id !in rows ==> ForSubscriber(sum, apps, e, f, was, n, rows'[id]))
    && (forall a :: GainsDue(sum, apps, e, f, was, n, rows, rows', a))
    && (forall eventId, a :: eventId != KeyOf(e) ==> Gains(rows, rows', eventId, a, false))
  }

  class Expander {
    const server: Server
    const publisher: Publisher
    const addrStore: AddressStore
    const store: WebhookLogStore
    const db: AllowList.Database
    const sum: Checksum
    var subCache: map<(string, string), seq<WatchedAddress.Row>>

    constructor (server: Server, publisher: Publisher, addrStore: AddressStore, store: WebhookLogStore,
                 db: AllowList.Database, sum: Checksum)
      requires publisher.server == server && server.layout == DECLARED
      ensures Valid() && subCache == map[]
      ensures this.server == server && this.addrStore == addrStore && this.store == store && this.db == db
      ensures this.sum == sum
    {
      this.server, this.publisher, this.addrStore, this.store := server, publisher, addrStore, store;
      this.db, this.sum, this.subCache := db, sum, map[];
    }

    ghost predicate Valid() {
      publisher.server == server && server.layout == DECLARED
    }

    /** The log table and the queues as the retry machine sees them. */
    ghost function Abstract(http: multiset<nat>): State
      reads server, store
    {
      State(server.pool, LogsOf(store.rows), http)
    }

    /** The subscriptions of an address, which is looked up in lower case whatever its chain. */
    method GetWatchedAddresses(chain: string, address: string, redisUp: bool,
                               dbUp: bool) returns (was: seq<WatchedAddress.Row>)
      modifies this
      ensures var key := (chain, ToLower(address));
              var rows := ListByChainAddress(addrStore.collation, addrStore.rows, chain, ToLower(address));
              && (redisUp && key in old(subCache) ==> was == old(subCache)[key] && subCache == old(subCache))
              && (!(redisUp && key in old(subCache)) ==> was == if dbUp then rows else [])
              && (subCache == old(subCache) || (was == rows && subCache == old(subCache)[key := rows]))
    {
      var addr := ToLower(address);
      if redisUp && (chain, addr) in subCache {
        return subCache[(chain, addr)];
      }
      if !dbUp {
        return [];
      }
      was := ListByChainAddress(addrStore.collation, addrStore.rows, chain, addr);
      if |was| == 0 {
        return [];
      }
      if redisUp {
        subCache := subCache[(chain, addr) := was];
      }
    }

    /** One subscription: nothing, or a row and then its task. A task that could not be published leaves
        the row behind. */
    method ExpandOne(e: Event, wa: WatchedAddress.Row, f: Faults, redisUp: bool) returns (ghost created: Option<Task>)
      requires Valid() && store.Valid() && db.Fresh() && forall id :: id in db.apps ==> UpperLists(db.apps[id])
      modifies server, store, db`cache
      ensures store.Valid() && db.Fresh()
      ensures created.Some? <==> Passes(sum, db.apps, e, f, wa) && !Known(old(store.rows), KeyOf(e), wa.id)
      ensures created.None? ==> store.rows == old(store.rows) && server.pool == old(server.pool)
      ensures created.Some? ==>
                var task := created.value;
                && task.addressId == wa.id && task.eventId == KeyOf(e)
                && task.callbackUrl == db.apps[wa.appId].callbackUrl
                && 0 < task.logId && task.logId !in old(store.rows)
                && store.rows == old(store.rows)[task.logId := RowOf(task)]
                && server.pool
                   == Put(old(server.pool), DispatchTasks, Message(Some(task), Some(0)), Copies(AttemptsFor(f, wa.id)))
    {
      created := None;
      if wa.id in f.check {
        return;
      }
      var found := store.ExistsByEventAndAddress(KeyOf(e), wa.id);
      if found {
        return;
      }
      if wa.id in f.info {
        return;
      }
      var allowed := Judge(e, wa.appId, redisUp);
      if allowed.None? {
        return;
      }
      if wa.id in f.create {
        return;
      }
      created := Issue(e, wa, allowed.value, f);
    }

    /** The callback of an application that is to hear of the event. */
    method Judge(e: Event, appId: nat, redisUp: bool) returns (callbackUrl: Option<string>)
      requires db.Fresh() && forall id :: id in db.apps ==> UpperLists(db.apps[id])
      modifies db`cache
      ensures db.Fresh()
      ensures callbackUrl.Some? <==> Accepts(sum, db.apps, e, appId)
      ensures callbackUrl.Some? ==> callbackUrl.value == db.apps[appId].callbackUrl
    {
      var info := AllowList.GetAppInfo(db, appId, redisUp);
      if info.None? {
        return None;
      }
      if info.value.callbackUrl == "" {
        return None;
      }
      ParsedIsAllowedOf(db.apps[appId], info.value.allowed);
      if !AllowList.IsContractAllowed(sum, info.value.allowed, e.chain, ContractOf(e)) {
        return None;
      }
      callbackUrl := Some(info.value.callbackUrl);
    }

    /** The row first, with the id that the task then carries. */
    method Issue(e: Event, wa: WatchedAddress.Row, callbackUrl: string, f: Faults) returns (ghost created: Option<Task>)
      requires Valid() && store.Valid()
      modifies server, store
      ensures store.Valid() && created.Some?
      ensures var task := created.value;
              && task.addressId == wa.id && task.eventId == KeyOf(e) && task.callbackUrl == callbackUrl
              && 0 < task.logId && task.logId !in old(store.rows)
              && store.rows == old(store.rows)[task.logId := RowOf(task)]
              && server.pool
                  == Put(old(server.pool), DispatchTasks, Message(Some(task), Some(0)), Copies(AttemptsFor(f, wa.id)))
    {
      var id := store.Create(Dispatcher.Row(KeyOf(e), wa.id, callbackUrl, Log(Pending, 0)));
      var m := Message(Some(Task(id, wa.id, KeyOf(e), callbackUrl)), Some(0));
      var attempts := AttemptsFor(f, wa.id);
      var ok := publisher.Publish(DispatchExchange, Dispatch, m, attempts);
      Routes();
      GainedOne(old(server.pool), server.pool, DispatchTasks, m, Copies(attempts));
      created := m.task;
    }

    /** One round of the loop: rows, queues and the ghost record of what was done so far move on together. */
    method ExpandNext(e: Event, list: seq<WatchedAddress.Row>, i: nat, f: Faults, redisUp: bool,
                      ghost http: multiset<nat>,
                      ghost s0: State, ghost steps: seq<Step>, ghost rows0: Rows)
      returns (ghost steps': seq<Step>)
      requires Valid() && store.Valid() && db.Fresh() && forall id :: id in db.apps ==> UpperLists(db.apps[id])
      requires i < |list| && Expanded(sum, db.apps, e, f, list, i, rows0, store.rows)
      requires Run(s0, steps, Abstract(http), MAX_RETRIES, false) && OnlyCreates(steps, KeyOf(e), rows0, store.rows)
      modifies server, store, db`cache
      ensures store.Valid() && db.Fresh()
      ensures Expanded(sum, db.apps, e, f, list, i + 1, rows0, store.rows)
      ensures Run(s0, steps', Abstract(http), MAX_RETRIES, false) && OnlyCreates(steps', KeyOf(e), rows0, store.rows)
    {
      ghost var rows, before := store.rows, Abstract(http);
      ghost var created := ExpandOne(e, list[i], f, redisUp);
      ExpandedMore(sum, db.apps, e, f, list, i, rows0, rows, store.rows, created);
      steps' := Extended(s0, steps, before, Abstract(http), rows, store.rows, created, AttemptsFor(f, list[i].id));
      OnlyCreatesMore(steps, steps', KeyOf(e), rows0, rows, store.rows, created, AttemptsFor(f, list[i].id));
    }

    /** A readable message: what happens to rows and queues is a series of creations of the retry machine, and every
        (event, address) pair gains exactly the row it is due. */
    method ExpandAll(e: Event, f: Faults, redisUp: bool, dbUp: bool, ghost http: multiset<nat>)
      returns (ghost was: seq<WatchedAddress.Row>, ghost steps: seq<Step>)
      requires Valid() && store.Valid() && db.Fresh() && forall id :: id in db.apps ==> UpperLists(db.apps[id])
      modifies this, server, store, db`cache
      ensures store.Valid() && db.Fresh()
      ensures !(redisUp && (e.chain, ToLower(e.watched)) in old(subCache)) && dbUp ==>
                was == ListByChainAddress(addrStore.collation, addrStore.rows, e.chain, ToLower(e.watched))
      ensures Expanded(sum, db.apps, e, f, was, |was|, old(store.rows), store.rows)
      ensures Run(old(Abstract(http)), steps, Abstract(http), MAX_RETRIES, false)
      ensures OnlyCreates(steps, KeyOf(e), old(store.rows), store.rows)
    {
      ghost var s0 := Abstract(http);
      var list := GetWatchedAddresses(e.chain, e.watched, redisUp, dbUp);
      was, steps := list, [];
      for i := 0 to |list|
        invariant was == list && store.Valid() && db.Fresh() && db.apps == old(db.apps)
        invariant Expanded(sum, db.apps, e, f, was, i, old(store.rows), store.rows)
        invariant Run(s0, steps, Abstract(http), MAX_RETRIES, false)
        invariant OnlyCreates(steps, KeyOf(e), old(store.rows), store.rows)
      {
        steps := ExpandNext(e, list, i, f, redisUp, http, s0, steps, old(store.rows));
      }
    }

    /** One message of matched.events, acknowledged whatever comes of it. A body that cannot be read changes
        nothing else. */
    method Handle(body: Option<Event>, queue: EventQueue, f: Faults, redisUp: bool, dbUp: bool,
                  ghost http: multiset<nat>)
      returns (ghost was: seq<WatchedAddress.Row>, ghost steps: seq<Step>)
      requires Valid() && store.Valid() && db.Fresh() && forall id :: id in db.apps ==> UpperLists(db.apps[id])
      requires queue.Holds(body)
      modifies this, server, store, db`cache, queue
      ensures store.Valid() && db.Fresh()
      ensures queue.pool == old(queue.pool) - if body.Some? then multiset{body.value} else multiset{}
      ensures queue.garbage == old(queue.garbage) - if body.Some? then 0 else 1
      ensures body.None? ==>
              store.rows == old(store.rows) && server.pool == old(server.pool) && subCache == old(subCache)
      ensures body.Some? ==>
                var e := body.value;
                && (!(redisUp && (e.chain, ToLower(e.watched)) in old(subCache)) && dbUp ==>
                      was == ListByChainAddress(addrStore.collation, addrStore.rows, e.chain, ToLower(e.watched)))
                && Expanded(sum, db.apps, e, f, was, |was|, old(store.rows), store.rows)
                && OnlyCreates(steps, KeyOf(e), old(store.rows), store.rows)
      ensures Run(old(Abstract(http)), steps, Abstract(http), MAX_RETRIES, false)
    {
      was, steps := [], [];
      if body.Some? {
        was, steps := ExpandAll(body.value, f, redisUp, dbUp, http);
      }
      queue.Ack(body);
    }
  }

  function RowOf(task: Task): Dispatcher.Row {
    Dispatcher.Row(task.eventId, task.addressId, task.callbackUrl, Log(Pending, 0))
  }

  /** A new row with its task is one creation of the retry machine. */
  lemma Creates(rows: Rows, rows': Rows, s: State, s': State, task: Task, attempts: seq<Attempt>)
    requires s.logs == LogsOf(rows) && s'.logs == LogsOf(rows') && s'.http == s.http
    requires 0 < task.logId && task.logId !in rows && rows' == rows[task.logId := RowOf(task)]
    requires |attempts| == MAX_RETRIES
    requires s'.pool == Put(s.pool, DispatchTasks, Message(Some(task), Some(0)), Copies(attempts))
    ensures Delivery.Enabled(s, Step.Create(task, attempts), MAX_RETRIES)
    ensures s' == Apply(s, Step.Create(task, attempts), MAX_RETRIES)
  {
    CopiesBound(attempts);
    LogsOfUpdate(rows, task.logId, RowOf(task));
  }

  /** Nothing but creations for an event, each of the task of a new row. */
  ghost predicate OnlyCreates(steps: seq<Step>, eventId: string, rows: Rows, rows': Rows) {
    forall i :: 0 <= i < |steps| ==> steps[i].Create? && TaskOfRow(steps[i].task, eventId, rows, rows')
  }

  ghost predicate TaskOfRow(task: Task, eventId: string, rows: Rows, rows': Rows) {
    task.eventId == eventId && task.logId in rows' && task.logId !in rows && rows'[task.logId] == RowOf(task)
  }

  lemma OnlyCreatesMore(steps: seq<Step>, steps': seq<Step>, eventId: string, rows: Rows, mid: Rows, rows': Rows,
                        created: Option<Task>, attempts: seq<Attempt>)
    requires OnlyCreates(steps, eventId, rows, mid)
    requires steps' == steps + if created.Some? then [Step.Create(created.value, attempts)] else []
    requires created.None? ==> rows' == mid
    requires created.Some? ==>
               var task := created.value;
               task.eventId == eventId && task.logId !in rows && task.logId !in mid
               && rows' == mid[task.logId := RowOf(task)]
    ensures OnlyCreates(steps', eventId, rows, rows')
  {
    forall i | 0 <= i < |steps'|
      ensures steps'[i].Create? && TaskOfRow(steps'[i].task, eventId, rows, rows')
    {
      if i < |steps| {
        assert TaskOfRow(steps[i].task, eventId, rows, mid);
      }
    }
  }

  lemma Extended(s0: State, steps: seq<Step>, s: State, s': State, rows: Rows, rows': Rows, created: Option<Task>,
                 attempts: seq<Attempt>)
    returns (steps': seq<Step>)
    requires Run(s0, steps, s, MAX_RETRIES, false) && |attempts| == MAX_RETRIES
    requires s.logs == LogsOf(rows) && s'.logs == LogsOf(rows') && s'.http == s.http
    requires created.None? ==> rows' == rows && s'.pool == s.pool
    requires created.Some? ==>
               var task := created.value;
               && 0 < task.logId && task.logId !in rows && rows' == rows[task.logId := RowOf(task)]
               && s'.pool == Put(s.pool, DispatchTasks, Message(Some(task), Some(0)), Copies(attempts))
    ensures Run(s0, steps', s', MAX_RETRIES, false)
    ensures steps' == steps + if created.Some? then [Step.Create(created.value, attempts)] else []
  {
    if created.Some? {
      Creates(rows, rows', s, s', created.value, attempts);
      RunSnoc(s0, steps, s, Step.Create(created.value, attempts), MAX_RETRIES);
      steps' := steps + [Step.Create(created.value, attempts)];
    } else {
      steps' := steps;
      assert s' == s;
    }
  }

  lemma ExpandedMore(sum: Checksum, apps: map<nat, AllowList.App>, e: Event, f: Faults, was: seq<WatchedAddress.Row>,
                     n: nat,
                     rows: Rows, mid: Rows, rows': Rows, created: Option<Task>)
    requires n < |was| && Expanded(sum, apps, e, f, was, n, rows, mid)
    requires created.Some? <==> Passes(sum, apps, e, f, was[n]) && !Known(mid, KeyOf(e), was[n].id)
    requires created.None? ==> rows' == mid
    requires created.Some? ==>
               && created.value.addressId == was[n].id && created.value.eventId == KeyOf(e)
               && created.value.callbackUrl == apps[was[n].appId].callbackUrl
               && created.value.logId !in mid
               && rows' == mid[created.value.logId := RowOf(created.value)]
    ensures Expanded(sum, apps, e, f, was, n + 1, rows, rows')
  {
    var wa := was[n];
    var m := n + 1;
    forall id | id in rows' && id !in rows ensures ForSubscriber(sum, apps, e, f, was, m, rows'[id]) {
      ForSubscriberMore(sum, apps, e, f, was, n, rows, mid, rows', created, id);
    }
    forall a ensures GainsDue(sum, apps, e, f, was, m, rows, rows', a) {
      assert GainsDue(sum, apps, e, f, was, n, rows, mid, a);
      ReachesMore(sum, apps, e, f, was, n, a);
      KnownIff(mid, KeyOf(e), a);
      if created.Some? {
        CountAfterCreate(mid, created.value.logId, RowOf(created.value), KeyOf(e), a);
      }
    }
    forall eventId, a | eventId != KeyOf(e) ensures Gains(rows, rows', eventId, a, false) {
      assert Gains(rows, mid, eventId, a, false);
      if created.Some? {
        CountAfterCreate(mid, created.value.logId, RowOf(created.value), eventId, a);
      }
    }
  }

  lemma ForSubscriberMore(sum: Checksum, apps: map<nat, AllowList.App>, e: Event, f: Faults,
                          was: seq<WatchedAddress.Row>, n: nat, rows: Rows, mid: Rows, rows': Rows,
                          created: Option<Task>, id: nat)
    requires n < |was| && id in rows' && id !in rows
    requires id in mid ==> ForSubscriber(sum, apps, e, f, was, n, mid[id])
    requires created.None? ==> rows' == mid
    requires created.Some? ==>
               && Passes(sum, apps, e, f, was[n])
               && created.value.addressId == was[n].id && created.value.eventId == KeyOf(e)
               && created.value.callbackUrl == apps[was[n].appId].callbackUrl
               && created.value.logId !in mid
               && rows' == mid[created.value.logId := RowOf(created.value)]
    ensures ForSubscriber(sum, apps, e, f, was, n + 1, rows'[id])
  {
    if id in mid {
      var i :| 0 <= i < n && was[i].id == mid[id].addressId && Passes(sum, apps, e, f, was[i])
               && mid[id].callbackUrl == apps[was[i].appId].callbackUrl;
      assert 0 <= i < n + 1 && Passes(sum, apps, e, f, was[i]);
    }
  }

  lemma ReachesMore(sum: Checksum, apps: map<nat, AllowList.App>, e: Event, f: Faults, was: seq<WatchedAddress.Row>,
                    n: nat, a: nat)
    requires n < |was|
    ensures Reaches(sum, apps, e, f, was, n + 1, a)
       <==> Reaches(sum, apps, e, f, was, n, a) || (was[n].id == a && Passes(sum, apps, e, f, was[n]))
  {
    if was[n].id == a && Passes(sum, apps, e, f, was[n]) {
      assert 0 <= n < n + 1 && was[n].id == a;
    }
  }

  // --- What it comes to -----------------------------------------------------------------------------------------

  ghost predicate UniqueRows(rows: Rows) {
    forall eventId, a :: CountFor(rows, eventId, a) <= 1
  }

  /** However often a message is delivered, and whatever fails on the way, no (event, address) pair gets
      a second row. */
  lemma NeverTwice(sum: Checksum, apps: map<nat, AllowList.App>, e: Event, f: Faults, was: seq<WatchedAddress.Row>,
                   rows: Rows, rows': Rows)
    requires UniqueRows(rows) && Expanded(sum, apps, e, f, was, |was|, rows, rows')
    ensures UniqueRows(rows')
  {
    forall eventId, a ensures CountFor(rows', eventId, a) <= 1 {
      assert CountFor(rows, eventId, a) <= 1;
      if eventId == KeyOf(e) {
        assert GainsDue(sum, apps, e, f, was, |was|, rows, rows', a);
      } else {
        assert Gains(rows, rows', eventId, a, false);
      }
    }
  }

  /** Without faults exactly the subscriptions that accept the event have their row afterwards, one each. */
  lemma FaultlessIsExact(sum: Checksum, apps: map<nat, AllowList.App>, e: Event, attempts: map<nat, seq<Attempt>>,
                         was: seq<WatchedAddress.Row>, rows: Rows, rows': Rows, a: nat)
    requires UniqueRows(rows) && Expanded(sum, apps, e, Faults({}, {}, {}, attempts), was, |was|, rows, rows')
    ensures CountFor(rows', KeyOf(e), a) == 1 <==>
              || CountFor(rows, KeyOf(e), a) == 1
              || exists i :: 0 <= i < |was| && was[i].id == a && Accepts(sum, apps, e, was[i].appId)
  {
    var f := Faults({}, {}, {}, attempts);
    assert CountFor(rows, KeyOf(e), a) <= 1;
    assert GainsDue(sum, apps, e, f, was, |was|, rows, rows', a);
    assert forall i :: 0 <= i < |was| ==> (Passes(sum, apps, e, f, was[i]) <==> Accepts(sum, apps, e, was[i].appId));
  }

  /** A created task is lost for good exactly when none of its attempts left a copy: its row is pending, no message
      carries it, and the next delivery of the event finds the row and passes on. */
  lemma LostWhenUnpublished(s: State, task: Task, attempts: seq<Attempt>)
    requires Inv(s) && Delivery.Enabled(s, Step.Create(task, attempts), |attempts|)
    ensures var s' := Created(s, task, attempts);
            && task.logId in s'.logs && s'.logs[task.logId] == Log(Pending, 0)
            && (NoMessage(s'.pool, task.logId)
                <==> forall i :: 0 <= i < |attempts| ==> attempts[i] == Failed(false))
  {
    CopiesBound(attempts);
    var x := Slot(DispatchTasks, Message(Some(task), Some(0)));
    var s' := Created(s, task, attempts);
    assert forall y :: y in s.pool ==> !Carries(y, task.logId);
    assert Carries(x, task.logId) && (x in s'.pool <==> Copies(attempts) > 0);
    assert forall y :: y in s'.pool && Carries(y, task.logId) ==> y == x;
  }

  /** The lists an application is given are stored under upper-case chains. */
  lemma StoredListsAreUpper(sum: Checksum, req: map<string, seq<string>>, app: AllowList.App)
    requires app.allowed == AllowList.Blank || (app.allowed.Json? && AllowList.Normalized(sum, req, app.allowed.lists))
    ensures UpperLists(app)
  {
    if app.allowed.Json? {
      forall k | k in app.allowed.lists ensures ToUpper(k) == k {
        assert AllowList.NormalizedFrom(sum, req, k, app.allowed.lists[k]);
        var c :| c in req && ToUpper(c) == k;
        AllowList.UpperTwice(c);
      }
    }
  }

  // --- Looking up in lower case ---------------------------------------------------------------------------------

  lemma {:induction false} SelectSame(t: seq<WatchedAddress.Row>,
                                      p: WatchedAddress.Row -> bool, q: WatchedAddress.Row -> bool)
    requires forall r :: p(r) == q(r)
    ensures Select(t, p) == Select(t, q)
  {
    if t == [] {
    } else {
      SelectSame(t[1..], p, q);
    }
  }

  /** Where the database compares without case no harm is done. */
  lemma {:induction false} LowerLookupSame(t: Table, chain: string, address: string)
    ensures ListByChainAddress(CaseInsensitive, t, chain, ToLower(address))
            == ListByChainAddress(CaseInsensitive, t, chain, address)
  {
    LowerTwice(address);
    SelectSame(t, (r: WatchedAddress.Row) =>
                 && r.enabled && SqlEq(CaseInsensitive, r.chain, chain)
                 && SqlEq(CaseInsensitive, r.address, ToLower(address)),
               (r: WatchedAddress.Row) =>
                 && r.enabled && SqlEq(CaseInsensitive, r.chain, chain)
                 && SqlEq(CaseInsensitive, r.address, address));
  }

  /** Someone watches the address in just this spelling. */
  predicate Watched(t: Table, chain: string, address: string) {
    exists r :: r in t && r.enabled && r.chain == chain && r.address == address
  }

  /** Under a binary collation the subscriptions found are those of the address exactly when it has no capital letter,
      or nobody watches it in either spelling. */
  lemma LowerLookupIff(t: Table, chain: string, address: string)
    ensures ListByChainAddress(Binary, t, chain, ToLower(address)) == ListByChainAddress(Binary, t, chain, address)
       <==> ToLower(address) == address || (!Watched(t, chain, address) && !Watched(t, chain, ToLower(address)))
  {
    var low := ListByChainAddress(Binary, t, chain, ToLower(address));
    var own := ListByChainAddress(Binary, t, chain, address);
    if Watched(t, chain, address) {
      var r :| r in t && r.enabled && r.chain == chain && r.address == address;
      assert r in own;
    }
    if Watched(t, chain, ToLower(address)) {
      var r :| r in t && r.enabled && r.chain == chain && r.address == ToLower(address);
      assert r in low;
    }
    assert low != [] ==> low[0] in low;
    assert own != [] ==> own[0] in own;
  }
}
