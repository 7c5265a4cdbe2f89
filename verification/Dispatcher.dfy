/** The log table and the two handlers at the end of the pipeline: the sender with its retry routes, and the
    dead-letter handler. */
module Dispatcher {
  import opened Prelude
  import opened Topology
  import opened Delivery
  import opened Broker

  /** The columns of a log row that matter here; `log` holds the two that change. */
  datatype Row = Row(eventId: string, addressId: nat, callbackUrl: string, log: Log)

  function LogsOf(rows: map<nat, Row>): map<nat, Log> {
    map id | id in rows :: rows[id].log
  }

  type Rows = map<nat, Row>

  /** A (event, address) pair has a row. */
  predicate Known(rows: Rows, eventId: string, addressId: nat) {
    exists id :: id in rows && rows[id].eventId == eventId && rows[id].addressId == addressId
  }

  /** The rows of an (event, address) pair. */
  ghost function RowsFor(rows: Rows, eventId: string, addressId: nat): set<nat> {
    set id | id in rows && rows[id].eventId == eventId && rows[id].addressId == addressId
  }

  ghost function CountFor(rows: Rows, eventId: string, addressId: nat): nat {
    |RowsFor(rows, eventId, addressId)|
  }

  lemma KnownIff(rows: Rows, eventId: string, addressId: nat)
    ensures Known(rows, eventId, addressId) <==> CountFor(rows, eventId, addressId) > 0
  {
    if Known(rows, eventId, addressId) {
      var id :| id in rows && rows[id].eventId == eventId && rows[id].addressId == addressId;
      assert id in RowsFor(rows, eventId, addressId);
    }
    if CountFor(rows, eventId, addressId) > 0 {
      var id :| id in RowsFor(rows, eventId, addressId);
    }
  }

  ghost function RowsAmong(rows: Rows, eventId: string, addressId: nat, ids: set<nat>): set<nat>
    requires ids <= rows.Keys
  {
    set id | id in ids && rows[id].eventId == eventId && rows[id].addressId == addressId
  }

  lemma AmongMore(rows: Rows, eventId: string, addressId: nat, ids: set<nat>, id: nat)
    requires ids <= rows.Keys && id in rows && id !in ids
    ensures |RowsAmong(rows, eventId, addressId, ids + {id})|
         == |RowsAmong(rows, eventId, addressId, ids)|
            + if rows[id].eventId == eventId && rows[id].addressId == addressId then 1 else 0
  {
    var before, after := RowsAmong(rows, eventId, addressId, ids), RowsAmong(rows, eventId, addressId, ids + {id});
    assert after == if rows[id].eventId == eventId && rows[id].addressId == addressId then before + {id} else before;
  }

  lemma LogsOfUpdate(rows: map<nat, Row>, id: nat, row: Row)
    ensures LogsOf(rows[id := row]) == LogsOf(rows)[id := row.log]
  {
  }

  /** Table webhook_logs with its auto-increment key. */
  class WebhookLogStore {
    var rows: map<nat, Row>
    var lastId: nat

    ghost predicate Valid()
      reads this
    {
      forall id :: id in rows ==> 0 < id <= lastId
    }

    constructor ()
      ensures Valid() && rows == map[] && lastId == 0
    {
      rows, lastId := map[], 0;
    }

    method Create(row: Row) returns (id: nat)
      requires Valid()
      modifies this
      ensures Valid() && 0 < id && id !in old(rows) && rows == old(rows)[id := row]
    {
      lastId := lastId + 1;
      id := lastId;
      rows := rows[id := row];
    }

    /** SELECT COUNT(*): the rows of the pair are counted, in whatever order they are found. */
    method ExistsByEventAndAddress(eventId: string, addressId: nat) returns (found: bool)
      ensures found <==> Known(rows, eventId, addressId)
    {
      var count, rest, seen := 0, rows.Keys, {};
      while rest != {}
        invariant seen !! rest && seen + rest == rows.Keys
        invariant count == |RowsAmong(rows, eventId, addressId, seen)|
        decreases |rest|
      {
        var id :| id in rest;
        AmongMore(rows, eventId, addressId, seen, id);
        if rows[id].eventId == eventId && rows[id].addressId == addressId {
          count := count + 1;
        }
        rest, seen := rest - {id}, seen + {id};
      }
      assert RowsAmong(rows, eventId, addressId, rows.Keys) == RowsFor(rows, eventId, addressId);
      KnownIff(rows, eventId, addressId);
      found := count > 0;
    }

    /** An id without a row matches nothing, which is no error. */
    method UpdateStatus(id: nat, status: Status)
      requires Valid()
      modifies this`rows
      ensures Valid() && LogsOf(rows) == SetStatus(LogsOf(old(rows)), id, status)
      ensures SameKeys(old(rows), rows)
    {
      if id in rows {
        LogsOfUpdate(rows, id, rows[id].(log := rows[id].log.(status := status)));
        rows := rows[id := rows[id].(log := rows[id].log.(status := status))];
      }
    }

    method IncrRetryCount(id: nat)
      requires Valid()
      modifies this`rows
      ensures Valid() && LogsOf(rows) == AddRetry(LogsOf(old(rows)), id)
      ensures SameKeys(old(rows), rows)
    {
      if id in rows {
        LogsOfUpdate(rows, id, rows[id].(log := rows[id].log.(retryCount := rows[id].log.retryCount + 1)));
        rows := rows[id := rows[id].(log := rows[id].log.(retryCount := rows[id].log.retryCount + 1))];
      }
    }

    method MarkDead(id: nat)
      requires Valid()
      modifies this`rows
      ensures Valid() && LogsOf(rows) == SetStatus(LogsOf(old(rows)), id, DeadLetter)
      ensures SameKeys(old(rows), rows)
    {
      UpdateStatus(id, DeadLetter);
    }
  }

  /** Only the two changing columns may differ. */
  ghost predicate SameKeys(rows: map<nat, Row>, rows': map<nat, Row>) {
    rows'.Keys == rows.Keys && forall id :: id in rows ==> rows'[id].(log := rows[id].log) == rows[id]
  }

  /** A request for a log id, and where it went. */
  datatype Request = Request(logId: nat, url: string)

  class HttpClient {
    var requests: seq<Request>
    var sent: multiset<nat>

    constructor ()
      ensures requests == [] && sent == multiset{}
    {
      requests, sent := [], multiset{};
    }

    method Post(id: nat, url: string, response: Option<int>) returns (code: Option<int>)
      modifies this
      ensures requests == old(requests) + [Request(id, url)] && sent == old(sent) + multiset{id} && code == response
    {
      requests, sent := requests + [Request(id, url)], sent + multiset{id};
      code := response;
    }
  }

  /** Acknowledging after the publish comes to the same as before it. */
  lemma AckLate(pool: multiset<Slot>, x: Slot, q: Queue, m: Message, k: nat)
    requires x in pool
    ensures Put(pool, q, m, k) - multiset{x} == Put(pool - multiset{x}, q, m, k)
  {
  }

  /** The row of a request says how it was answered. */
  lemma RowAfter(rows: Rows, rows': Rows, id: nat, response: Option<int>)
    requires rows'.Keys == rows.Keys && LogsOf(rows') == LogsAfter(LogsOf(rows), id, response)
    ensures id in rows ==>
              if response.Some?
                  && 200 <= response.value <= 299 then rows'[id].log == Log(Success, rows[id].log.retryCount)
              else rows'[id].log == Log(Failure, rows[id].log.retryCount + 1)
  {
    if id in rows {
      assert rows'[id].log == LogsOf(rows')[id];
    }
  }

  /** The four retry keys, in the order of their delays. */
  const ROUTES: seq<Key> := [Retry(1), Retry(2), Retry(3), Retry(4)]

  class Sender {
    const server: Server
    const publisher: Publisher
    const store: WebhookLogStore
    const client: HttpClient

    constructor (server: Server, publisher: Publisher, store: WebhookLogStore, client: HttpClient)
      requires publisher.server == server && server.layout == DECLARED
      ensures Valid() && this.server == server && this.store == store && this.client == client
    {
      this.server, this.publisher, this.store, this.client := server, publisher, store, client;
    }

    ghost predicate Valid() {
      publisher.server == server && server.layout == DECLARED
    }

    ghost function Abstract(): State
      reads server, store, client
    {
      State(server.pool, LogsOf(store.rows), client.sent)
    }

    /** One message of dispatch.tasks: delivered, or one step further towards dispatch.dead; acknowledged either way. */
    method Handle(m: Message, response: Option<int>, attempts: seq<Attempt>)
      requires Valid() && store.Valid() && |attempts| == MAX_RETRIES
      requires Slot(DispatchTasks, m) in server.pool && Countable(m)
      modifies server, store`rows, client
      ensures store.Valid() && SameKeys(old(store.rows), store.rows)
      ensures Abstract() == Handled(old(Abstract()), m, response, attempts)
      ensures client.requests == old(client.requests)
              + if m.task.Some? then [Request(m.task.value.logId, m.task.value.callbackUrl)] else []
      ensures m.task.Some? && m.task.value.logId in old(store.rows) ==>
                var id := m.task.value.logId;
                var was, now := old(store.rows)[id].log, store.rows[id].log;
                if response.Some? && 200 <= response.value <= 299 then now == Log(Success, was.retryCount)
                else now == Log(Failure, was.retryCount + 1)
    {
      if m.task.None? {
        server.Ack(Slot(DispatchTasks, m));
        return;
      }
      var retryCount := if m.header.Some? then m.header.value else 0;
      var code := client.Post(m.task.value.logId, m.task.value.callbackUrl, response);
      Answer(m, retryCount, code, attempts);
      RowAfter(old(store.rows), store.rows, m.task.value.logId, response);
    }

    /** What the answer to a request leads to. */
    method Answer(m: Message, retryCount: int, code: Option<int>, attempts: seq<Attempt>)
      requires Valid() && store.Valid() && |attempts| == MAX_RETRIES && 0 <= retryCount == Count(m) && m.task.Some?
      requires Slot(DispatchTasks, m) in server.pool
      modifies server, store`rows
      ensures store.Valid() && SameKeys(old(store.rows), store.rows)
      ensures server.pool == PoolAfter(old(server.pool), m, code, attempts)
      ensures LogsOf(store.rows) == LogsAfter(LogsOf(old(store.rows)), m.task.value.logId, code)
    {
      if code.Some? && 200 <= code.value < 300 {
        Succeed(m, m.task.value.logId);
      } else {
        Fail(m, m.task.value.logId, retryCount + 1, attempts);
      }
    }

    method Succeed(m: Message, id: nat)
      requires store.Valid() && Slot(DispatchTasks, m) in server.pool
      modifies server, store`rows
      ensures store.Valid() && SameKeys(old(store.rows), store.rows)
      ensures server.pool == old(server.pool) - multiset{Slot(DispatchTasks, m)}
      ensures LogsOf(store.rows) == SetStatus(LogsOf(old(store.rows)), id, Success)
    {
      store.UpdateStatus(id, Success);
      server.Ack(Slot(DispatchTasks, m));
    }

    method Fail(m: Message, id: nat, retryCount: int, attempts: seq<Attempt>)
      requires Valid() && store.Valid() && |attempts| == MAX_RETRIES && 0 < retryCount
      requires Slot(DispatchTasks, m) in server.pool
      modifies server, store`rows
      ensures store.Valid() && SameKeys(old(store.rows), store.rows)
      ensures server.pool == Put(old(server.pool) - multiset{Slot(DispatchTasks, m)}, FailureQueue(retryCount),
                                 m.(header := Some(retryCount)), Copies(attempts))
      ensures LogsOf(store.rows) == CountFailure(LogsOf(old(store.rows)), id)
    {
      MarkFailed(id);
      PassOn(m, retryCount, attempts);
      server.Ack(Slot(DispatchTasks, m));
      AckLate(old(server.pool), Slot(DispatchTasks, m), FailureQueue(retryCount), m.(header := Some(retryCount)),
              Copies(attempts));
    }

    method MarkFailed(id: nat)
      requires store.Valid()
      modifies store`rows
      ensures store.Valid() && SameKeys(old(store.rows), store.rows)
      ensures LogsOf(store.rows) == CountFailure(LogsOf(old(store.rows)), id)
    {
      store.UpdateStatus(id, Failure);
      store.IncrRetryCount(id);
    }

    /** The fifth failure goes to the dead-letter queue through the default exchange, the others to their
        retry queue. */
    method PassOn(m: Message, retryCount: int, attempts: seq<Attempt>)
      requires Valid() && |attempts| == MAX_RETRIES && 0 < retryCount
      modifies server
      ensures server.pool
              == Put(old(server.pool), FailureQueue(retryCount), m.(header := Some(retryCount)), Copies(attempts))
    {
      var next := m.(header := Some(retryCount));
      var ok;
      if retryCount >= MAX_FAILURES {
        ok := publisher.Publish(DefaultExchange, Named(DispatchDead), next, attempts);
      } else {
        ok := publisher.Publish(DlxExchange, ROUTES[retryCount - 1], next, attempts);
      }
      RoutesOf(retryCount);
      GainedOne(old(server.pool), server.pool, FailureQueue(retryCount), next, Copies(attempts));
    }
  }

  class DeadLetterHandler {
    const server: Server
    const store: WebhookLogStore

    constructor (server: Server, store: WebhookLogStore)
      ensures this.server == server && this.store == store
    {
      this.server, this.store := server, store;
    }

    method Handle(m: Message)
      requires store.Valid() && Slot(DispatchDead, m) in server.pool
      modifies server, store`rows
      ensures store.Valid() && SameKeys(old(store.rows), store.rows)
      ensures forall http :: State(server.pool, LogsOf(store.rows), http)
                          == Buried(State(old(server.pool), LogsOf(old(store.rows)), http), m)
    {
      if m.task.Some? {
        store.MarkDead(m.task.value.logId);
      }
      server.Ack(Slot(DispatchDead, m));
    }
  }
}
