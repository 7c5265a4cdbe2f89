/** The broker with the declared layout, and publishing with confirms: up to three attempts, any of which may leave a
    copy behind although it is reported as failed. */
module Broker {
  import opened Prelude
  import opened Topology
  import opened Delivery
  import opened Events

  const MAX_RETRIES := 3

  class Server {
    const layout: Layout
    var pool: multiset<Slot>

    constructor (layout: Layout)
      ensures this.layout == layout && pool == multiset{}
    {
      this.layout, this.pool := layout, multiset{};
    }

    /** One copy into every queue the exchange routes the key to. */
    method Accept(exchange: Exchange, key: Key, m: Message)
      modifies this
      ensures Gained(old(pool), pool, Route(layout, exchange, key), m, 1)
    {
      var rest := Route(layout, exchange, key);
      while rest != {}
        invariant rest <= Route(layout, exchange, key)
        invariant Gained(old(pool), pool, Route(layout, exchange, key) - rest, m, 1)
        decreases |rest|
      {
        var q :| q in rest;
        pool := pool[Slot(q, m) := pool[Slot(q, m)] + 1];
        rest := rest - {q};
      }
      assert Route(layout, exchange, key) - rest == Route(layout, exchange, key);
    }

    method Ack(x: Slot)
      modifies this
      ensures pool == old(pool) - multiset{x}
    {
      pool := pool - multiset{x};
    }
  }

  lemma GainedMore(pool: multiset<Slot>, mid: multiset<Slot>, pool': multiset<Slot>, route: set<Queue>, m: Message,
                   k: nat, n: nat)
    requires Gained(pool, mid, route, m, k) && Gained(mid, pool', route, m, n)
    ensures Gained(pool, pool', route, m, k + n)
  {
    forall x: Slot ensures pool'[x] == pool[x] + if x.msg == m && x.queue in route then k + n else 0 {
      assert mid[x] == pool[x] + if x.msg == m && x.queue in route then k else 0;
    }
  }

  /** What a first attempt leaves, and what the series leaves from there on. */
  lemma CopiesStep(attempts: seq<Attempt>, i: nat)
    requires i < |attempts|
    ensures attempts[i].Confirmed? ==> Copies(attempts[i..]) == Copies([attempts[i]])
    ensures attempts[i].Failed? ==> Copies(attempts[i..]) == Copies([attempts[i]]) + Copies(attempts[i + 1..])
  {
    assert [attempts[i]][1..] == [];
    assert attempts[i..][1..] == attempts[i + 1..];
  }

  class Publisher {
    const server: Server

    constructor (server: Server)
      ensures this.server == server
    {
      this.server := server;
    }

    method PublishOnce(exchange: Exchange, key: Key, m: Message, attempt: Attempt) returns (ok: bool)
      modifies server
      ensures ok == attempt.Confirmed?
      ensures Gained(old(server.pool), server.pool, Route(server.layout, exchange, key), m, Copies([attempt]))
    {
      ok := attempt.Confirmed?;
      assert [attempt][1..] == [];
      if ok || attempt.enqueued {
        server.Accept(exchange, key, m);
      }
    }

    /** Succeeds exactly when an attempt is confirmed; every attempt up to then may have left a copy, failed ones
        included. */
    method Publish(exchange: Exchange, key: Key, m: Message, attempts: seq<Attempt>) returns (ok: bool)
      requires |attempts| == 3
      modifies server
      ensures ok == Accepted(attempts)
      ensures Gained(old(server.pool), server.pool, Route(server.layout, exchange, key), m, Copies(attempts))
    {
      ghost var route := Route(server.layout, exchange, key);
      ghost var made: nat := 0;
      assert attempts[0..] == attempts;
      for i := 0 to MAX_RETRIES
        invariant forall j :: 0 <= j < i ==> attempts[j].Failed?
        invariant Gained(old(server.pool), server.pool, route, m, made)
        invariant made + Copies(attempts[i..]) == Copies(attempts)
      {
        ghost var mid := server.pool;
        CopiesStep(attempts, i);
        ok := PublishOnce(exchange, key, m, attempts[i]);
        GainedMore(old(server.pool), mid, server.pool, route, m, made, Copies([attempts[i]]));
        made := made + Copies([attempts[i]]);
        if ok {
          return;
        }
      }
      ok := false;
    }
  }

  /** matched.events. Every attempt to publish leaves a copy when it is confirmed, and may leave one when it is not;
      `garbage` counts the bodies that no handler can read. */
  class EventQueue {
    var pool: multiset<Event>
    var garbage: nat

    constructor ()
      ensures pool == multiset{} && garbage == 0
    {
      pool, garbage := multiset{}, 0;
    }

    method Publish(e: Event, attempts: seq<Attempt>) returns (ok: bool)
      modifies this`pool
      ensures ok == Accepted(attempts)
      ensures pool == old(pool)[e := old(pool)[e] + Copies(attempts)]
    {
      pool := pool[e := pool[e] + Copies(attempts)];
      ok := exists i :: 0 <= i < |attempts| && attempts[i].Confirmed?;
    }

    ghost predicate Holds(body: Option<Event>)
      reads this
    {
      if body.Some? then body.value in pool else garbage > 0
    }

    method Ack(body: Option<Event>)
      requires Holds(body)
      modifies this
      ensures pool == old(pool) - if body.Some? then multiset{body.value} else multiset{}
      ensures garbage == old(garbage) - if body.Some? then 0 else 1
    {
      if body.Some? {
        pool := pool - multiset{body.value};
      } else {
        garbage := garbage - 1;
      }
    }
  }
}
