/** The exchanges, queues and bindings every process declares at start-up, and where they send a message
    (section 3.1.3.1 of AMQP 0-9-1 for the direct and the default exchange). */
module Topology {
  import opened Prelude

  /** Names as the programs spell them: matched.events, dispatch.tasks, dispatch.retry.1m ... */
  datatype Queue = MatchedEvents | DispatchTasks | Retry1m | Retry5m | Retry30m | Retry2h | DispatchDead

  /** The default exchange has the empty name. */
  datatype Exchange = DefaultExchange | MatchedExchange | DispatchExchange | DlxExchange

  /** Routing keys; on the default exchange the key is the name of a queue. */
  datatype Key = Matched | Dispatch | Retry(n: nat) | Dead | Named(queue: Queue)

  datatype QueueArgs = QueueArgs(ttl: Option<nat>, deadLetterExchange: Option<Exchange>, deadLetterKey: Option<Key>)

  datatype Binding = Binding(queue: Queue, key: Key, exchange: Exchange)

  datatype Layout = Layout(exchanges: set<Exchange>, queues: map<Queue, QueueArgs>, bindings: set<Binding>)

  datatype RetryQueue = RetryQueue(name: Queue, key: Key, ttl: nat)

  const RETRIES: seq<RetryQueue> := [
    RetryQueue(Retry1m, Retry(1), 60000),
    RetryQueue(Retry5m, Retry(2), 300000),
    RetryQueue(Retry30m, Retry(3), 1800000),
    RetryQueue(Retry2h, Retry(4), 7200000)
  ]

  /** The queues an exchange puts a message into: the default exchange by queue name, a direct one by its bindings. */
  function Route(l: Layout, exchange: Exchange, key: Key): set<Queue> {
    if exchange == DefaultExchange then if key.Named? && key.queue in l.queues then {key.queue} else {}
    else set b | b in l.bindings && b.exchange == exchange && b.key == key :: b.queue
  }

  /** Where a message goes when its time in a queue is up; a queue without a dead-letter exchange drops it. */
  function ExpiryRoute(l: Layout, queue: Queue, key: Key): set<Queue>
    requires queue in l.queues
  {
    var args := l.queues[queue];
    if args.deadLetterExchange.None? then {}
    else Route(l, args.deadLetterExchange.value, if args.deadLetterKey.Some? then args.deadLetterKey.value else key)
  }

  function WithQueue(l: Layout, name: Queue, args: QueueArgs): Layout {
    l.(queues := l.queues[name := args])
  }

  function WithBinding(l: Layout, queue: Queue, key: Key, exchange: Exchange): Layout {
    l.(bindings := l.bindings + {Binding(queue, key, exchange)})
  }

  function RetryArgs(r: RetryQueue): QueueArgs {
    QueueArgs(Some(r.ttl), Some(DispatchExchange), Some(Dispatch))
  }

  /** The retry queues declared so far by the loop over them. */
  function WithRetries(l: Layout, n: nat): Layout
    requires n <= |RETRIES|
  {
    if n == 0 then l
    else
      var r := RETRIES[n - 1];
      WithBinding(WithQueue(WithRetries(l, n - 1), r.name, RetryArgs(r)), r.name, r.key, DlxExchange)
  }

  const PLAIN := QueueArgs(None, None, None)
  const TASKS_ARGS := QueueArgs(None, Some(DlxExchange), None)

  function WithMainQueues(l: Layout): Layout {
    var m := WithBinding(WithQueue(l, MatchedEvents, PLAIN), MatchedEvents, Matched, MatchedExchange);
    WithBinding(WithQueue(m, DispatchTasks, TASKS_ARGS), DispatchTasks, Dispatch, DispatchExchange)
  }

  function WithDeadQueue(l: Layout): Layout {
    WithBinding(WithQueue(l, DispatchDead, PLAIN), DispatchDead, Dead, DlxExchange)
  }

  /** What a broker holds once everything is declared. */
  const DECLARED := Layout(
    {MatchedExchange, DispatchExchange, DlxExchange},
    map[MatchedEvents := PLAIN, DispatchTasks := TASKS_ARGS,
        Retry1m := RetryArgs(RETRIES[0]), Retry5m := RetryArgs(RETRIES[1]),
        Retry30m := RetryArgs(RETRIES[2]), Retry2h := RetryArgs(RETRIES[3]), DispatchDead := PLAIN],
    {Binding(MatchedEvents, Matched, MatchedExchange), Binding(DispatchTasks, Dispatch, DispatchExchange),
     Binding(Retry1m, Retry(1), DlxExchange), Binding(Retry5m, Retry(2), DlxExchange),
     Binding(Retry30m, Retry(3), DlxExchange), Binding(Retry2h, Retry(4), DlxExchange),
     Binding(DispatchDead, Dead, DlxExchange)})

  function Merge(a: Layout, b: Layout): Layout {
    Layout(a.exchanges + b.exchanges, a.queues + b.queues, a.bindings + b.bindings)
  }

  lemma OneByOne(m: Layout)
    ensures var one, two, three := WithRetries(m, 1), WithRetries(m, 2), WithRetries(m, 3);
            && one == WithBinding(WithQueue(m, Retry1m, RetryArgs(RETRIES[0])), Retry1m, Retry(1), DlxExchange)
            && two == WithBinding(WithQueue(one, Retry5m, RetryArgs(RETRIES[1])), Retry5m, Retry(2), DlxExchange)
            && three == WithBinding(WithQueue(two, Retry30m, RetryArgs(RETRIES[2])), Retry30m, Retry(3), DlxExchange)
  {
    assert WithRetries(m, 0) == m;
  }

  lemma RetryQueuesUnfolded(m: Layout)
    ensures WithRetries(m, 4).queues
         == m.queues[Retry1m := RetryArgs(RETRIES[0])][Retry5m := RetryArgs(RETRIES[1])]
                    [Retry30m := RetryArgs(RETRIES[2])][Retry2h := RetryArgs(RETRIES[3])]
  {
    OneByOne(m);
  }

  lemma RetryBindingsUnfolded(m: Layout)
    ensures WithRetries(m, 4).exchanges == m.exchanges
    ensures WithRetries(m, 4).bindings
         == m.bindings + {Binding(Retry1m, Retry(1), DlxExchange)} + {Binding(Retry5m, Retry(2), DlxExchange)}
            + {Binding(Retry30m, Retry(3), DlxExchange)} + {Binding(Retry2h, Retry(4), DlxExchange)}
  {
    OneByOne(m);
  }

  /** What the declarations make of a layout. */
  function Declare(l: Layout): Layout {
    WithDeadQueue(WithRetries(WithMainQueues(l.(exchanges := l.exchanges + DECLARED.exchanges)), 4))
  }

  lemma AllBindings(l: Layout)
    ensures Declare(l).bindings == l.bindings + DECLARED.bindings
  {
    RetryBindingsUnfolded(WithMainQueues(l.(exchanges := l.exchanges + DECLARED.exchanges)));
  }

  lemma AllQueues(l: Layout)
    ensures Declare(l).queues == l.queues + DECLARED.queues
  {
    RetryQueuesUnfolded(WithMainQueues(l.(exchanges := l.exchanges + DECLARED.exchanges)));
    var two := map[MatchedEvents := PLAIN, DispatchTasks := TASKS_ARGS];
    assert l.queues[MatchedEvents := PLAIN][DispatchTasks := TASKS_ARGS] == l.queues + two;
    var three := OneMore(l.queues, two, Retry1m, RetryArgs(RETRIES[0]));
    var four := OneMore(l.queues, three, Retry5m, RetryArgs(RETRIES[1]));
    var five := OneMore(l.queues, four, Retry30m, RetryArgs(RETRIES[2]));
    var six := OneMore(l.queues, five, Retry2h, RetryArgs(RETRIES[3]));
    var seven := OneMore(l.queues, six, DispatchDead, PLAIN);
    assert seven == DECLARED.queues;
  }

  lemma OneMore(a: map<Queue, QueueArgs>, b: map<Queue, QueueArgs>, name: Queue, args: QueueArgs)
    returns (b': map<Queue, QueueArgs>)
    ensures b' == b[name := args] && (a + b)[name := args] == a + b'
  {
    b' := b[name := args];
  }

  lemma AllExchanges(l: Layout)
    ensures Declare(l).exchanges == l.exchanges + DECLARED.exchanges
  {
    RetryBindingsUnfolded(WithMainQueues(l.(exchanges := l.exchanges + DECLARED.exchanges)));
  }

  lemma AllDeclared(l: Layout)
    ensures Declare(l) == Merge(l, DECLARED)
  {
    AllExchanges(l);
    AllBindings(l);
    AllQueues(l);
  }

  /** A declared queue may only be declared again with the same arguments. */
  class Channel {
    var layout: Layout
    var credit: nat

    /** `credit` calls succeed before the connection is lost. */
    constructor (layout: Layout, credit: nat)
      ensures this.layout == layout && this.credit == credit
    {
      this.layout, this.credit := layout, credit;
    }

    method ExchangeDeclare(name: Exchange) returns (ok: bool)
      modifies this
      ensures ok == (old(credit) > 0)
      ensures credit == if ok then old(credit) - 1 else old(credit)
      ensures layout == if ok then old(layout).(exchanges := old(layout).exchanges + {name}) else old(layout)
    {
      ok := credit > 0;
      if ok {
        credit := credit - 1;
        layout := layout.(exchanges := layout.exchanges + {name});
      }
    }

    method QueueDeclare(name: Queue, args: QueueArgs) returns (ok: bool)
      modifies this
      ensures ok == (old(credit) > 0 && (name in old(layout).queues ==> old(layout).queues[name] == args))
      ensures credit == if ok then old(credit) - 1 else old(credit)
      ensures layout == if ok then WithQueue(old(layout), name, args) else old(layout)
    {
      ok := credit > 0 && (name in layout.queues ==> layout.queues[name] == args);
      if ok {
        credit := credit - 1;
        layout := WithQueue(layout, name, args);
      }
    }

    method QueueBind(queue: Queue, key: Key, exchange: Exchange) returns (ok: bool)
      modifies this
      ensures ok == (old(credit) > 0)
      ensures credit == if ok then old(credit) - 1 else old(credit)
      ensures layout == if ok then WithBinding(old(layout), queue, key, exchange) else old(layout)
    {
      ok := credit > 0;
      if ok {
        credit := credit - 1;
        layout := WithBinding(layout, queue, key, exchange);
      }
    }
  }

  /** The queue does not exist with other arguments than those of the standard layout. */
  ghost predicate Fits(l: Layout, q: Queue) {
    q in l.queues && q in DECLARED.queues ==> l.queues[q] == DECLARED.queues[q]
  }

  ghost predicate Compatible(l: Layout) {
    forall q :: Fits(l, q)
  }

  /** What was there stays as it was, and only parts of the standard layout are new. */
  ghost predicate Grown(l: Layout, l': Layout) {
    && l.exchanges <= l'.exchanges <= l.exchanges + DECLARED.exchanges
    && l.bindings <= l'.bindings <= l.bindings + DECLARED.bindings
    && (forall q :: q in l.queues ==> q in l'.queues && l'.queues[q] == l.queues[q])
    && (forall q :: q in l'.queues ==> q in l.queues || (q in DECLARED.queues && l'.queues[q] == DECLARED.queues[q]))
  }

  lemma GrownTwice(a: Layout, b: Layout, c: Layout)
    requires Grown(a, b) && Grown(b, c)
    ensures Grown(a, c)
  {
  }

  lemma GrownFits(l: Layout, l': Layout, q: Queue)
    requires Grown(l, l')
    ensures Fits(l', q) <==> Fits(l, q)
  {
  }

  /** A queue with its binding. */
  method DeclareBound(ch: Channel, name: Queue, args: QueueArgs, key: Key, exchange: Exchange) returns (ok: bool)
    requires name in DECLARED.queues && args == DECLARED.queues[name]
    requires Binding(name, key, exchange) in DECLARED.bindings
    modifies ch
    ensures ok == (2 <= old(ch.credit) && Fits(old(ch.layout), name))
    ensures ok ==> ch.credit == old(ch.credit) - 2
    ensures ok ==> ch.layout == WithBinding(WithQueue(old(ch.layout), name, args), name, key, exchange)
    ensures Grown(old(ch.layout), ch.layout)
  {
    ok := ch.QueueDeclare(name, args);
    if !ok {
      return;
    }
    ok := ch.QueueBind(name, key, exchange);
  }

  /** Seventeen declarations, stopping at the first that fails: because the connection is lost, or because a queue is
      there with other arguments. Declaring again what is there changes nothing. */
  method DeclareTopology(ch: Channel) returns (ok: bool)
    modifies ch
    ensures ok == (17 <= old(ch.credit) && Compatible(old(ch.layout)))
    ensures ok ==> ch.layout == Merge(old(ch.layout), DECLARED)
    ensures Grown(old(ch.layout), ch.layout)
  {
    ghost var l := old(ch.layout);
    AllNames(l);
    ok := DeclareExchanges(ch);
    if !ok {
      return;
    }
    ok := DeclareMainQueues(ch);
    if !ok {
      return;
    }
    ghost var base := ch.layout;
    ok := DeclareRetryQueues(ch);
    GrownTwice(l, base, ch.layout);
    ghost var mid := ch.layout;
    forall q ensures Fits(base, q) <==> Fits(l, q) {
      GrownFits(l, base, q);
    }
    if !ok {
      return;
    }
    ok := DeclareBound(ch, DispatchDead, PLAIN, Dead, DlxExchange);
    GrownTwice(l, mid, ch.layout);
    GrownFits(l, mid, DispatchDead);
    AllDeclared(l);
  }

  lemma AllNames(l: Layout)
    ensures Compatible(l) <==>
              && Fits(l, MatchedEvents) && Fits(l, DispatchTasks) && Fits(l, DispatchDead)
              && Fits(l, Retry1m) && Fits(l, Retry5m) && Fits(l, Retry30m) && Fits(l, Retry2h)
  {
  }

  method DeclareRetryQueues(ch: Channel) returns (ok: bool)
    modifies ch
    ensures ok == (8 <= old(ch.credit) && forall i :: 0 <= i < 4 ==> Fits(old(ch.layout), RETRIES[i].name))
    ensures ok ==> ch.credit == old(ch.credit) - 8 && ch.layout == WithRetries(old(ch.layout), 4)
    ensures Grown(old(ch.layout), ch.layout)
  {
    for i := 0 to 4
      invariant ch.credit + 2 * i == old(ch.credit) && ch.layout == WithRetries(old(ch.layout), i)
      invariant Grown(old(ch.layout), ch.layout) && forall j :: 0 <= j < i ==> Fits(old(ch.layout), RETRIES[j].name)
    {
      ghost var mid := ch.layout;
      var r := RETRIES[i];
      GrownFits(old(ch.layout), mid, r.name);
      ok := DeclareBound(ch, r.name, RetryArgs(r), r.key, DlxExchange);
      GrownTwice(old(ch.layout), mid, ch.layout);
      if !ok {
        return;
      }
    }
    ok := true;
  }

  method DeclareExchanges(ch: Channel) returns (ok: bool)
    modifies ch
    ensures ok == (3 <= old(ch.credit)) && (ok ==> ch.credit == old(ch.credit) - 3)
    ensures ok ==> ch.layout == old(ch.layout).(exchanges := old(ch.layout).exchanges + DECLARED.exchanges)
    ensures Grown(old(ch.layout), ch.layout)
  {
    var names := [MatchedExchange, DispatchExchange, DlxExchange];
    for i := 0 to 3
      invariant ch.credit + i == old(ch.credit)
      invariant ch.layout == old(ch.layout).(exchanges := old(ch.layout).exchanges + set n | n in names[..i])
    {
      ok := ch.ExchangeDeclare(names[i]);
      if !ok {
        return;
      }
      assert names[..i + 1] == names[..i] + [names[i]];
    }
    assert names[..3] == names && (set n | n in names) == DECLARED.exchanges;
    ok := true;
  }

  method DeclareMainQueues(ch: Channel) returns (ok: bool)
    modifies ch
    ensures ok == (4 <= old(ch.credit) && Fits(old(ch.layout), MatchedEvents) && Fits(old(ch.layout), DispatchTasks))
    ensures ok ==> ch.credit == old(ch.credit) - 4 && ch.layout == WithMainQueues(old(ch.layout))
    ensures Grown(old(ch.layout), ch.layout)
  {
    ok := DeclareBound(ch, MatchedEvents, PLAIN, Matched, MatchedExchange);
    if !ok {
      return;
    }
    ok := DeclareBound(ch, DispatchTasks, TASKS_ARGS, Dispatch, DispatchExchange);
  }

  /** Every route the programs rely on leads to one queue, and every retry queue leads back to the tasks. */
  lemma Routes()
    ensures Route(DECLARED, MatchedExchange, Matched) == {MatchedEvents}
    ensures Route(DECLARED, DispatchExchange, Dispatch) == {DispatchTasks}
    ensures Route(DECLARED, DefaultExchange, Named(DispatchDead)) == {DispatchDead}
    ensures forall i :: 0 <= i < 4 ==> Route(DECLARED, DlxExchange, RETRIES[i].key) == {RETRIES[i].name}
    ensures forall i, key :: 0 <= i < 4 ==>
              RETRIES[i].name in DECLARED.queues && ExpiryRoute(DECLARED, RETRIES[i].name, key) == {DispatchTasks}
  {
  }
}
