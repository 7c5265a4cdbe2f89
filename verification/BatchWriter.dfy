/** The writer of raw events: a buffer per chain, flushed when it is full, at every tick and at the end. */
module BatchWriter {
  import opened Prelude

  const MAX_BATCH: nat := 100

  /** A raw event; what is in it does not matter here. */
  type Item = nat

  /** One call of the insert, and whether it went through; a batch that did not is dropped. */
  datatype Batch = Batch(items: seq<Item>, stored: bool)

  datatype ChainState = ChainState(buffer: seq<Item>, batches: seq<Batch>)

  /** What the loop wakes up for; `failing` are the chains whose inserts fail meanwhile. */
  datatype Input = Received(chain: string, item: Item, failing: set<string>) | Tick(failing: set<string>)

  // --- One chain ------------------------------------------------------------------------------------------------

  function Flushed(s: ChainState, ok: bool): ChainState {
    if s.buffer == [] then s else ChainState([], s.batches + [Batch(s.buffer, ok)])
  }

  function Taken(s: ChainState, item: Item, ok: bool): ChainState {
    var t := s.(buffer := s.buffer + [item]);
    if |t.buffer| >= MAX_BATCH then Flushed(t, ok) else t
  }

  function Next(s: ChainState, chain: string, input: Input): ChainState {
    var ok := chain !in input.failing;
    match input
    case Received(c, item, _) => if c == chain then Taken(s, item, ok) else s
    case Tick(_) => Flushed(s, ok)
  }

  function After(s: ChainState, chain: string, inputs: seq<Input>): ChainState {
    if inputs == [] then s
    else Next(After(s, chain, inputs[..|inputs| - 1]), chain, inputs[|inputs| - 1])
  }

  const EMPTY := ChainState([], [])

  // --- The writer -----------------------------------------------------------------------------------------------

  class RawEventStore {
    var rows: map<string, seq<Item>>
    ghost var calls: map<string, seq<Batch>>

    constructor ()
      ensures Valid() && calls == map[] && rows == map[]
    {
      rows, calls := map[], map[];
    }

    /** The table of a chain holds what the calls that went through brought, in their order. */
    ghost predicate Valid()
      reads this
    {
      forall chain :: Of(rows, chain) == StoredIn(Of(calls, chain))
    }

    method BatchInsert(chain: string, items: seq<Item>, fails: bool) returns (ok: bool)
      requires Valid()
      modifies this
      ensures Valid() && ok == !fails
      ensures calls == old(calls)[chain := Of(old(calls), chain) + [Batch(items, ok)]]
    {
      ok := !fails;
      ghost var rows0, calls0 := rows, calls;
      assert Of(rows0, chain) == StoredIn(Of(calls0, chain));
      StoredAppend(Of(calls, chain), Batch(items, ok));
      calls := calls[chain := Of(calls, chain) + [Batch(items, ok)]];
      if ok {
        rows := rows[chain := (if chain in rows then rows[chain] else []) + items];
      }
      forall c ensures Of(rows, c) == StoredIn(Of(calls, c)) {
        assert Of(rows0, c) == StoredIn(Of(calls0, c));
      }
    }
  }

  ghost function Of<T>(m: map<string, seq<T>>, chain: string): seq<T> {
    if chain in m then m[chain] else []
  }

  function StoredIn(batches: seq<Batch>): seq<Item> {
    if batches == [] then []
    else
      var b := batches[|batches| - 1];
      if b.stored then StoredIn(batches[..|batches| - 1]) + b.items else StoredIn(batches[..|batches| - 1])
  }

  lemma StoredAppend(batches: seq<Batch>, b: Batch)
    ensures StoredIn(batches + [b]) == if b.stored then StoredIn(batches) + b.items else StoredIn(batches)
  {
    assert (batches + [b])[..|batches|] == batches;
  }

  ghost function ViewOf(buffers: map<string, seq<Item>>, calls: map<string, seq<Batch>>, chain: string): ChainState {
    ChainState(Of(buffers, chain), Of(calls, chain))
  }

  /** All chains but those left are flushed. */
  ghost predicate FlushedBut(rest: set<string>, b0: map<string, seq<Item>>, c0: map<string, seq<Batch>>,
                             b: map<string, seq<Item>>, calls: map<string, seq<Batch>>, failing: set<string>) {
    forall c :: ViewOf(b, calls, c)
        == if c in rest then ViewOf(b0, c0, c) else Flushed(ViewOf(b0, c0, c), c !in failing)
  }

  lemma OneLess(rest: set<string>, chain: string, b0: map<string, seq<Item>>, c0: map<string, seq<Batch>>,
                b1: map<string, seq<Item>>, c1: map<string, seq<Batch>>,
                b2: map<string, seq<Item>>, c2: map<string, seq<Batch>>, failing: set<string>)
    requires chain in rest && FlushedBut(rest, b0, c0, b1, c1, failing)
    requires ViewOf(b2, c2, chain) == Flushed(ViewOf(b1, c1, chain), chain !in failing)
    requires forall c :: c != chain ==> ViewOf(b2, c2, c) == ViewOf(b1, c1, c)
    ensures FlushedBut(rest - {chain}, b0, c0, b2, c2, failing)
  {
  }

  /** One buffer handed over. */
  lemma FlushedView(b: map<string, seq<Item>>, calls: map<string, seq<Batch>>, chain: string, ok: bool)
    requires Of(b, chain) != []
    ensures var b', calls' := b[chain := []], calls[chain := Of(calls, chain) + [Batch(Of(b, chain), ok)]];
            && ViewOf(b', calls', chain) == Flushed(ViewOf(b, calls, chain), ok)
            && forall c :: c != chain ==> ViewOf(b', calls', c) == ViewOf(b, calls, c)
  {
  }

  class Writer {
    const store: RawEventStore
    var buffers: map<string, seq<Item>>

    constructor (store: RawEventStore)
      requires store.Valid() && store.calls == map[]
      ensures this.store == store && forall chain :: ViewOf(buffers, store.calls, chain) == EMPTY
    {
      this.store, buffers := store, map[];
    }

    method Flush(chain: string, failing: set<string>)
      requires store.Valid()
      modifies this, store
      ensures store.Valid()
      ensures ViewOf(buffers, store.calls, chain)
              == Flushed(ViewOf(old(buffers), old(store.calls), chain), chain !in failing)
      ensures forall c :: c != chain ==> ViewOf(buffers, store.calls, c) == ViewOf(old(buffers), old(store.calls), c)
      ensures buffers.Keys == old(buffers.Keys)
    {
      var items := if chain in buffers then buffers[chain] else [];
      if |items| == 0 {
        return;
      }
      ghost var b, c := buffers, store.calls;
      buffers := buffers[chain := []];
      var ok := store.BatchInsert(chain, items, chain in failing);
      FlushedView(b, c, chain, ok);
    }

    /** Every chain once, in any order. */
    method FlushAll(failing: set<string>)
      requires store.Valid()
      modifies this, store
      ensures store.Valid()
      ensures forall c ::
              ViewOf(buffers, store.calls, c) == Flushed(ViewOf(old(buffers), old(store.calls), c), c !in failing)
    {
      ghost var b0, c0 := buffers, store.calls;
      var rest := buffers.Keys;
      while rest != {}
        invariant store.Valid() && rest <= buffers.Keys == b0.Keys
        invariant FlushedBut(rest, b0, c0, buffers, store.calls, failing)
        decreases |rest|
      {
        var chain :| chain in rest;
        ghost var b1, c1 := buffers, store.calls;
        Flush(chain, failing);
        OneLess(rest, chain, b0, c0, b1, c1, buffers, store.calls, failing);
        rest := rest - {chain};
      }
    }

    method Receive(chain: string, item: Item, failing: set<string>)
      requires store.Valid()
      modifies this, store
      ensures store.Valid()
      ensures forall c :: ViewOf(buffers, store.calls, c)
                       == Next(ViewOf(old(buffers), old(store.calls), c), c, Received(chain, item, failing))
    {
      buffers := buffers[chain := (if chain in buffers then buffers[chain] else []) + [item]];
      if |buffers[chain]| >= MAX_BATCH {
        Flush(chain, failing);
      }
    }

    /** Runs on the given inputs, and flushes what is left when it is cancelled. */
    method Run(inputs: seq<Input>, failingAtEnd: set<string>)
      requires store.Valid()
      modifies this, store
      ensures store.Valid()
      ensures forall c :: ViewOf(buffers, store.calls, c)
                       == Flushed(After(ViewOf(old(buffers), old(store.calls), c), c, inputs), c !in failingAtEnd)
    {
      for i := 0 to |inputs|
        invariant store.Valid()
        invariant forall c ::
                  ViewOf(buffers, store.calls, c) == After(ViewOf(old(buffers), old(store.calls), c), c, inputs[..i])
      {
        assert inputs[..i + 1][..i] == inputs[..i];
        match inputs[i]
        case Received(chain, item, failing) => Receive(chain, item, failing);
        case Tick(failing) => FlushAll(failing);
      }
      assert inputs[..|inputs|] == inputs;
      FlushAll(failingAtEnd);
    }
  }

  // --- Conservation ---------------------------------------------------------------------------------------------

  /** The items received for a chain, in order. */
  function ReceivedFor(chain: string, inputs: seq<Input>): seq<Item> {
    if inputs == [] then []
    else
      var last, prior := inputs[|inputs| - 1], ReceivedFor(chain, inputs[..|inputs| - 1]);
      if last.Received? && last.chain == chain then prior + [last.item] else prior
  }

  function Concat(batches: seq<Batch>): seq<Item> {
    if batches == [] then [] else Concat(batches[..|batches| - 1]) + batches[|batches| - 1].items
  }

  lemma ConcatAppend(batches: seq<Batch>, b: Batch)
    ensures Concat(batches + [b]) == Concat(batches) + b.items
  {
    assert (batches + [b])[..|batches|] == batches;
  }

  function All(s: ChainState): seq<Item> {
    Concat(s.batches) + s.buffer
  }

  ghost predicate Sized(s: ChainState) {
    |s.buffer| < 100 && forall k :: 0 <= k < |s.batches| ==> 1 <= |s.batches[k].items| <= 100
  }

  lemma FlushedKeeps(s: ChainState, ok: bool)
    requires |s.buffer| <= MAX_BATCH && Sized(s.(buffer := []))
    ensures All(Flushed(s, ok)) == All(s) && Flushed(s, ok).buffer == [] && Sized(Flushed(s, ok))
  {
    if s.buffer != [] {
      ConcatAppend(s.batches, Batch(s.buffer, ok));
    }
  }

  lemma TakenKeeps(s: ChainState, item: Item, ok: bool)
    requires Sized(s)
    ensures All(Taken(s, item, ok)) == All(s) + [item] && Sized(Taken(s, item, ok))
  {
    var t := s.(buffer := s.buffer + [item]);
    assert All(t) == All(s) + [item];
    if |t.buffer| >= MAX_BATCH {
      FlushedKeeps(t, ok);
    }
  }

  /** At every moment the items received for a chain are, in order, those flushed and then those buffered; no batch is
      empty or larger than 100, and no buffer as large. */
  lemma {:induction false} Conserved(chain: string, inputs: seq<Input>)
    ensures All(After(EMPTY, chain, inputs)) == ReceivedFor(chain, inputs) && Sized(After(EMPTY, chain, inputs))
  {
    if inputs == [] {
    } else {
      var s, last := After(EMPTY, chain, inputs[..|inputs| - 1]), inputs[|inputs| - 1];
      Conserved(chain, inputs[..|inputs| - 1]);
      if last.Tick? {
        FlushedKeeps(s, chain !in last.failing);
      } else if last.chain == chain {
        TakenKeeps(s, last.item, chain !in last.failing);
      }
    }
  }

  // --- Ticks ----------------------------------------------------------------------------------------------------

  /** Right after a tick nothing is buffered: everything received so far was handed over. */
  lemma TickIsComplete(chain: string, inputs: seq<Input>, failing: set<string>)
    ensures var s := After(EMPTY, chain, inputs + [Tick(failing)]);
            s.buffer == [] && Concat(s.batches) == ReceivedFor(chain, inputs)
  {
    assert (inputs + [Tick(failing)])[..|inputs|] == inputs;
    Conserved(chain, inputs);
    FlushedKeeps(After(EMPTY, chain, inputs), chain !in failing);
  }

  ghost predicate NoTick(inputs: seq<Input>) {
    forall i :: 0 <= i < |inputs| ==> inputs[i].Received?
  }

  /** t is s after n more items and no tick: a batch of 100 for every 100 of them, and the rest buffered. */
  ghost predicate Filled(s: ChainState, t: ChainState, n: nat) {
    && |t.buffer| == n % 100 && |t.batches| == |s.batches| + n / 100
    && forall k :: 0 <= k < |t.batches| ==>
         if k < |s.batches| then t.batches[k] == s.batches[k] else |t.batches[k].items| == 100
  }

  lemma FilledMore(s: ChainState, t: ChainState, n: nat, item: Item, ok: bool)
    requires Filled(s, t, n)
    ensures Filled(s, Taken(t, item, ok), n + 1)
  {
  }

  /** Between two ticks a buffer is handed over exactly when it holds 100 items. */
  lemma {:induction false} OnlyFullBetweenTicks(s: ChainState, chain: string, inputs: seq<Input>)
    requires s.buffer == [] && NoTick(inputs)
    ensures Filled(s, After(s, chain, inputs), |ReceivedFor(chain, inputs)|)
  {
    if inputs == [] {
    } else {
      var prior, last := inputs[..|inputs| - 1], inputs[|inputs| - 1];
      OnlyFullBetweenTicks(s, chain, prior);
      if last.chain == chain {
        FilledMore(s, After(s, chain, prior), |ReceivedFor(chain, prior)|, last.item, chain !in last.failing);
      }
    }
  }

  lemma {:induction false} AfterBoth(s: ChainState, chain: string, inputs: seq<Input>, more: seq<Input>)
    ensures After(s, chain, inputs + more) == After(After(s, chain, inputs), chain, more)
    decreases |more|
  {
    if more == [] {
      assert inputs + more == inputs;
    } else {
      AfterBoth(s, chain, inputs, more[..|more| - 1]);
      assert (inputs + more)[..|inputs + more| - 1] == inputs + more[..|more| - 1];
    }
  }

  /** Whatever happened before a tick, what comes after it is handed over by the hundred. */
  lemma SinceTheTick(chain: string, inputs: seq<Input>, failing: set<string>, more: seq<Input>)
    requires NoTick(more)
    ensures Filled(After(EMPTY, chain, inputs + [Tick(failing)]), After(EMPTY, chain, inputs + [Tick(failing)] + more),
                   |ReceivedFor(chain, more)|)
  {
    TickIsComplete(chain, inputs, failing);
    AfterBoth(EMPTY, chain, inputs + [Tick(failing)], more);
    OnlyFullBetweenTicks(After(EMPTY, chain, inputs + [Tick(failing)]), chain, more);
  }

  ghost predicate AllAre(batches: seq<Batch>, stored: bool) {
    forall b :: b in batches ==> b.stored == stored
  }

  lemma FlushedAre(s: ChainState, ok: bool)
    requires AllAre(s.batches, ok)
    ensures AllAre(Flushed(s, ok).batches, ok)
  {
  }

  /** Batches are stored while inserts go through, and are not while they fail. */
  lemma {:induction false} StoredUnlessFailing(chain: string, inputs: seq<Input>, ok: bool)
    requires forall input :: input in inputs ==> (chain in input.failing <==> !ok)
    ensures AllAre(After(EMPTY, chain, inputs).batches, ok)
  {
    if inputs == [] {
    } else {
      var s, last := After(EMPTY, chain, inputs[..|inputs| - 1]), inputs[|inputs| - 1];
      StoredUnlessFailing(chain, inputs[..|inputs| - 1], ok);
      assert last in inputs;
      if last.Tick? {
        FlushedAre(s, ok);
      } else if last.chain == chain {
        FlushedAre(s.(buffer := s.buffer + [last.item]), ok);
      }
    }
  }

  /** A cancelled writer has handed over everything it received, in batches of 1 to 100. */
  lemma CancelledIsComplete(chain: string, inputs: seq<Input>, ok: bool)
    ensures var s := Flushed(After(EMPTY, chain, inputs), ok);
            s.buffer == [] && Concat(s.batches) == ReceivedFor(chain, inputs) && Sized(s)
  {
    Conserved(chain, inputs);
    FlushedKeeps(After(EMPTY, chain, inputs), ok);
    assert All(Flushed(After(EMPTY, chain, inputs), ok)) == Concat(Flushed(After(EMPTY, chain, inputs), ok).batches);
  }

  /** What was flushed is what was stored, and what was dropped with the failed inserts. */
  lemma {:induction false} StoredOrDropped(batches: seq<Batch>)
    ensures |Concat(batches)| == |StoredIn(batches)| + Dropped(batches)
    ensures multiset(StoredIn(batches)) <= multiset(Concat(batches))
    ensures (forall k :: 0 <= k < |batches| ==> batches[k].stored) ==> StoredIn(batches) == Concat(batches)
  {
    if batches == [] {
    } else {
      StoredOrDropped(batches[..|batches| - 1]);
    }
  }

  function Dropped(batches: seq<Batch>): nat {
    if batches == [] then 0
    else Dropped(batches[..|batches| - 1]) + if batches[|batches| - 1].stored then 0 else |batches[|batches| - 1].items|
  }
}
