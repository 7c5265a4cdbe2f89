/** How often an application can be sent one event for one address, with expander, sender and dead-letter handler
    working on the same log table. */
module RequestBound {
  import opened Prelude
  import opened Base58
  import opened Events
  import opened Dispatcher
  import opened Delivery
  import opened Expander
  import opened AttemptBound
  import opened Sums
  import AllowList
  import WatchedAddress

  datatype System = System(rows: Rows, machine: State)

  /** The expander on one message, redelivered or not; or any step of the retry machine but a creation. */
  datatype Move =
    | Expand(apps: map<nat, AllowList.App>, e: Event, f: Faults, was: seq<WatchedAddress.Row>, creations: seq<Step>)
    | Deliver(step: Step)

  ghost predicate Moved(sum: Checksum, n: nat, s: System, move: Move, s': System) {
    && s'.machine.logs == LogsOf(s'.rows)
    && match move
       case Expand(apps, e, f, was, creations) =>
         && Expanded(sum, apps, e, f, was, |was|, s.rows, s'.rows)
         && Run(s.machine, creations, s'.machine, n, false) && OnlyCreates(creations, KeyOf(e), s.rows, s'.rows)
       case Deliver(step) =>
         && !step.Create? && Enabled(s.machine, step, n) && s'.machine == Apply(s.machine, step, n)
         && SameKeys(s.rows, s'.rows)
  }

  /** `states` are those the moves lead through. */
  ghost predicate History(sum: Checksum, n: nat, states: seq<System>, moves: seq<Move>) {
    && |states| == |moves| + 1 && states[0] == System(map[], EMPTY)
    && forall i :: 0 <= i < |moves| ==> MovedAt(sum, n, states, moves, i)
  }

  ghost predicate MovedAt(sum: Checksum, n: nat, states: seq<System>, moves: seq<Move>, i: nat)
    requires i < |moves| && |states| == |moves| + 1
  {
    Moved(sum, n, states[i], moves[i], states[i + 1])
  }

  /** The requests made for the rows of a pair. */
  ghost function Requests(s: System, eventId: string, addressId: nat): nat {
    Total(id => s.machine.http[id], multiset(RowsFor(s.rows, eventId, addressId)))
  }

  ghost predicate Sound(n: nat, s: System, id: nat) {
    UniqueRows(s.rows) && Positive(s.machine.logs) && (0 < id ==> Bounded(s.machine, n, id))
    && s.machine.logs == LogsOf(s.rows)
  }

  lemma SameKeysSameRows(rows: Rows, rows': Rows, eventId: string, addressId: nat)
    requires SameKeys(rows, rows')
    ensures RowsFor(rows', eventId, addressId) == RowsFor(rows, eventId, addressId)
  {
    forall id | id in rows
      ensures rows'[id].eventId == rows[id].eventId && rows'[id].addressId == rows[id].addressId
    {
      assert rows'[id].(log := rows[id].log) == rows[id];
    }
  }

  ghost predicate Positive(logs: map<nat, Log>) {
    forall id :: id in logs ==> 0 < id
  }

  lemma StepKeepsPositive(s: State, step: Step, n: nat)
    requires Enabled(s, step, n) && Positive(s.logs)
    ensures Positive(Apply(s, step, n).logs)
  {
    match step
    case Handle(m, response, _) =>
      if m.task.Some? {
        RowsStay(s.logs, m.task.value.logId, response);
        SameRowsPositive(s.logs, LogsAfter(s.logs, m.task.value.logId, response));
      }
    case _ =>
  }

  lemma SameRowsPositive(logs: map<nat, Log>, logs': map<nat, Log>)
    requires Positive(logs) && logs'.Keys == logs.Keys
    ensures Positive(logs')
  {
  }

  lemma {:induction false} RunKeepsPositive(s: State, steps: seq<Step>, s': State, n: nat)
    requires Run(s, steps, s', n, false) && Positive(s.logs)
    ensures Positive(s'.logs)
    decreases |steps|
  {
    if steps == [] {
    } else {
      var m := Apply(s, steps[0], n);
      StepKeepsPositive(s, steps[0], n);
      RunKeepsPositive(m, steps[1..], s', n);
    }
  }

  lemma MoveKeepsSound(sum: Checksum, n: nat, s: System, move: Move, s': System, id: nat)
    requires Sound(n, s, id) && Moved(sum, n, s, move, s')
    ensures Sound(n, s', id)
  {
    match move
    case Expand(apps, e, f, was, creations) =>
      NeverTwice(sum, apps, e, f, was, s.rows, s'.rows);
      RunKeepsPositive(s.machine, creations, s'.machine, n);
      if 0 < id {
        RunKeepsBound(s.machine, creations, s'.machine, n, id);
      }
    case Deliver(step) =>
      StepKeepsPositive(s.machine, step, n);
      forall eventId, a ensures CountFor(s'.rows, eventId, a) <= 1 {
        SameKeysSameRows(s.rows, s'.rows, eventId, a);
        assert CountFor(s.rows, eventId, a) <= 1;
      }
      if 0 < id {
        StepKeepsBound(s.machine, step, n, id);
      }
  }

  lemma StartSound(n: nat, id: nat)
    ensures Sound(n, System(map[], EMPTY), id)
  {
    TotalZero(WeightOf(n, id), EMPTY.pool);
    assert forall eventId, a :: RowsFor(map[], eventId, a) == {};
  }

  lemma {:induction false} AllSound(sum: Checksum, n: nat, states: seq<System>, moves: seq<Move>, i: nat, id: nat)
    requires History(sum, n, states, moves) && i < |states|
    ensures Sound(n, states[i], id)
  {
    if i == 0 {
      StartSound(n, id);
    } else {
      AllSound(sum, n, states, moves, i - 1, id);
      assert MovedAt(sum, n, states, moves, i - 1);
      MoveKeepsSound(sum, n, states[i - 1], moves[i - 1], states[i], id);
    }
  }

  /** Whatever messages reach the expander, however often and with whatever faults, and whatever sender and dead-letter
      handler do in between, a pair has at most one row. */
  lemma OneRowEver(sum: Checksum, n: nat, states: seq<System>, moves: seq<Move>, i: nat, eventId: string, a: nat)
    requires History(sum, n, states, moves) && i < |states|
    ensures CountFor(states[i].rows, eventId, a) <= 1
  {
    AllSound(sum, n, states, moves, i, 0);
  }

  lemma TotalOfOne<T(!new)>(w: T -> nat, x: T)
    ensures Total(w, multiset{x}) == w(x)
  {
    TotalPick(w, multiset{x}, x);
    assert multiset{x} - multiset{x} == multiset{};
  }

  /** However often a matched event is redelivered and whatever the publish faults, an event causes at most 363
      acknowledged requests for an address; at most 5 when no publish leaves a second copy. */
  lemma PairBounded(sum: Checksum, n: nat, states: seq<System>, moves: seq<Move>, i: nat, eventId: string, a: nat)
    requires History(sum, n, states, moves) && i < |states|
    ensures n == 3 ==> Requests(states[i], eventId, a) <= 363
    ensures n == 1 ==> Requests(states[i], eventId, a) <= 5
  {
    var s := states[i];
    var ids := RowsFor(s.rows, eventId, a);
    var w: nat -> nat := id => s.machine.http[id];
    OneRowEver(sum, n, states, moves, i, eventId, a);
    AllSound(sum, n, states, moves, i, 0);
    WeightValues();
    if id :| id in ids {
      assert ids == {id} by {
        if other :| other in ids && other != id {
          assert {id, other} <= ids;
          AtLeastTwo(ids, id, other);
        }
      }
      assert id in s.machine.logs;
      AllSound(sum, n, states, moves, i, id);
      TotalOfOne(w, id);
      assert multiset(ids) == multiset{id};
    } else {
      assert multiset(ids) == multiset{};
    }
  }

  lemma AtLeastTwo(s: set<nat>, a: nat, b: nat)
    requires a in s && b in s && a != b
    ensures |s| >= 2
  {
    assert b in s - {a} && |s - {a}| == |s| - 1;
  }
}
