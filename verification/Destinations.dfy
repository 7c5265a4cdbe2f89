/** Where requests go: over any history of the log table, a message carries the callback of an application that is to
    hear of its event. */
module Destinations {
  import opened Prelude
  import opened Base58
  import opened Events
  import opened Topology
  import opened Delivery
  import opened Dispatcher
  import opened Expander
  import opened RequestBound
  import AllowList
  import WatchedAddress

  /** The move expanded an event for a subscription whose application is to hear of it, and the row names the two and
      the callback. */
  ghost predicate Addressed(sum: Checksum, move: Move, row: Dispatcher.Row) {
    match move
    case Expand(apps, e, _, was, _) =>
      && row.eventId == KeyOf(e)
      && exists wa :: wa in was && wa.id == row.addressId && wa.appId in apps
                      && row.callbackUrl == apps[wa.appId].callbackUrl && row.callbackUrl != ""
                      && AllowList.IsContractAllowed(sum, AllowedOf(apps[wa.appId].allowed), e.chain, ContractOf(e))
    case Deliver(_) => false
  }

  lemma ForSubscriberIsAddressed(sum: Checksum, move: Move, row: Dispatcher.Row)
    requires move.Expand? && ForSubscriber(sum, move.apps, move.e, move.f, move.was, |move.was|, row)
    ensures Addressed(sum, move, row)
  {
    var i :| 0 <= i < |move.was| && move.was[i].id == row.addressId
             && Passes(sum, move.apps, move.e, move.f, move.was[i])
             && row.callbackUrl == move.apps[move.was[i].appId].callbackUrl;
    assert move.was[i] in move.was;
  }

  /** Every row gained for an event, and every task created for it, is for a subscription whose application accepts the
      event, and goes to the callback of that application. */
  lemma CreatedForSubscribers(sum: Checksum, move: Move, rows: Rows, rows': Rows, id: nat)
    requires move.Expand? && OnlyCreates(move.creations, KeyOf(move.e), rows, rows')
    requires Expanded(sum, move.apps, move.e, move.f, move.was, |move.was|, rows, rows')
    ensures id in rows' && id !in rows ==> Addressed(sum, move, rows'[id])
    ensures forall step :: step in move.creations ==>
              step.Create? && step.task.logId in rows' && SameTarget(step.task, rows'[step.task.logId])
              && Addressed(sum, move, rows'[step.task.logId])
  {
    if id in rows' && id !in rows {
      ForSubscriberIsAddressed(sum, move, rows'[id]);
    }
    forall step | step in move.creations
      ensures step.Create? && step.task.logId in rows' && SameTarget(step.task, rows'[step.task.logId])
              && Addressed(sum, move, rows'[step.task.logId])
    {
      var i :| 0 <= i < |move.creations| && move.creations[i] == step;
      assert TaskOfRow(step.task, KeyOf(move.e), rows, rows');
      ForSubscriberIsAddressed(sum, move, rows'[step.task.logId]);
    }
  }

  predicate SameTarget(task: Task, row: Dispatcher.Row) {
    task.eventId == row.eventId && task.addressId == row.addressId && task.callbackUrl == row.callbackUrl
  }

  /** Every message that carries a row says what the row says. */
  ghost predicate Faithful(pool: multiset<Slot>, rows: Rows) {
    forall y: Slot :: y in pool && y.msg.task.Some? && 0 < y.msg.task.value.logId ==>
      y.msg.task.value.logId in rows && SameTarget(y.msg.task.value, rows[y.msg.task.value.logId])
  }

  lemma PutFaithful(pool: multiset<Slot>, q: Queue, m: Message, k: nat, rows: Rows)
    requires Faithful(pool, rows)
    requires m.task.Some? && 0 < m.task.value.logId ==>
               m.task.value.logId in rows && SameTarget(m.task.value, rows[m.task.value.logId])
    ensures Faithful(Put(pool, q, m, k), rows)
  {
    assert forall y :: y in Put(pool, q, m, k) ==> y in pool || y == Slot(q, m);
  }

  lemma StepFaithful(s: State, step: Step, n: nat, rows: Rows)
    requires Enabled(s, step, n) && !step.Create? && Faithful(s.pool, rows)
    ensures Faithful(Apply(s, step, n).pool, rows)
  {
    match step
    case Resend(task, attempts) =>
      PutFaithful(s.pool, DispatchTasks, Message(Some(task.(logId := 0)), Some(0)), Copies(attempts), rows);
    case Handle(m, response, attempts) =>
      var x := Slot(DispatchTasks, m);
      assert x in s.pool && Faithful(s.pool - multiset{x}, rows);
      PutFaithful(s.pool - multiset{x}, FailureQueue(Count(m) + 1), m.(header := Some(Count(m) + 1)), Copies(attempts),
                  rows);
    case Expire(q, m) =>
      assert Slot(q, m) in s.pool;
      PutFaithful(s.pool - multiset{Slot(q, m)}, DispatchTasks, m, 1, rows);
    case Bury(m) =>
  }

  lemma {:induction false} CreationsFaithful(s: State, steps: seq<Step>, s': State, n: nat, eventId: string,
                                             rows: Rows, rows': Rows)
    requires Run(s, steps, s', n, false) && OnlyCreates(steps, eventId, rows, rows') && Faithful(s.pool, rows')
    ensures Faithful(s'.pool, rows')
    decreases |steps|
  {
    if steps == [] {
    } else {
      assert TaskOfRow(steps[0].task, eventId, rows, rows');
      PutFaithful(s.pool, DispatchTasks, Message(Some(steps[0].task), Some(0)), Copies(steps[0].attempts), rows');
      CreationsFaithful(Apply(s, steps[0], n), steps[1..], s', n, eventId, rows, rows');
    }
  }

  lemma MoveFaithful(sum: Checksum, n: nat, s: System, move: Move, s': System)
    requires Moved(sum, n, s, move, s') && Faithful(s.machine.pool, s.rows)
    ensures Faithful(s'.machine.pool, s'.rows)
  {
    match move
    case Expand(_, e, _, _, creations) =>
      CreationsFaithful(s.machine, creations, s'.machine, n, KeyOf(e), s.rows, s'.rows);
    case Deliver(step) =>
      StepFaithful(s.machine, step, n, s.rows);
      RowsKeepTarget(s.rows, s'.rows);
  }

  lemma RowsKeepTarget(rows: Rows, rows': Rows)
    requires SameKeys(rows, rows')
    ensures forall id, task :: id in rows ==> (SameTarget(task, rows'[id]) <==> SameTarget(task, rows[id]))
  {
    forall id, task | id in rows ensures SameTarget(task, rows'[id]) <==> SameTarget(task, rows[id]) {
      assert rows'[id].(log := rows[id].log) == rows[id];
    }
  }

  lemma StartFaithful(s: System)
    requires s == System(map[], EMPTY)
    ensures Faithful(s.machine.pool, s.rows)
  {
  }

  lemma NextFaithful(sum: Checksum, n: nat, states: seq<System>, moves: seq<Move>, i: nat)
    requires History(sum, n, states, moves) && i < |moves|
    requires Faithful(states[i].machine.pool, states[i].rows)
    ensures Faithful(states[i + 1].machine.pool, states[i + 1].rows)
  {
    assert MovedAt(sum, n, states, moves, i);
    MoveFaithful(sum, n, states[i], moves[i], states[i + 1]);
  }

  lemma {:induction false} AllFaithful(sum: Checksum, n: nat, states: seq<System>, moves: seq<Move>, i: nat)
    requires History(sum, n, states, moves) && i < |states|
    ensures Faithful(states[i].machine.pool, states[i].rows)
  {
    if i == 0 {
      StartFaithful(states[0]);
    } else {
      AllFaithful(sum, n, states, moves, i - 1);
      NextFaithful(sum, n, states, moves, i - 1);
    }
  }

  /** Every row there ever is came from an event and a subscription that are to meet. */
  lemma {:induction false} RowsAddressed(sum: Checksum, n: nat, states: seq<System>, moves: seq<Move>, i: nat,
                                         id: nat) returns (j: nat)
    requires History(sum, n, states, moves) && i < |states| && id in states[i].rows
    ensures j < i && Addressed(sum, moves[j], states[i].rows[id])
  {
    var s, s' := states[i - 1], states[i];
    assert MovedAt(sum, n, states, moves, i - 1);
    if id in s.rows {
      j := RowsAddressed(sum, n, states, moves, i - 1, id);
      if moves[i - 1].Deliver? {
        assert s'.rows[id].(log := s.rows[id].log) == s.rows[id];
      }
    } else {
      ForSubscriberIsAddressed(sum, moves[i - 1], s'.rows[id]);
      j := i - 1;
    }
  }

  /** Over any history with faults and redeliveries, a message that the sender is to send for a row goes to the callback
      of an application with a subscription for that address, which was to hear of that event. */
  lemma RequestsAddressed(sum: Checksum, n: nat, states: seq<System>, moves: seq<Move>, i: nat, x: Slot)
    requires History(sum, n, states, moves) && i < |states|
    requires x in states[i].machine.pool && x.msg.task.Some? && 0 < x.msg.task.value.logId
    ensures var task := x.msg.task.value;
            exists j :: 0 <= j < i
                        && Addressed(sum, moves[j], Dispatcher.Row(task.eventId, task.addressId, task.callbackUrl,
                                                                   Log(Pending, 0)))
  {
    var task := x.msg.task.value;
    AllFaithful(sum, n, states, moves, i);
    var j := RowsAddressed(sum, n, states, moves, i, task.logId);
    var row := states[i].rows[task.logId];
    assert Addressed(sum, moves[j], row.(log := Log(Pending, 0)));
  }
}
