/** When a finished log row can be changed after all: exactly while a message is left that carries it. */
module TerminalExits {
  import opened Prelude
  import opened Topology
  import opened Delivery

  /** A message some handler will take: from the dead-letter queue, or with a usable header from the others. */
  predicate Live(y: Slot) {
    y.queue.DispatchDead? || (!y.queue.MatchedEvents? && Countable(y.msg))
  }

  /** A message that can change the status: burying a dead row once more does not. */
  predicate Threatens(y: Slot, id: nat, status: Status) {
    Carries(y, id) && Live(y) && !(status.DeadLetter? && y.queue.DispatchDead?)
  }

  ghost predicate Threat(pool: multiset<Slot>, id: nat, status: Status) {
    exists y :: y in pool && Threatens(y, id, status)
  }

  /** Some run changes the status. */
  ghost predicate CanLeave(s: State, n: nat, id: nat)
    requires id in s.logs
  {
    exists steps, s' :: Run(s, steps, s', n, false) && id in s'.logs && s'.logs[id].status != s.logs[id].status
  }

  // --- Without such a message nothing happens ------------------------------------------------------------------

  lemma NoThreatPut(pool: multiset<Slot>, q: Queue, m: Message, k: nat, id: nat, status: Status)
    requires !Threat(pool, id, status) && !Threatens(Slot(q, m), id, status)
    ensures !Threat(Put(pool, q, m, k), id, status)
  {
    forall y | y in Put(pool, q, m, k) ensures !Threatens(y, id, status) {
      assert y == Slot(q, m) || y in pool;
    }
  }

  /** A message that was handled is gone or has moved on. */
  lemma HandledPool(s: State, m: Message, response: Option<int>, attempts: seq<Attempt>, rest: multiset<Slot>, q: Queue)
    requires 0 <= Count(m) && rest == s.pool - multiset{Slot(DispatchTasks, m)} && q == FailureQueue(Count(m) + 1)
    ensures var pool := Handled(s, m, response, attempts).pool;
            pool == rest || pool == Put(rest, q, m.(header := Some(Count(m) + 1)), Copies(attempts))
  {
  }

  lemma NoThreatHandle(s: State, m: Message, response: Option<int>, attempts: seq<Attempt>, id: nat)
    requires Slot(DispatchTasks, m) in s.pool && Countable(m)
    requires id in s.logs && Terminal(s.logs[id]) && !Threat(s.pool, id, s.logs[id].status)
    ensures id in Handled(s, m, response, attempts).logs && Handled(s, m, response, attempts).logs[id] == s.logs[id]
    ensures !Threat(Handled(s, m, response, attempts).pool, id, s.logs[id].status)
  {
    var x := Slot(DispatchTasks, m);
    assert !Threatens(x, id, s.logs[id].status);
    assert !Carries(x, id);
    HandledOther(s, m, response, attempts, id);
    HandledPool(s, m, response, attempts, s.pool - multiset{x}, FailureQueue(Count(m) + 1));
    NoThreatMove(s.pool, s.pool - multiset{x}, m, attempts, id, s.logs[id].status);
  }

  /** Neither the pool without the message nor the one in which it has moved on threatens the row. */
  lemma NoThreatMove(pool: multiset<Slot>, rest: multiset<Slot>, m: Message, attempts: seq<Attempt>, id: nat,
                     status: Status)
    requires 0 <= Count(m) && !Threat(pool, id, status) && rest <= pool && !Carries(Slot(DispatchTasks, m), id)
    ensures !Threat(rest, id, status)
    ensures var c := Count(m) + 1;
            !Threat(Put(rest, FailureQueue(c), m.(header := Some(c)), Copies(attempts)), id, status)
  {
    var c := Count(m) + 1;
    assert forall y :: y in rest ==> y in pool;
    assert !Carries(Slot(FailureQueue(c), m.(header := Some(c))), id);
    NoThreatPut(rest, FailureQueue(c), m.(header := Some(c)), Copies(attempts), id, status);
  }

  lemma NoThreatExpire(s: State, q: Queue, m: Message, id: nat, status: Status)
    requires IsRetryQueue(q) && Slot(q, m) in s.pool && !Threat(s.pool, id, status)
    ensures !Threat(Expired(s, q, m).pool, id, status)
  {
    assert !Threatens(Slot(q, m), id, status);
    var rest := s.pool - multiset{Slot(q, m)};
    assert !Threat(rest, id, status);
    NoThreatPut(rest, DispatchTasks, m, 1, id, status);
  }

  lemma NoThreatStep(s: State, step: Step, n: nat, id: nat)
    requires Enabled(s, step, n) && 0 < id && id in s.logs && Terminal(s.logs[id])
    requires !Threat(s.pool, id, s.logs[id].status)
    ensures id in Apply(s, step, n).logs && Apply(s, step, n).logs[id].status == s.logs[id].status
    ensures !Threat(Apply(s, step, n).pool, id, s.logs[id].status)
  {
    var status := s.logs[id].status;
    match step
    case Create(task, attempts) =>
      NoThreatPut(s.pool, DispatchTasks, Message(Some(task), Some(0)), Copies(attempts), id, status);
    case Resend(task, attempts) =>
      NoThreatPut(s.pool, DispatchTasks, Message(Some(task.(logId := 0)), Some(0)), Copies(attempts), id, status);
    case Handle(m, response, attempts) => NoThreatHandle(s, m, response, attempts, id);
    case Expire(q, m) => NoThreatExpire(s, q, m, id, status);
    case Bury(m) => assert !Threatens(Slot(DispatchDead, m), id, status);
  }

  lemma {:induction false} NoThreatRun(s: State, steps: seq<Step>, s': State, n: nat, id: nat)
    requires 0 < id && id in s.logs && Terminal(s.logs[id]) && !Threat(s.pool, id, s.logs[id].status)
    requires Run(s, steps, s', n, false)
    ensures id in s'.logs && s'.logs[id].status == s.logs[id].status
    decreases |steps|
  {
    if steps == [] {
    } else {
      NoThreatStep(s, steps[0], n, id);
      NoThreatRun(Apply(s, steps[0], n), steps[1..], s', n, id);
    }
  }

  // --- With one, a failed request or a burial does it ----------------------------------------------------------

  lemma OneStep(s: State, step: Step, n: nat)
    requires Enabled(s, step, n)
    ensures Run(s, [step], Apply(s, step, n), n, false)
  {
    assert [step][1..] == [];
  }

  /** Burying the message makes a successful row dead. */
  lemma BuryLeaves(s: State, y: Slot, n: nat, id: nat)
    requires 0 < id && id in s.logs && s.logs[id].status == Success
    requires y in s.pool && Carries(y, id) && y.queue == DispatchDead
    ensures CanLeave(s, n, id)
  {
    OneStep(s, Bury(y.msg), n);
    var s' := Apply(s, Bury(y.msg), n);
    assert s'.logs[id].status == DeadLetter;
  }

  /** Answering the message with an error makes the row failed. */
  lemma HandleLeaves(s: State, y: Slot, n: nat, id: nat, logs: map<nat, Log>)
    requires 0 < id && id in s.logs && Terminal(s.logs[id])
    requires y in s.pool && Carries(y, id) && y.queue == DispatchTasks && Countable(y.msg)
    requires logs == Handled(s, y.msg, Some(500), []).logs
    ensures id in logs && logs[id].status == Failure
    ensures Enabled(s, Handle(y.msg, Some(500), []), n)
  {
  }

  lemma TasksLeave(s: State, y: Slot, n: nat, id: nat)
    requires 0 < id && id in s.logs && Terminal(s.logs[id])
    requires y in s.pool && Carries(y, id) && y.queue == DispatchTasks && Countable(y.msg)
    ensures CanLeave(s, n, id)
  {
    var s' := Handled(s, y.msg, Some(500), []);
    HandleLeaves(s, y, n, id, s'.logs);
    OneStep(s, Handle(y.msg, Some(500), []), n);
  }

  /** From a retry queue, once its time is up. */
  lemma RetryLeaves(s: State, y: Slot, n: nat, id: nat)
    requires 0 < id && id in s.logs && Terminal(s.logs[id])
    requires y in s.pool && Carries(y, id) && IsRetryQueue(y.queue) && Countable(y.msg)
    ensures CanLeave(s, n, id)
  {
    var m := Expired(s, y.queue, y.msg);
    var x := Slot(DispatchTasks, y.msg);
    assert x in m.pool && Carries(x, id);
    var s' := Handled(m, y.msg, Some(500), []);
    HandleLeaves(m, x, n, id, s'.logs);
    OneStep(s, Expire(y.queue, y.msg), n);
    RunSnoc(s, [Expire(y.queue, y.msg)], m, Handle(y.msg, Some(500), []), n);
  }

  /** Success or dead can be left exactly while some message still carries the row: for a dead one, one that is not in
      the dead-letter queue. */
  lemma LeavesIff(s: State, n: nat, id: nat)
    requires 0 < id && id in s.logs && Terminal(s.logs[id])
    ensures CanLeave(s, n, id) <==> Threat(s.pool, id, s.logs[id].status)
  {
    if CanLeave(s, n, id) && !Threat(s.pool, id, s.logs[id].status) {
      var steps, s' :| Run(s, steps, s', n, false) && id in s'.logs && s'.logs[id].status != s.logs[id].status;
      NoThreatRun(s, steps, s', n, id);
    }
    if y :| y in s.pool && Threatens(y, id, s.logs[id].status) {
      if y.queue == DispatchDead {
        BuryLeaves(s, y, n, id);
      } else if y.queue == DispatchTasks {
        TasksLeave(s, y, n, id);
      } else {
        RetryLeaves(s, y, n, id);
      }
    }
  }
}
