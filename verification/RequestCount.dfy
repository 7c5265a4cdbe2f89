/** What the log row says about the requests that were made for it, with one copy per publication. */
module RequestCount {
  import opened Prelude
  import opened Topology
  import opened Delivery

  /** The row counts the failed requests, and a successful one came last; it is dead after exactly five failures. */
  predicate Told(log: Log, requests: nat) {
    && requests == log.retryCount + (if log.status == Success then 1 else 0)
    && (log.status == Success ==> log.retryCount <= 4)
    && (log.status == DeadLetter ==> log.retryCount == 5)
  }

  ghost predicate Counted(s: State) {
    && (forall id :: id in s.logs ==> Told(s.logs[id], s.http[id]))
    && (forall id :: 0 < id && id !in s.logs ==> s.http[id] == 0)
  }

  lemma CreateCounts(s: State, s': State, task: Task, attempts: seq<Attempt>)
    requires Counted(s) && 0 < task.logId && task.logId !in s.logs && s' == Created(s, task, attempts)
    ensures Counted(s')
  {
    forall id | id in s'.logs ensures Told(s'.logs[id], s'.http[id]) {
      assert id in s.logs ==> Told(s.logs[id], s.http[id]);
    }
  }

  /** The row of a message that is handled: its count is the header's, so one more request keeps it right either way. */
  lemma HandleCounts(s: State, s': State, m: Message, response: Option<int>, attempts: seq<Attempt>)
    requires Inv(s) && Counted(s) && Slot(DispatchTasks, m) in s.pool && Countable(m) && m.task.Some?
    requires s' == Handled(s, m, response, attempts)
    ensures Counted(s')
  {
    var id := m.task.value.logId;
    HandledRow(s, s', m, response, attempts);
    if 0 < id {
      TheMessage(s, id, Slot(DispatchTasks, m));
      assert Told(s.logs[id], s.http[id]);
    }
    OneRow(s, s', id);
  }

  lemma HandledRow(s: State, s': State, m: Message, response: Option<int>, attempts: seq<Attempt>)
    requires Slot(DispatchTasks, m) in s.pool && Countable(m) && m.task.Some?
    requires s' == Handled(s, m, response, attempts)
    ensures var id := m.task.value.logId;
            && s'.logs.Keys == s.logs.Keys
            && (forall k :: k in s.logs && k != id ==> s'.logs[k] == s.logs[k])
            && (forall k :: s'.http[k] == s.http[k] + if k == id then 1 else 0)
            && (id in s.logs ==>
                  s'.logs[id] == if Is2xx(response) then s.logs[id].(status := Success)
                                 else Log(Failure, s.logs[id].retryCount + 1))
  {
  }

  /** Only one row and its count moved. */
  lemma OneRow(s: State, s': State, id: nat)
    requires Counted(s) && s'.logs.Keys == s.logs.Keys
    requires forall k :: k in s.logs && k != id ==> s'.logs[k] == s.logs[k]
    requires forall k :: k != id ==> s'.http[k] == s.http[k]
    requires id in s.logs ==> Told(s'.logs[id], s'.http[id])
    requires id !in s.logs ==> id == 0
    ensures Counted(s')
  {
    forall k | k in s'.logs ensures Told(s'.logs[k], s'.http[k]) {
      if k != id {
        assert Told(s.logs[k], s.http[k]);
      }
    }
  }

  lemma BuryCounts(s: State, s': State, m: Message)
    requires Inv(s) && Counted(s) && Slot(DispatchDead, m) in s.pool && m.task.Some? && s' == Buried(s, m)
    ensures Counted(s')
  {
    var id := m.task.value.logId;
    if 0 < id {
      TheMessage(s, id, Slot(DispatchDead, m));
      assert Told(s.logs[id], s.http[id]);
    }
    OneRow(s, s', id);
  }

  lemma StepCounts(s: State, step: Step)
    requires Inv(s) && Counted(s) && Enabled(s, step, 1)
    ensures Counted(Apply(s, step, 1))
  {
    match step
    case Create(task, attempts) => CreateCounts(s, Apply(s, step, 1), task, attempts);
    case Resend(_, _) =>
    case Handle(m, response, attempts) =>
      if m.task.Some? {
        HandleCounts(s, Apply(s, step, 1), m, response, attempts);
      }
    case Expire(_, _) =>
    case Bury(m) =>
      if m.task.Some? {
        BuryCounts(s, Apply(s, step, 1), m);
      }
  }

  /** Over every run: a live row has seen as many requests as it counts, a successful one more, and a dead one five. */
  lemma {:induction false} RunCounts(s: State, steps: seq<Step>, s': State)
    requires Inv(s) && Counted(s) && Run(s, steps, s', 1, true)
    ensures Counted(s')
    decreases |steps|
  {
    if steps == [] {
    } else {
      StepKeepsInv(s, steps[0]);
      StepCounts(s, steps[0]);
      RunCounts(Apply(s, steps[0], 1), steps[1..], s');
    }
  }

  lemma RowsTellRequests(steps: seq<Step>, s: State, id: nat)
    requires Run(EMPTY, steps, s, 1, true) && id in s.logs
    ensures Told(s.logs[id], s.http[id])
  {
    RunCounts(EMPTY, steps, s);
  }
}
