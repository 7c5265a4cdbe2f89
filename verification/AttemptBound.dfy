/** How often one webhook task can be sent, whatever the publish faults, and what those faults do to its row. */
module AttemptBound {
  import opened Prelude
  import opened Topology
  import opened Delivery
  import opened Sums

  /** The requests a message with c failures behind it can still cause when a publish leaves up to n copies. */
  function Weight(n: nat, c: int): nat
    decreases 4 - c
  {
    if c >= 4 then 1 else 1 + Times(n, Weight(n, c + 1))
  }

  function SlotWeight(n: nat, id: nat, x: Slot): nat {
    if Carries(x, id) && x.queue != DispatchDead then Weight(n, Count(x.msg)) else 0
  }

  /** The weight function of one log. */
  ghost function WeightOf(n: nat, id: nat): Slot -> nat {
    x => SlotWeight(n, id, x)
  }

  /** The request a message costs the log `id`. */
  function Charge(m: Message, id: nat): nat {
    if Carries(Slot(DispatchTasks, m), id) then 1 else 0
  }

  /** The copies a failed request leaves weigh at least one less than the message it was made for. */
  lemma FailureWeight(n: nat, id: nat, m: Message, k: nat, x: Slot, x': Slot)
    requires 0 <= Count(m) && k <= n
    requires x == Slot(DispatchTasks, m) && x' == Slot(FailureQueue(Count(m) + 1), m.(header := Some(Count(m) + 1)))
    ensures Times(k, SlotWeight(n, id, x')) + Charge(m, id) <= SlotWeight(n, id, x)
  {
    TimesFacts(k, n, SlotWeight(n, id, x'));
  }

  /** Where the copies of a failed message go, as a change of the pool. */
  lemma FailurePool(s: State, m: Message, response: Option<int>, attempts: seq<Attempt>, x: Slot, x': Slot,
                    pool': multiset<Slot>)
    requires 0 <= Count(m) && !Is2xx(response) && m.task.Some?
    requires x == Slot(DispatchTasks, m) && x' == Slot(FailureQueue(Count(m) + 1), m.(header := Some(Count(m) + 1)))
    requires pool' == Handled(s, m, response, attempts).pool
    ensures pool' == (s.pool - multiset{x})[x' := (s.pool - multiset{x})[x'] + Copies(attempts)]
  {
  }

  lemma FailureLowersWeight(s: State, m: Message, response: Option<int>, attempts: seq<Attempt>, n: nat, id: nat,
                            pool': multiset<Slot>)
    requires 0 <= Count(m) && !Is2xx(response) && m.task.Some? && Slot(DispatchTasks, m) in s.pool
    requires Copies(attempts) <= n
    requires pool' == Handled(s, m, response, attempts).pool
    ensures Total(WeightOf(n, id), pool') + Charge(m, id) <= Total(WeightOf(n, id), s.pool)
  {
    var x, c := Slot(DispatchTasks, m), Count(m) + 1;
    var x' := Slot(FailureQueue(c), m.(header := Some(c)));
    FailurePool(s, m, response, attempts, x, x', pool');
    FailureWeight(n, id, m, Copies(attempts), x, x');
    ReplaceLowers(s.pool, x, x', Copies(attempts), pool', n, id, Charge(m, id));
  }

  lemma ReplaceLowers(pool: multiset<Slot>, x: Slot, x': Slot, k: nat, pool': multiset<Slot>, n: nat, id: nat,
                      charge: nat)
    requires x in pool && pool' == (pool - multiset{x})[x' := (pool - multiset{x})[x'] + k]
    requires Times(k, SlotWeight(n, id, x')) + charge <= SlotWeight(n, id, x)
    ensures Total(WeightOf(n, id), pool') + charge <= Total(WeightOf(n, id), pool)
  {
    TotalMove(WeightOf(n, id), pool, x, x', k, pool');
  }

  /** A request for a log, acknowledged, lowers the log's weight by at least one, copies of the next message and all. */
  lemma HandleLowersWeight(s: State, m: Message, response: Option<int>, attempts: seq<Attempt>, n: nat, id: nat,
                           pool': multiset<Slot>)
    requires Enabled(s, Handle(m, response, attempts), n)
    requires pool' == Handled(s, m, response, attempts).pool
    ensures Total(WeightOf(n, id), pool') + Charge(m, id) <= Total(WeightOf(n, id), s.pool)
  {
    if m.task.Some? && !Is2xx(response) {
      FailureLowersWeight(s, m, response, attempts, n, id, pool');
    } else {
      TotalPick(WeightOf(n, id), s.pool, Slot(DispatchTasks, m));
    }
  }

  lemma HandleCounts(s: State, m: Message, response: Option<int>, attempts: seq<Attempt>, id: nat)
    requires 0 <= Count(m)
    ensures Handled(s, m, response, attempts).http[id] == s.http[id] + Charge(m, id)
    ensures id in Handled(s, m, response, attempts).logs <==> id in s.logs
  {
    if m.task.Some? {
      RowsStay(s.logs, m.task.value.logId, response);
      assert (s.http + multiset{m.task.value.logId})[id] == s.http[id] + Charge(m, id);
    }
  }

  lemma ExpireKeepsWeight(s: State, q: Queue, m: Message, n: nat, id: nat)
    requires Enabled(s, Expire(q, m), n)
    ensures Total(WeightOf(n, id), Expired(s, q, m).pool) == Total(WeightOf(n, id), s.pool)
  {
    TotalMove(WeightOf(n, id), s.pool, Slot(q, m), Slot(DispatchTasks, m), 1, Expired(s, q, m).pool);
    TimesFacts(1, 1, SlotWeight(n, id, Slot(DispatchTasks, m)));
  }

  lemma CopiesWeight(pool: multiset<Slot>, x: Slot, k: nat, pool': multiset<Slot>, n: nat, id: nat)
    requires k <= n && Count(x.msg) == 0 && pool' == pool[x := pool[x] + k]
    ensures Total(WeightOf(n, id), pool') <= Total(WeightOf(n, id), pool)
            + if Carries(x, id) then Times(n, Weight(n, 0)) else 0
  {
    TotalAdd(WeightOf(n, id), pool, x, k);
    TimesFacts(k, n, SlotWeight(n, id, x));
    TimesFacts(n, n, 0);
  }

  lemma PublishWeight(s: State, step: Step, n: nat, id: nat)
    requires Enabled(s, step, n) && (step.Create? || step.Resend?) && 0 < id
    ensures var own := step.Create? && step.task.logId == id;
            Total(WeightOf(n, id), Apply(s, step, n).pool)
            <= Total(WeightOf(n, id), s.pool) + if own then Times(n, Weight(n, 0)) else 0
  {
    var x := Slot(DispatchTasks,
                  Message(Some(step.task.(logId := if step.Create? then step.task.logId else 0)), Some(0)));
    CopiesWeight(s.pool, x, Copies(step.attempts), Apply(s, step, n).pool, n, id);
  }

  /** What was sent and what may still be sent, together, never exceed what one publish can cause. */
  ghost predicate Bounded(s: State, n: nat, id: nat) {
    if id in s.logs then s.http[id] + Total(WeightOf(n, id), s.pool) <= Times(n, Weight(n, 0))
    else s.http[id] == 0 && Total(WeightOf(n, id), s.pool) == 0
  }

  lemma StepKeepsBound(s: State, step: Step, n: nat, id: nat)
    requires 0 < id && Bounded(s, n, id) && Enabled(s, step, n)
    ensures Bounded(Apply(s, step, n), n, id)
  {
    match step
    case Create(_, _) => PublishWeight(s, step, n, id);
    case Resend(_, _) => PublishWeight(s, step, n, id);
    case Handle(m, response, attempts) =>
      HandleLowersWeight(s, m, response, attempts, n, id, Handled(s, m, response, attempts).pool);
      HandleCounts(s, m, response, attempts, id);
    case Expire(q, m) => ExpireKeepsWeight(s, q, m, n, id);
    case Bury(m) => TotalPick(WeightOf(n, id), s.pool, Slot(DispatchDead, m));
  }

  lemma {:induction false} RunKeepsBound(s: State, steps: seq<Step>, s': State, n: nat, id: nat)
    requires 0 < id && Bounded(s, n, id) && Run(s, steps, s', n, false)
    ensures Bounded(s', n, id)
    decreases |steps|
  {
    if steps == [] {
    } else {
      StepKeepsBound(s, steps[0], n, id);
      RunKeepsBound(Apply(s, steps[0], n), steps[1..], s', n, id);
    }
  }

  lemma WeightValues()
    ensures Times(3, Weight(3, 0)) == 363 && Times(1, Weight(1, 0)) == 5
  {
    assert Weight(3, 4) == 1 && Weight(3, 3) == 4 && Weight(3, 2) == 13 && Weight(3, 1) == 40;
    assert Weight(1, 4) == 1 && Weight(1, 3) == 2 && Weight(1, 2) == 3 && Weight(1, 1) == 4;
  }

  /** Over any run of the whole system a log causes at most 363 acknowledged requests when each publish leaves up to
      three copies, and at most 5 when each leaves at most one. */
  lemma AttemptsBounded(steps: seq<Step>, s: State, n: nat, id: nat)
    requires 0 < id && Run(EMPTY, steps, s, n, false)
    ensures n == 3 ==> s.http[id] <= 363
    ensures n == 1 ==> s.http[id] <= 5
  {
    TotalZero(WeightOf(n, id), EMPTY.pool);
    RunKeepsBound(EMPTY, steps, s, n, id);
    WeightValues();
  }

  // --- What the faults do ---------------------------------------------------------------------------------------

  /** After a failed request the log still has a message in flight exactly when the publish left a copy: the sender
      acknowledges in any case, and a log left without a message stays as it is. */
  lemma StrandedIff(s: State, id: nat, m: Message, response: Option<int>, attempts: seq<Attempt>)
    requires Inv(s) && Enabled(s, Handle(m, response, attempts), |attempts|) && !Is2xx(response)
    requires 0 < id && Carries(Slot(DispatchTasks, m), id)
    ensures var s' := Handled(s, m, response, attempts);
            && id in s'.logs && !Terminal(s'.logs[id])
            && ((exists y :: y in s'.pool && Carries(y, id))
                <==> exists i :: 0 <= i < |attempts| && attempts[i] != Failed(false))
  {
    var x, c := Slot(DispatchTasks, m), Count(m) + 1;
    TheMessage(s, id, x);
    var x' := Slot(FailureQueue(c), m.(header := Some(c)));
    CopiesBound(attempts);
    var s' := Handled(s, m, response, attempts);
    forall y | y in s'.pool && Carries(y, id) ensures y == x' && Copies(attempts) > 0 {
      assert y != x' ==> y in s.pool;
    }
    if Copies(attempts) > 0 {
      assert x' in s'.pool && Carries(x', id);
    }
  }

  /** No step touches a log without messages. */
  lemma StrandedStays(s: State, step: Step, n: nat, id: nat)
    requires Enabled(s, step, n) && 0 < id && id in s.logs && NoMessage(s.pool, id)
    ensures id in Apply(s, step, n).logs && Apply(s, step, n).logs[id] == s.logs[id]
    ensures NoMessage(Apply(s, step, n).pool, id)
  {
    match step
    case Handle(m, response, attempts) =>
      assert !Carries(Slot(DispatchTasks, m), id);
      StrandedHandle(s, m, response, attempts, id);
    case Expire(q, m) =>
      assert !Carries(Slot(q, m), id);
      StrandedPut(s.pool - multiset{Slot(q, m)}, DispatchTasks, m, 1, id);
    case Bury(m) => assert !Carries(Slot(DispatchDead, m), id);
    case Create(task, attempts) =>
      StrandedPut(s.pool, DispatchTasks, Message(Some(task), Some(0)), Copies(attempts), id);
    case Resend(task, attempts) =>
      StrandedPut(s.pool, DispatchTasks, Message(Some(task.(logId := 0)), Some(0)), Copies(attempts), id);
  }

  lemma StrandedPut(pool: multiset<Slot>, q: Queue, m: Message, k: nat, id: nat)
    requires NoMessage(pool, id) && !Carries(Slot(q, m), id)
    ensures NoMessage(Put(pool, q, m, k), id)
  {
    forall y | y in Put(pool, q, m, k) ensures !Carries(y, id) {
      assert y == Slot(q, m) || y in pool;
    }
  }

  lemma StrandedHandle(s: State, m: Message, response: Option<int>, attempts: seq<Attempt>, id: nat)
    requires 0 <= Count(m) && id in s.logs && NoMessage(s.pool, id) && !Carries(Slot(DispatchTasks, m), id)
    ensures id in Handled(s, m, response, attempts).logs && Handled(s, m, response, attempts).logs[id] == s.logs[id]
    ensures NoMessage(Handled(s, m, response, attempts).pool, id)
  {
    var c := Count(m) + 1;
    var x, x' := Slot(DispatchTasks, m), Slot(FailureQueue(c), m.(header := Some(c)));
    if m.task.Some? && !Is2xx(response) {
      FailurePool(s, m, response, attempts, x, x', Handled(s, m, response, attempts).pool);
      StrandedReplace(s.pool, x, x', Copies(attempts), Handled(s, m, response, attempts).pool, id);
    }
  }

  lemma StrandedReplace(pool: multiset<Slot>, x: Slot, x': Slot, k: nat, pool': multiset<Slot>, id: nat)
    requires NoMessage(pool, id) && !Carries(x', id)
    requires pool' == (pool - multiset{x})[x' := (pool - multiset{x})[x'] + k]
    ensures NoMessage(pool', id)
  {
    forall y | y in pool' ensures !Carries(y, id) {
      assert y == x' || y in pool;
    }
  }

  /** One copy too many is enough for a delivered log to end up failed: the second copy is sent as well. */
  lemma DuplicateLeavesSuccess(task: Task, attempts: seq<Attempt>, m: Message)
    requires 0 < task.logId && attempts == [Failed(true), Confirmed, Confirmed]
    requires m == Message(Some(task), Some(0))
    ensures var s1 := Created(EMPTY, task, attempts);
            var s2 := Handled(s1, m, Some(200), [Confirmed]);
            var s3 := Handled(s2, m, Some(500), [Confirmed]);
            && Enabled(s1, Handle(m, Some(200), [Confirmed]), 3) && Enabled(s2, Handle(m, Some(500), [Confirmed]), 3)
            && s2.logs[task.logId].status == Success && s3.logs[task.logId].status == Failure
  {
    assert attempts[1..][0] == Confirmed && Copies(attempts[1..]) == 1 && Copies(attempts) == 2;
    assert Copies([Confirmed]) == 1;
  }
}
