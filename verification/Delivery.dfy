/** The life of a webhook task as values: publishing with its real faults, the retry machine, the dead-letter end, and
    the log row that follows the message. */
module Delivery {
  import opened Prelude
  import opened Topology

  // --- Publishing ----------------------------------------------------------------------------------------------

  /** One attempt to publish: confirmed by the broker, or failed, in which case the message may be in the queue all the
      same (a confirm that was lost or came too late). */
  datatype Attempt = Confirmed | Failed(enqueued: bool)

  /** Copies left behind by a series of attempts, which ends at the first confirmed one. */
  function Copies(attempts: seq<Attempt>): nat {
    if attempts == [] then 0
    else match attempts[0]
      case Confirmed => 1
      case Failed(enqueued) => (if enqueued then 1 else 0) + Copies(attempts[1..])
  }

  predicate Accepted(attempts: seq<Attempt>) {
    exists i :: 0 <= i < |attempts| && attempts[i].Confirmed?
  }

  /** At most one copy an attempt; success means at least one, failure does not mean none. */
  lemma {:induction false} CopiesBound(attempts: seq<Attempt>)
    ensures Copies(attempts) <= |attempts|
    ensures Accepted(attempts) ==> 1 <= Copies(attempts)
    ensures Copies(attempts) == 0 <==> forall i :: 0 <= i < |attempts| ==> attempts[i] == Failed(false)
  {
    if attempts == [] {
    } else {
      var rest := attempts[1..];
      CopiesBound(rest);
      if attempts[0] == Failed(false) {
        if Accepted(attempts) {
          var i :| 0 <= i < |attempts| && attempts[i].Confirmed?;
          assert rest[i - 1].Confirmed?;
        }
        if Copies(attempts) == 0 {
          forall i | 0 <= i < |attempts| ensures attempts[i] == Failed(false) {
            assert i > 0 ==> attempts[i] == rest[i - 1];
          }
        } else {
          var i :| 0 <= i < |rest| && rest[i] != Failed(false);
          assert attempts[i + 1] != Failed(false);
        }
      }
    }
  }

  // --- Messages, rows, state -----------------------------------------------------------------------------------

  datatype Task = Task(logId: nat, addressId: nat, eventId: string, callbackUrl: string)

  /** A body that does not decode has no task; a header that is absent or of another type has no count. */
  datatype Message = Message(task: Option<Task>, header: Option<int>)

  datatype Slot = Slot(queue: Queue, msg: Message)

  datatype Status = Pending | Success | Failure | DeadLetter

  datatype Log = Log(status: Status, retryCount: int)

  /** `http` counts the requests made for each log id. */
  datatype State = State(pool: multiset<Slot>, logs: map<nat, Log>, http: multiset<nat>)

  const MAX_FAILURES: int := 5

  function Count(m: Message): int {
    if m.header.Some? then m.header.value else 0
  }

  /** The header is an int32 that counts up from 0: with any other the sender would index its routes out of range. */
  predicate Countable(m: Message) {
    0 <= Count(m) < 0x7FFF_FFFF
  }

  predicate Is2xx(response: Option<int>) {
    response.Some? && 200 <= response.value < 300
  }

  ghost function Put(pool: multiset<Slot>, q: Queue, m: Message, n: nat): multiset<Slot> {
    pool[Slot(q, m) := pool[Slot(q, m)] + n]
  }

  /** Where a message goes that failed for the c-th time. */
  function FailureQueue(c: int): Queue {
    if c == 1 then Retry1m
    else if c == 2 then Retry5m
    else if c == 3 then Retry30m
    else if c == 4 then Retry2h
    else DispatchDead
  }

  /** The queues once the sender is done with a message of dispatch.tasks. */
  ghost function PoolAfter(pool: multiset<Slot>, m: Message, response: Option<int>,
                           attempts: seq<Attempt>): multiset<Slot>
    requires 0 <= Count(m)
  {
    var rest := pool - multiset{Slot(DispatchTasks, m)};
    if m.task.None? || Is2xx(response) then rest
    else
      var c := Count(m) + 1;
      Put(rest, FailureQueue(c), m.(header := Some(c)), Copies(attempts))
  }

  /** The rows after a request for one of them. */
  function LogsAfter(logs: map<nat, Log>, id: nat, response: Option<int>): map<nat, Log> {
    if Is2xx(response) then SetStatus(logs, id, Success) else CountFailure(logs, id)
  }

  lemma RowsStay(logs: map<nat, Log>, id: nat, response: Option<int>)
    ensures LogsAfter(logs, id, response).Keys == logs.Keys
  {
  }

  /** The sender's handling of one message of dispatch.tasks, acknowledged. */
  ghost function Handled(s: State, m: Message, response: Option<int>, attempts: seq<Attempt>): State
    requires 0 <= Count(m)
  {
    var pool := PoolAfter(s.pool, m, response, attempts);
    if m.task.None? then s.(pool := pool)
    else
      var id := m.task.value.logId;
      State(pool, LogsAfter(s.logs, id, response), s.http + multiset{id})
  }

  /** A message whose time in a retry queue is up. */
  ghost function Expired(s: State, q: Queue, m: Message): State {
    s.(pool := Put(s.pool - multiset{Slot(q, m)}, DispatchTasks, m, 1))
  }

  /** The dead-letter handler on one message of dispatch.dead. */
  ghost function Buried(s: State, m: Message): State {
    State(s.pool - multiset{Slot(DispatchDead, m)},
          if m.task.Some? then SetStatus(s.logs, m.task.value.logId, DeadLetter) else s.logs,
          s.http)
  }

  /** The expander's new row and its first publish. */
  ghost function Created(s: State, task: Task, attempts: seq<Attempt>): State {
    State(Put(s.pool, DispatchTasks, Message(Some(task), Some(0)), Copies(attempts)),
          s.logs[task.logId := Log(Pending, 0)], s.http)
  }

  /** A manual resend: the stored payload was serialised before its row existed, so its log id is 0. */
  ghost function Resent(s: State, task: Task, attempts: seq<Attempt>): State {
    s.(pool := Put(s.pool, DispatchTasks, Message(Some(task.(logId := 0)), Some(0)), Copies(attempts)))
  }

  datatype Step =
    | Create(task: Task, attempts: seq<Attempt>)
    | Resend(task: Task, attempts: seq<Attempt>)
    | Handle(msg: Message, response: Option<int>, attempts: seq<Attempt>)
    | Expire(queue: Queue, msg: Message)
    | Bury(msg: Message)

  predicate IsRetryQueue(q: Queue) {
    q.Retry1m? || q.Retry5m? || q.Retry30m? || q.Retry2h?
  }

  /** Ids of new rows are fresh and positive; `n` bounds the copies one publish leaves. */
  ghost predicate Enabled(s: State, step: Step, n: nat) {
    match step
    case Create(task, attempts) => 0 < task.logId && task.logId !in s.logs && Copies(attempts) <= n
    case Resend(_, attempts) => Copies(attempts) <= n
    case Handle(m, _, attempts) => Slot(DispatchTasks, m) in s.pool && Countable(m) && Copies(attempts) <= n
    case Expire(q, m) => IsRetryQueue(q) && Slot(q, m) in s.pool
    case Bury(m) => Slot(DispatchDead, m) in s.pool
  }

  ghost function Apply(s: State, step: Step, n: nat): State
    requires Enabled(s, step, n)
  {
    match step
    case Create(task, attempts) => Created(s, task, attempts)
    case Resend(task, attempts) => Resent(s, task, attempts)
    case Handle(m, response, attempts) => Handled(s, m, response, attempts)
    case Expire(q, m) => Expired(s, q, m)
    case Bury(m) => Buried(s, m)
  }

  const EMPTY := State(multiset{}, map[], multiset{})

  // --- Routing: what the steps above say is where the declared layout sends each message -----------------------

  /** pool' is pool with n more copies of a message in every queue of a route. */
  ghost predicate Gained(pool: multiset<Slot>, pool': multiset<Slot>, route: set<Queue>, m: Message, n: nat) {
    forall x: Slot :: pool'[x] == pool[x] + if x.msg == m && x.queue in route then n else 0
  }

  lemma GainedOne(pool: multiset<Slot>, pool': multiset<Slot>, q: Queue, m: Message, n: nat)
    requires Gained(pool, pool', {q}, m, n)
    ensures pool' == Put(pool, q, m, n)
  {
    forall x: Slot ensures pool'[x] == Put(pool, q, m, n)[x] {
      assert x == Slot(q, m) <==> x.msg == m && x.queue in {q};
    }
  }

  function SetStatus(logs: map<nat, Log>, id: nat, status: Status): map<nat, Log> {
    if id in logs then logs[id := logs[id].(status := status)] else logs
  }

  function AddRetry(logs: map<nat, Log>, id: nat): map<nat, Log> {
    if id in logs then logs[id := logs[id].(retryCount := logs[id].retryCount + 1)] else logs
  }

  /** The two changes a failed request makes to its row; an id without a row matches nothing, which is no error. */
  function CountFailure(logs: map<nat, Log>, id: nat): map<nat, Log> {
    AddRetry(SetStatus(logs, id, Failure), id)
  }

  /** The route the sender picks after the c-th failure. */
  function FailureRoute(c: int): set<Queue>
    requires 0 < c
  {
    if c >= MAX_FAILURES then Route(DECLARED, DefaultExchange, Named(DispatchDead))
    else Route(DECLARED, DlxExchange, Retry(c))
  }

  lemma RoutesOf(c: int)
    requires 0 < c
    ensures FailureRoute(c) == {FailureQueue(c)}
  {
    Routes();
    if c < 5 {
      assert RETRIES[c - 1].key == Retry(c);
    }
  }

  lemma ExpiryOf(q: Queue, key: Key)
    requires IsRetryQueue(q)
    ensures q in DECLARED.queues && ExpiryRoute(DECLARED, q, key) == {DispatchTasks}
  {
    Routes();
    var i := if q.Retry1m? then 0 else if q.Retry5m? then 1 else if q.Retry30m? then 2 else 3;
    assert RETRIES[i].name == q;
  }

  // --- One message per live log --------------------------------------------------------------------------------

  predicate Carries(x: Slot, id: nat) {
    x.msg.task.Some? && x.msg.task.value.logId == id
  }

  ghost predicate NoMessage(pool: multiset<Slot>, id: nat) {
    forall y :: y in pool ==> !Carries(y, id)
  }

  /** How many failures the messages of a queue have behind them; in the task queue that varies. */
  function Stage(q: Queue): Option<int> {
    match q
    case DispatchTasks => None
    case Retry1m => Some(1)
    case Retry5m => Some(2)
    case Retry30m => Some(3)
    case Retry2h => Some(4)
    case DispatchDead => Some(5)
    case MatchedEvents => Some(-1)
  }

  /** A message stands where its header says, and the row agrees with the header. */
  predicate Placed(x: Slot, log: Log) {
    var c := Count(x.msg);
    && (if Stage(x.queue).Some? then c == Stage(x.queue).value && 1 <= c <= 5 else 0 <= c <= 4)
    && log.retryCount == c
    && log.status == if c == 0 then Pending else Failure
  }

  ghost predicate OnlyMessage(s: State, id: nat, x: Slot) {
    && s.pool[x] == 1 && Carries(x, id)
    && forall y :: y in s.pool && Carries(y, id) ==> y == x
  }

  predicate Terminal(log: Log) {
    log.status == Success || log.status == DeadLetter
  }

  /** A live log has exactly one message in flight, standing where the row says; a finished one has none. */
  ghost predicate Tracked(s: State, id: nat)
    requires id in s.logs
  {
    if Terminal(s.logs[id]) then NoMessage(s.pool, id)
    else exists x :: OnlyMessage(s, id, x) && Placed(x, s.logs[id])
  }

  ghost predicate Inv(s: State) {
    && 0 !in s.logs
    && (forall id :: id in s.logs ==> Tracked(s, id))
    && (forall y, id :: y in s.pool && Carries(y, id) && 0 < id ==> id in s.logs)
  }

  /** What a step does not touch stays tracked. */
  lemma OthersTracked(s: State, s': State, id: nat)
    requires id in s.logs && Tracked(s, id) && id in s'.logs && s'.logs[id] == s.logs[id]
    requires forall y :: Carries(y, id) ==> s'.pool[y] == s.pool[y]
    ensures Tracked(s', id)
  {
    if Terminal(s.logs[id]) {
      forall y | Carries(y, id) ensures y !in s'.pool {
        assert s'.pool[y] == s.pool[y];
      }
    } else {
      var x :| OnlyMessage(s, id, x) && Placed(x, s.logs[id]);
      forall y | y in s'.pool && Carries(y, id) ensures y == x {
        assert y in s.pool;
      }
      assert OnlyMessage(s', id, x);
    }
  }

  /** The only message of a log moved to slot x' with the row brought in line: the log is tracked again. */
  lemma MovedTracked(s: State, s': State, id: nat, x: Slot, x': Slot)
    requires OnlyMessage(s, id, x) && Carries(x', id) && id in s'.logs
    requires s'.pool == (s.pool - multiset{x})[x' := (s.pool - multiset{x})[x'] + 1]
    requires Placed(x', s'.logs[id])
    ensures Tracked(s', id)
  {
    forall y | Carries(y, id) ensures y !in s.pool - multiset{x} {
      assert y != x ==> y !in s.pool;
    }
    assert OnlyMessage(s', id, x');
  }

  /** The slot of a tracked log's message is the one the log is tracked by. */
  lemma TheMessage(s: State, id: nat, x: Slot)
    requires Inv(s) && x in s.pool && Carries(x, id) && 0 < id
    ensures id in s.logs && !Terminal(s.logs[id]) && OnlyMessage(s, id, x) && Placed(x, s.logs[id])
  {
    assert Tracked(s, id) && !Terminal(s.logs[id]);
    var z :| OnlyMessage(s, id, z) && Placed(z, s.logs[id]);
    assert z == x;
  }

  /** A message leaves the queues for good, and its row, if it has one, is finished. */
  lemma GoneTracked(s: State, s': State, x: Slot, k: nat)
    requires Inv(s) && x in s.pool && s'.pool == s.pool - multiset{x} && k in s.logs && k in s'.logs
    requires Carries(x, k) && Terminal(s'.logs[k])
    ensures Tracked(s', k)
  {
    TheMessage(s, k, x);
    forall y | Carries(y, k) ensures y !in s'.pool {
      assert y != x ==> y !in s.pool;
    }
  }

  lemma RemovalKeepsInv(s: State, s': State, x: Slot)
    requires Inv(s) && x in s.pool && s'.pool == s.pool - multiset{x} && s'.logs.Keys == s.logs.Keys
    requires forall k :: k in s.logs ==> if Carries(x, k) then Terminal(s'.logs[k]) else s'.logs[k] == s.logs[k]
    ensures Inv(s')
  {
    forall k | k in s.logs ensures Tracked(s', k) {
      if Carries(x, k) {
        GoneTracked(s, s', x, k);
      } else {
        OthersTracked(s, s', k);
      }
    }
    assert forall y :: y in s'.pool ==> y in s.pool;
  }

  /** A message moves to another slot, and its row, if it has one, follows. */
  lemma MoveKeepsInv(s: State, s': State, x: Slot, x': Slot)
    requires Inv(s) && x in s.pool && x'.msg.task == x.msg.task && s'.logs.Keys == s.logs.Keys
    requires s'.pool == (s.pool - multiset{x})[x' := (s.pool - multiset{x})[x'] + 1]
    requires forall k :: k in s.logs ==>
               if Carries(x, k) then Placed(x, s.logs[k]) ==> Placed(x', s'.logs[k]) else s'.logs[k] == s.logs[k]
    ensures Inv(s')
  {
    forall k | k in s.logs ensures Tracked(s', k) {
      if Carries(x, k) {
        TheMessage(s, k, x);
        MovedTracked(s, s', k, x, x');
      } else {
        OthersTracked(s, s', k);
      }
    }
    MovedKnown(s, s', x, x');
  }

  lemma MovedKnown(s: State, s': State, x: Slot, x': Slot)
    requires Inv(s) && x in s.pool && x'.msg.task == x.msg.task && s'.logs.Keys == s.logs.Keys
    requires s'.pool == (s.pool - multiset{x})[x' := (s.pool - multiset{x})[x'] + 1]
    ensures forall y, k :: y in s'.pool && Carries(y, k) && 0 < k ==> k in s'.logs
  {
    forall y, k | y in s'.pool && Carries(y, k) && 0 < k ensures k in s'.logs {
      assert y in s.pool || Carries(x, k);
    }
  }

  /** A failed attempt moves the message on, header and row counting one more. */
  lemma FailureMoves(s: State, m: Message, response: Option<int>, attempts: seq<Attempt>, x: Slot, x': Slot)
    requires 0 <= Count(m) && Copies(attempts) == 1 && !Is2xx(response) && m.task.Some?
    requires x == Slot(DispatchTasks, m) && x' == Slot(FailureQueue(Count(m) + 1), m.(header := Some(Count(m) + 1)))
    ensures Handled(s, m, response, attempts).pool == (s.pool - multiset{x})[x' := (s.pool - multiset{x})[x'] + 1]
    ensures Handled(s, m, response, attempts).logs
         == CountFailure(s.logs, m.task.value.logId)
  {
  }

  lemma FailurePlaced(x: Slot, x': Slot, log: Log)
    requires x.queue == DispatchTasks && 0 <= Count(x.msg)
    requires x' == Slot(FailureQueue(Count(x.msg) + 1), x.msg.(header := Some(Count(x.msg) + 1)))
    ensures Placed(x, log) ==> Placed(x', Log(Failure, log.retryCount + 1))
  {
  }

  lemma FailureKeepsInv(s: State, s': State, id: nat, x: Slot, x': Slot)
    requires Inv(s) && x in s.pool && Carries(x, id) && x.queue == DispatchTasks && 0 <= Count(x.msg)
    requires x' == Slot(FailureQueue(Count(x.msg) + 1), x.msg.(header := Some(Count(x.msg) + 1)))
    requires s'.pool == (s.pool - multiset{x})[x' := (s.pool - multiset{x})[x'] + 1]
    requires s'.logs == CountFailure(s.logs, id)
    ensures Inv(s')
  {
    if id in s.logs {
      FailurePlaced(x, x', s.logs[id]);
    }
    MoveKeepsInv(s, s', x, x');
  }

  lemma ExpireKeepsInv(s: State, q: Queue, m: Message)
    requires Inv(s) && Enabled(s, Expire(q, m), 1)
    ensures Inv(Expired(s, q, m))
  {
    var x := Slot(q, m);
    MoveKeepsInv(s, Expired(s, q, m), x, Slot(DispatchTasks, m));
  }

  lemma PublishKeepsInv(s: State, step: Step)
    requires Inv(s) && Enabled(s, step, 1) && (step.Create? || step.Resend?) && Copies(step.attempts) == 1
    ensures Inv(Apply(s, step, 1))
  {
    var s' := Apply(s, step, 1);
    var id := if step.Create? then step.task.logId else 0;
    var x := Slot(DispatchTasks, Message(Some(step.task.(logId := id)), Some(0)));
    if step.Create? {
      assert forall y :: y in s.pool ==> !Carries(y, id);
      assert OnlyMessage(s', id, x) && Placed(x, s'.logs[id]);
    }
    forall k | k in s.logs ensures Tracked(s', k) {
      OthersTracked(s, s', k);
    }
  }

  ghost predicate OneCopy(step: Step) {
    step.Create? || step.Resend? || step.Handle? ==> Copies(step.attempts) == 1
  }

  lemma HandleKeepsInv(s: State, m: Message, response: Option<int>, attempts: seq<Attempt>)
    requires Inv(s) && Slot(DispatchTasks, m) in s.pool && Countable(m) && Copies(attempts) == 1
    ensures Inv(Handled(s, m, response, attempts))
  {
    var x, c := Slot(DispatchTasks, m), Count(m) + 1;
    if Is2xx(response) || m.task.None? {
      RemovalKeepsInv(s, Handled(s, m, response, attempts), x);
    } else {
      var x' := Slot(FailureQueue(c), m.(header := Some(c)));
      FailureMoves(s, m, response, attempts, x, x');
      FailureKeepsInv(s, Handled(s, m, response, attempts), m.task.value.logId, x, x');
    }
  }

  lemma StepKeepsInv(s: State, step: Step)
    requires Inv(s) && Enabled(s, step, 1) && OneCopy(step)
    ensures Inv(Apply(s, step, 1))
  {
    match step
    case Create(_, _) => PublishKeepsInv(s, step);
    case Resend(_, _) => PublishKeepsInv(s, step);
    case Handle(m, response, attempts) => HandleKeepsInv(s, m, response, attempts);
    case Expire(q, m) => ExpireKeepsInv(s, q, m);
    case Bury(m) => RemovalKeepsInv(s, Buried(s, m), Slot(DispatchDead, m));
  }

  ghost predicate Run(s: State, steps: seq<Step>, s': State, n: nat, single: bool)
    decreases |steps|
  {
    if steps == [] then s == s'
    else
      && Enabled(s, steps[0], n) && (single ==> OneCopy(steps[0]))
      && Run(Apply(s, steps[0], n), steps[1..], s', n, single)
  }

  lemma {:induction false} RunSnoc(s: State, steps: seq<Step>, m: State, step: Step, n: nat)
    requires Run(s, steps, m, n, false) && Enabled(m, step, n)
    ensures Run(s, steps + [step], Apply(m, step, n), n, false)
    decreases |steps|
  {
    if steps == [] {
      assert (steps + [step])[1..] == [];
    } else {
      assert (steps + [step])[1..] == steps[1..] + [step];
      RunSnoc(Apply(s, steps[0], n), steps[1..], m, step, n);
    }
  }

  /** The retry machine over every reachable state, with one copy per publish. */
  lemma {:induction false} RunKeepsInv(s: State, steps: seq<Step>, s': State)
    requires Inv(s) && Run(s, steps, s', 1, true)
    ensures Inv(s')
    decreases |steps|
  {
    if steps == [] {
    } else {
      StepKeepsInv(s, steps[0]);
      RunKeepsInv(Apply(s, steps[0], 1), steps[1..], s');
    }
  }

  /** A message that does not carry the row leaves it alone. */
  lemma HandledOther(s: State, m: Message, response: Option<int>, attempts: seq<Attempt>, id: nat)
    requires 0 <= Count(m) && !Carries(Slot(DispatchTasks, m), id) && id in s.logs
    ensures id in Handled(s, m, response, attempts).logs && Handled(s, m, response, attempts).logs[id] == s.logs[id]
  {
  }

  /** No message in the queues carries a finished row. */
  lemma NoneCarries(s: State, y: Slot, id: nat)
    requires Inv(s) && y in s.pool && id in s.logs && Terminal(s.logs[id])
    ensures !Carries(y, id)
  {
    assert Tracked(s, id);
  }

  lemma TerminalStep(s: State, step: Step, id: nat)
    requires Inv(s) && Enabled(s, step, 1) && id in s.logs && Terminal(s.logs[id])
    ensures id in Apply(s, step, 1).logs && Apply(s, step, 1).logs[id] == s.logs[id]
  {
    match step
    case Handle(m, response, attempts) =>
      NoneCarries(s, Slot(DispatchTasks, m), id);
      HandledOther(s, m, response, attempts, id);
    case Bury(m) => NoneCarries(s, Slot(DispatchDead, m), id);
    case _ =>
  }

  /** Success and dead are never left. */
  lemma {:induction false} TerminalStays(s: State, steps: seq<Step>, s': State, id: nat)
    requires Inv(s) && Run(s, steps, s', 1, true) && id in s.logs && Terminal(s.logs[id])
    ensures id in s'.logs && s'.logs[id] == s.logs[id]
    decreases |steps|
  {
    if steps == [] {
    } else {
      StepKeepsInv(s, steps[0]);
      TerminalStep(s, steps[0], id);
      TerminalStays(Apply(s, steps[0], 1), steps[1..], s', id);
    }
  }

  // --- What an answer leads to, in numbers ----------------------------------------------------------------------

  /** The only message of a row has been replaced by copies in another slot. */
  lemma OnlyCopies(s: State, id: nat, x: Slot, x': Slot, n: nat, pool': multiset<Slot>)
    requires OnlyMessage(s, id, x) && pool' == Put(s.pool - multiset{x}, x'.queue, x'.msg, n)
    ensures forall y :: Carries(y, id) ==> pool'[y] == if y == x' then n else 0
  {
    forall y | Carries(y, id) ensures pool'[y] == if y == x' then n else 0 {
      assert y in s.pool ==> y == x;
      assert (s.pool - multiset{x})[y] == 0;
    }
  }

  lemma DeliveredGone(s: State, id: nat, x: Slot, pool': multiset<Slot>)
    requires Inv(s) && x in s.pool && Carries(x, id) && id in s.logs && pool' == s.pool - multiset{x}
    ensures NoMessage(pool', id)
  {
    TheMessage(s, id, x);
    assert pool' == Put(pool', x.queue, x.msg, 0);
    OnlyCopies(s, id, x, x, 0, pool');
  }

  /** A row is delivered, and nothing more is sent for it, exactly when its callback answers 200 to 299. */
  lemma DeliveredIff(s: State, m: Message, response: Option<int>, attempts: seq<Attempt>, s': State, id: nat)
    requires Inv(s) && Slot(DispatchTasks, m) in s.pool && Countable(m)
    requires id in s.logs && Carries(Slot(DispatchTasks, m), id)
    requires s' == Handled(s, m, response, attempts)
    ensures s'.http == s.http + multiset{id} && s'.logs.Keys == s.logs.Keys
    ensures s'.logs[id].status == Success && NoMessage(s'.pool, id)
       <==> response.Some? && 200 <= response.value <= 299
    ensures s'.logs[id].status == Success ==> s'.logs[id].retryCount == s.logs[id].retryCount
  {
    if response.Some? && 200 <= response.value <= 299 {
      DeliveredGone(s, id, Slot(DispatchTasks, m), s'.pool);
    }
  }

  /** With any other answer, or none, the row has failed once more, and what copies there are of its message wait in the
      queue of that count. */
  lemma RetriedOtherwise(s: State, m: Message, response: Option<int>, attempts: seq<Attempt>, s': State, id: nat)
    requires Inv(s) && Slot(DispatchTasks, m) in s.pool && Countable(m)
    requires id in s.logs && Carries(Slot(DispatchTasks, m), id)
    requires s' == Handled(s, m, response, attempts)
    requires response.None? || response.value < 200 || 300 <= response.value
    ensures var c := s.logs[id].retryCount + 1;
            && 1 <= c <= 5 && id in s'.logs && s'.logs[id] == Log(Failure, c)
            && forall y :: Carries(y, id) ==>
                 s'.pool[y] == if y == Slot([Retry1m, Retry5m, Retry30m, Retry2h, DispatchDead][c - 1],
                                            Message(m.task, Some(c)))
                               then Copies(attempts) else 0
  {
    FailureReplaces(s, m, attempts, s'.pool, id);
  }

  lemma FailureReplaces(s: State, m: Message, attempts: seq<Attempt>, pool': multiset<Slot>, id: nat)
    requires Inv(s) && Slot(DispatchTasks, m) in s.pool && Countable(m)
    requires id in s.logs && Carries(Slot(DispatchTasks, m), id)
    requires var c := Count(m) + 1;
             pool' == Put(s.pool - multiset{Slot(DispatchTasks, m)}, FailureQueue(c), Message(m.task, Some(c)),
                          Copies(attempts))
    ensures var c := s.logs[id].retryCount + 1;
            && 1 <= c <= 5
            && forall y :: Carries(y, id) ==>
                 pool'[y] == if y == Slot([Retry1m, Retry5m, Retry30m, Retry2h, DispatchDead][c - 1],
                                          Message(m.task, Some(c)))
                             then Copies(attempts) else 0
  {
    var x := Slot(DispatchTasks, m);
    TheMessage(s, id, x);
    var c := s.logs[id].retryCount + 1;
    FailedQueue(c);
    OnlyCopies(s, id, x, Slot(FailureQueue(c), Message(m.task, Some(c))), Copies(attempts), pool');
  }

  lemma FailedQueue(c: int)
    requires 1 <= c <= 5
    ensures FailureQueue(c) == [Retry1m, Retry5m, Retry30m, Retry2h, DispatchDead][c - 1]
  {
  }

  /** After the first four failures a message comes back in 1, 5, 30 and 120 minutes, after the fifth it does not. */
  lemma Waits(c: int, q: Queue)
    requires 0 < c && q in FailureRoute(c)
    ensures q in DECLARED.queues
    ensures DECLARED.queues[q].ttl == if c < 5 then Some([1, 5, 30, 120][c - 1] * 60 * 1000) else None
    ensures c < 5 ==> ExpiryRoute(DECLARED, q, Retry(c)) == {DispatchTasks}
  {
    RoutesOf(c);
    if c < 5 {
      ExpiryOf(q, Retry(c));
    }
  }

  /** A row is given up for dead after exactly five failures. */
  lemma GivenUp(s: State, m: Message, s': State, id: nat)
    requires Inv(s) && Slot(DispatchDead, m) in s.pool && id in s.logs && Carries(Slot(DispatchDead, m), id)
    requires s' == Buried(s, m)
    ensures s.logs[id] == Log(Failure, 5)
    ensures id in s'.logs && s'.logs[id] == Log(DeadLetter, 5) && NoMessage(s'.pool, id)
  {
    TheMessage(s, id, Slot(DispatchDead, m));
  }
}
