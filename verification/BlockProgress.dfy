/** Block progress of one chain as a step machine: hand-off to the event channel, the two-level cursor, crashes and
    restarts. Heights are unsigned 64-bit; `confirmations` is how far a restart rewinds. */
module BlockProgress {
  import opened Prelude

  const U64: nat := 0x1_0000_0000_0000_0000

  datatype RawEvent = RawEvent(blockNum: nat, txHash: string, kind: string, data: string)

  type Content = nat -> seq<RawEvent>

  /** A fetched block only carries events of its own number. */
  ghost predicate Numbered(content: Content) {
    forall b: nat, e :: e in content(b) ==> e.blockNum == b
  }

  /** `val - confirmations` in unsigned arithmetic. */
  function Rewind(cursor: nat, confirmations: nat): (r: nat)
    requires cursor < U64 && confirmations < U64
    ensures r < U64
  {
    (cursor + U64 - confirmations) % U64
  }

  datatype Phase = Idle
                 | Next(latest: nat)
                 | Sending(latest: nat, sent: nat)

  /** A running listener: `start` is where Init put it, `cancelled` whether its context was cancelled inside a block. */
  datatype Process = Process(start: nat, current: nat, counter: nat, phase: Phase, cancelled: bool)

  /** `first` is the start of the very first run, `high` the highest block completed so far (or `first`), `done` the
      blocks completed by any run, `ever` all that was handed over, of which `run` belongs to the current run. */
  datatype State = State(redis: Option<nat>, mysql: Option<nat>, pending: multiset<nat>, process: Option<Process>,
                         first: Option<nat>, high: nat, done: set<nat>, ever: set<RawEvent>, run: seq<RawEvent>)

  datatype Step =
    | Start(redisUp: bool, mysqlUp: bool, tip: Option<nat>)
    | BeginPoll(latest: nat)
    | FetchFails
    | FetchSucceeds
    | Send
    | Cancel
    | FinishBlock(redisUp: bool)
    | UpsertLands(block: nat)
    | UpsertFails(block: nat)
    | LoseRedis
    | Crash

  /** The block Init starts after, by the three levels; None when even the chain cannot be asked. */
  function InitialBlock(redis: Option<nat>, mysql: Option<nat>, confirmations: nat, s: Step): Option<nat>
    requires s.Start? && confirmations < U64
    requires (redis.Some? ==> redis.value < U64) && (mysql.Some? ==> mysql.value < U64)
  {
    if s.redisUp && redis.Some? && redis.value > 0 then Some(Rewind(redis.value, confirmations))
    else if s.mysqlUp && mysql.Some? && mysql.value > 0 then Some(Rewind(mysql.value, confirmations))
    else s.tip
  }

  /** The cursor a start goes by: that of Redis, or else that of MySQL. */
  function Cursor(redis: Option<nat>, mysql: Option<nat>, s: Step): Option<nat>
    requires s.Start?
  {
    if s.redisUp && redis.Some? && redis.value > 0 then redis
    else if s.mysqlUp && mysql.Some? && mysql.value > 0 then mysql
    else None
  }

  predicate FromTip(redis: Option<nat>, mysql: Option<nat>, s: Step)
    requires s.Start?
  {
    !(s.redisUp && redis.Some? && redis.value > 0) && !(s.mysqlUp && mysql.Some? && mysql.value > 0)
  }

  predicate Sized(s: State) {
    (s.redis.Some? ==> s.redis.value < U64) && (s.mysql.Some? ==> s.mysql.value < U64)
  }

  /** Which steps a state offers at all. */
  predicate Enabled(content: Content, s: State, step: Step) {
    match step
    case Start(_, _, _) => s.process.None? && Sized(s)
    case BeginPoll(_) => s.process.Some? && s.process.value.phase.Idle?
    case FetchFails => s.process.Some? && s.process.value.phase.Next?
    case FetchSucceeds => s.process.Some? && s.process.value.phase.Next?
    case Send => InBlock(s) && s.process.value.phase.sent < |content(s.process.value.current + 1)|
    case Cancel => InBlock(s) && s.process.value.phase.sent < |content(s.process.value.current + 1)|
    case FinishBlock(_) => InBlock(s) && s.process.value.phase.sent == |content(s.process.value.current + 1)|
    case UpsertLands(b) => b in s.pending
    case UpsertFails(b) => b in s.pending
    case LoseRedis => true
    case Crash => s.process.Some?
  }

  predicate InBlock(s: State) {
    s.process.Some? && s.process.value.phase.Sending?
  }

  /** One step. The block being fetched or sent is always `current + 1`. */
  function Apply(content: Content, confirmations: nat, s: State, step: Step): State
    requires confirmations < U64 && Enabled(content, s, step)
  {
    match step
    case Start(_, _, _) =>
      var start := InitialBlock(s.redis, s.mysql, confirmations, step);
      if start.None? then s
      else s.(process := Some(Process(start.value, start.value, 0, Idle, false)), run := [],
              first := if s.first.None? then start else s.first,
              high := if s.first.None? then start.value else s.high)
    case BeginPoll(latest) =>
      var p := s.process.value;
      if latest <= p.current then s else s.(process := Some(p.(phase := Next(latest))))
    case FetchFails => s.(process := Some(s.process.value.(phase := Idle)))
    case FetchSucceeds =>
      var p := s.process.value;
      s.(process := Some(p.(phase := Sending(p.phase.latest, 0))))
    case Send =>
      var p := s.process.value;
      var e := content(p.current + 1)[p.phase.sent];
      s.(process := Some(p.(phase := p.phase.(sent := p.phase.sent + 1))), ever := s.ever + {e}, run := s.run + [e])
    case Cancel => s.(process := Some(s.process.value.(phase := Idle, cancelled := true)))
    case FinishBlock(redisUp) =>
      var p := s.process.value;
      var b := p.current + 1;
      var phase := if b < p.phase.latest then Next(p.phase.latest) else Idle;
      s.(process := Some(p.(current := b, counter := p.counter + 1, phase := phase)),
         redis := if redisUp then Some(b) else s.redis,
         pending := if (p.counter + 1) % 100 == 0 then s.pending + multiset{b} else s.pending,
         done := s.done + {b}, high := Max(s.high, b))
    case UpsertLands(b) => s.(mysql := Some(b), pending := s.pending - multiset{b})
    case UpsertFails(b) => s.(pending := s.pending - multiset{b})
    case LoseRedis => s.(redis := None)
    case Crash => s.(process := None)
  }

  /** The conditions of the progress theorem: heights stay `confirmations` below the end of the unsigned range, and a
      listener falls back to the tip of the chain only the first time, or when the tip leaves nothing out. */
  predicate Allowed(content: Content, confirmations: nat, s: State, step: Step)
    requires confirmations < U64
  {
    Enabled(content, s, step)
    && match step
       case BeginPoll(latest) => latest < U64 - confirmations
       case Start(_, _, tip) =>
         FromTip(s.redis, s.mysql, step) && tip.Some? ==>
           tip.value < U64 - confirmations && (s.first.None? || tip.value <= s.high)
       case _ => true
  }

  // --- What was handed over ------------------------------------------------------------------------------------

  /** All events of the blocks after `lo` up to `hi`, in order. */
  function Events(content: Content, lo: nat, hi: nat): seq<RawEvent>
    decreases hi
  {
    if hi <= lo then [] else Events(content, lo, hi - 1) + content(hi)
  }

  /** What the block in progress has contributed so far. */
  function Partial(content: Content, p: Process): seq<RawEvent> {
    if p.phase.Sending? && p.phase.sent <= |content(p.current + 1)| then content(p.current + 1)[..p.phase.sent] else []
  }

  predicate InBlockOrder(log: seq<RawEvent>) {
    forall i, j :: 0 <= i < j < |log| ==> log[i].blockNum <= log[j].blockNum
  }

  ghost predicate ProcessInv(content: Content, confirmations: nat, s: State, p: Process)
    requires confirmations < U64
  {
    // Started by a rewind past zero, the listener stands at the far end of the range and never moves.
    && (p.current <= s.high || (U64 - confirmations <= p.current && p.phase.Idle?))
    && p.current < U64 && p.start <= p.current
    && (!p.phase.Idle? ==> p.current < p.phase.latest < U64 - confirmations)
    && (p.phase.Sending? ==> p.phase.sent <= |content(p.current + 1)|)
    && (!p.cancelled ==> s.run == Events(content, p.start, p.current) + Partial(content, p))
    && InBlockOrder(s.run)
    && (forall e :: e in s.run ==> p.start < e.blockNum <= p.current + 1)
    && (forall e :: e in Partial(content, p) ==> e in s.ever)
  }

  /** Everything from the very first start up to the highest completed block was handed over, and every cursor, landed
      or on its way, points at or below that block. */
  ghost predicate Inv(content: Content, confirmations: nat, s: State)
    requires confirmations < U64
  {
    && (forall b, e :: b in s.done && e in content(b) ==> e in s.ever)
    && (forall e :: e in s.run ==> e in s.ever)
    && s.high < U64 - confirmations
    && (forall b :: b in s.done ==> b <= s.high)
    && (s.first.Some? ==> s.first.value <= s.high && forall b :: s.first.value < b <= s.high ==> b in s.done)
    && (s.first.None? ==> s.process.None? && s.redis.None? && s.mysql.None? && s.pending == multiset{} && s.done == {})
    && (s.redis.Some? ==> s.redis.value <= s.high)
    && (s.mysql.Some? ==> s.mysql.value <= s.high)
    && (forall b :: b in s.pending ==> b <= s.high)
    && (s.process.Some? ==> ProcessInv(content, confirmations, s, s.process.value))
  }

  const EMPTY: State := State(None, None, multiset{}, None, None, 0, {}, {}, [])

  lemma EmptyInv(content: Content, confirmations: nat)
    requires confirmations < U64
    ensures Inv(content, confirmations, EMPTY)
  {
  }

  lemma StartKeepsInv(content: Content, confirmations: nat, s: State, step: Step)
    requires confirmations < U64 && Inv(content, confirmations, s) && step.Start?
    requires Allowed(content, confirmations, s, step)
    ensures Inv(content, confirmations, Apply(content, confirmations, s, step))
  {
    var start := InitialBlock(s.redis, s.mysql, confirmations, step);
    if start.Some? {
      assert Events(content, start.value, start.value) == [];
    }
  }

  lemma OrderAppend(log: seq<RawEvent>, e: RawEvent)
    requires InBlockOrder(log) && forall x :: x in log ==> x.blockNum <= e.blockNum
    ensures InBlockOrder(log + [e])
  {
  }

  lemma SendKeepsInv(content: Content, confirmations: nat, s: State)
    requires confirmations < U64 && Inv(content, confirmations, s) && Numbered(content)
    requires Allowed(content, confirmations, s, Send)
    ensures Inv(content, confirmations, Apply(content, confirmations, s, Send))
  {
    var s' := Apply(content, confirmations, s, Send);
    SendKeepsProcess(content, confirmations, s, s.process.value, s', s'.process.value);
  }

  lemma SendKeepsProcess(content: Content, confirmations: nat, s: State, p: Process, s': State, p': Process)
    requires confirmations < U64 && ProcessInv(content, confirmations, s, p) && Numbered(content)
    requires p.phase.Sending? && p.phase.sent < |content(p.current + 1)|
    requires p' == p.(phase := p.phase.(sent := p.phase.sent + 1)) && s'.high == s.high
    requires var e := content(p.current + 1)[p.phase.sent]; s'.run == s.run + [e] && s'.ever == s.ever + {e}
    ensures ProcessInv(content, confirmations, s', p')
  {
    var block := content(p.current + 1);
    var e := block[p.phase.sent];
    assert block[..p.phase.sent + 1] == block[..p.phase.sent] + [e];
    assert e in block && e.blockNum == p.current + 1;
    OrderAppend(s.run, e);
  }

  lemma FinishKeepsInv(content: Content, confirmations: nat, s: State, redisUp: bool)
    requires confirmations < U64 && Inv(content, confirmations, s)
    requires Allowed(content, confirmations, s, FinishBlock(redisUp))
    ensures Inv(content, confirmations, Apply(content, confirmations, s, FinishBlock(redisUp)))
  {
    var s' := Apply(content, confirmations, s, FinishBlock(redisUp));
    FinishKeepsProcess(content, confirmations, s, s.process.value, s', s'.process.value);
  }

  lemma FinishKeepsProcess(content: Content, confirmations: nat, s: State, p: Process, s': State, p': Process)
    requires confirmations < U64 && ProcessInv(content, confirmations, s, p)
    requires p.phase.Sending? && p.phase.sent == |content(p.current + 1)|
    requires s'.run == s.run && s'.ever == s.ever && p.current + 1 <= s'.high
    requires p'.current == p.current + 1 && p'.start == p.start && p'.cancelled == p.cancelled
    requires p'.phase == if p'.current < p.phase.latest then Next(p.phase.latest) else Idle
    ensures ProcessInv(content, confirmations, s', p')
    ensures forall e :: e in content(p.current + 1) ==> e in s.ever
  {
    var block := content(p.current + 1);
    assert block[..p.phase.sent] == block;
    assert Events(content, p.start, p.current + 1) == Events(content, p.start, p.current) + block;
  }

  lemma PollKeepsInv(content: Content, confirmations: nat, s: State, step: Step)
    requires confirmations < U64 && Inv(content, confirmations, s)
    requires Allowed(content, confirmations, s, step)
    requires step.BeginPoll? || step.FetchFails? || step.FetchSucceeds? || step.Cancel?
    ensures Inv(content, confirmations, Apply(content, confirmations, s, step))
  {
    var s' := Apply(content, confirmations, s, step);
    assert ProcessInv(content, confirmations, s', s'.process.value);
  }

  lemma CursorKeepsInv(content: Content, confirmations: nat, s: State, step: Step)
    requires confirmations < U64 && Inv(content, confirmations, s)
    requires Allowed(content, confirmations, s, step)
    requires step.UpsertLands? || step.UpsertFails? || step.LoseRedis? || step.Crash?
    ensures Inv(content, confirmations, Apply(content, confirmations, s, step))
  {
    var s' := Apply(content, confirmations, s, step);
    assert s'.process.Some? ==> ProcessInv(content, confirmations, s', s'.process.value);
  }

  lemma StepKeepsInv(content: Content, confirmations: nat, s: State, step: Step)
    requires confirmations < U64 && Inv(content, confirmations, s) && Numbered(content)
    requires Allowed(content, confirmations, s, step)
    ensures Inv(content, confirmations, Apply(content, confirmations, s, step))
  {
    match step
    case Start(_, _, _) => StartKeepsInv(content, confirmations, s, step);
    case Send => SendKeepsInv(content, confirmations, s);
    case FinishBlock(redisUp) => FinishKeepsInv(content, confirmations, s, redisUp);
    case BeginPoll(_) => PollKeepsInv(content, confirmations, s, step);
    case FetchFails => PollKeepsInv(content, confirmations, s, step);
    case FetchSucceeds => PollKeepsInv(content, confirmations, s, step);
    case Cancel => PollKeepsInv(content, confirmations, s, step);
    case UpsertLands(_) => CursorKeepsInv(content, confirmations, s, step);
    case UpsertFails(_) => CursorKeepsInv(content, confirmations, s, step);
    case LoseRedis => CursorKeepsInv(content, confirmations, s, step);
    case Crash => CursorKeepsInv(content, confirmations, s, step);
  }

  /** `steps` leads from s to s'; a strict run also meets the conditions of the theorem at every step. */
  ghost predicate Run(content: Content, confirmations: nat, s: State, steps: seq<Step>, s': State, strict: bool)
    requires confirmations < U64
    decreases |steps|
  {
    if steps == [] then s == s'
    else
      && (if strict then Allowed(content, confirmations, s, steps[0]) else Enabled(content, s, steps[0]))
      && Run(content, confirmations, Apply(content, confirmations, s, steps[0]), steps[1..], s', strict)
  }

  lemma {:induction false} RunAppend(content: Content, confirmations: nat, s: State, a: seq<Step>, m: State,
                                     b: seq<Step>,
                                     s': State, strict: bool)
    requires confirmations < U64
    requires Run(content, confirmations, s, a, m, strict) && Run(content, confirmations, m, b, s', strict)
    ensures Run(content, confirmations, s, a + b, s', strict)
    decreases |a|
  {
    if a == [] {
      assert a + b == b;
    } else {
      assert (a + b)[1..] == a[1..] + b;
      RunAppend(content, confirmations, Apply(content, confirmations, s, a[0]), a[1..], m, b, s', strict);
    }
  }

  lemma RunOne(content: Content, confirmations: nat, s: State, step: Step)
    requires confirmations < U64 && Enabled(content, s, step)
    ensures Run(content, confirmations, s, [step], Apply(content, confirmations, s, step), false)
  {
  }

  lemma {:induction false} RunKeepsInv(content: Content, confirmations: nat, s: State, steps: seq<Step>, s': State)
    requires confirmations < U64 && Inv(content, confirmations, s) && Numbered(content)
    requires Run(content, confirmations, s, steps, s', true)
    ensures Inv(content, confirmations, s')
    decreases |steps|
  {
    if steps == [] {
    } else {
      StepKeepsInv(content, confirmations, s, steps[0]);
      RunKeepsInv(content, confirmations, Apply(content, confirmations, s, steps[0]), steps[1..], s');
    }
  }

  /** Gap-free progress over all runs: whatever cursor Redis or MySQL holds, every event of every block from the very
      first start up to it was handed over; and each run hands its events over in block order, restart included
      exactly from the rewound block on as long as it was not cancelled inside a block. */
  lemma GapFree(content: Content, confirmations: nat, steps: seq<Step>, s: State)
    requires confirmations < U64 && Numbered(content)
    requires Run(content, confirmations, EMPTY, steps, s, true)
    ensures forall b, e :: s.first.Some? && s.redis.Some? && s.first.value < b <= s.redis.value && e in content(b) ==>
            e in s.ever
    ensures forall b, e :: s.first.Some? && s.mysql.Some? && s.first.value < b <= s.mysql.value && e in content(b) ==>
            e in s.ever
    ensures s.redis.Some? || s.mysql.Some? ==> s.first.Some?
    ensures s.process.Some? ==> InBlockOrder(s.run)
    ensures s.process.Some? && !s.process.value.cancelled ==>
              s.run == Events(content, s.process.value.start, s.process.value.current)
                  + Partial(content, s.process.value)
  {
    EmptyInv(content, confirmations);
    RunKeepsInv(content, confirmations, EMPTY, steps, s);
  }

  // --- Where the conditions are needed -------------------------------------------------------------------------

  /** A cursor below `confirmations` rewinds past zero. From any positive cursor, that of Redis or else that of MySQL,
      the next poll moves exactly when the cursor reaches `confirmations`, or the chain has grown to the wrapped start,
      2^64 + cursor - confirmations. */
  lemma RewindMoves(content: Content, confirmations: nat, s: State, step: Step, n: nat, latest: nat)
    requires confirmations < U64 && Enabled(content, s, step) && step.Start?
    requires Cursor(s.redis, s.mysql, step) == Some(n) && n < latest < U64
    ensures var s' := Apply(content, confirmations, s, step);
            s'.process.value.current == Rewind(n, confirmations)
            && (Apply(content, confirmations, s', BeginPoll(latest)) != s'
                <==> confirmations <= n || U64 + n - confirmations < latest)
  {
    if confirmations <= n {
      assert Rewind(n, confirmations) == n - confirmations;
    } else {
      assert Rewind(n, confirmations) == U64 + n - confirmations;
    }
  }

  /** A listener that has progressed before and starts from the tip, because its cursors are gone or their stores do not
      answer: once it completes its first block, the range up to its cursor is gap-free exactly when the tip was not
      above the highest block done. */
  lemma TipRestart(content: Content, confirmations: nat, s: State, step: Step, tip: nat, s': State)
    requires confirmations < U64 && Inv(content, confirmations, s) && s.first.Some? && s.process.None?
    requires step.Start? && FromTip(s.redis, s.mysql, step) && step.tip == Some(tip)
    requires Enabled(content, s, step) && s' == Apply(content, confirmations, s, step)
    ensures s'.process == Some(Process(tip, tip, 0, Idle, false))
    ensures var done := s'.done + {tip + 1};
            (forall b :: s.first.value < b <= tip + 1 ==> b in done) <==> tip <= s.high
  {
    var done := s'.done + {tip + 1};
    if tip > s.high {
      assert tip !in done && s.first.value < tip;
    }
  }
}
