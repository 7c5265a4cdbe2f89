/** What a crash costs. After a restart from the Redis cursor an event that was in flight is handed over again, and its
    rows can still be written, exactly when its block is one of the last `confirmations`. */
module CrashLoss {
  import opened Prelude
  import opened Events
  import opened Pipeline

  /** The state after a crash and a restart from the Redis cursor. */
  function Restarted(site: Site, s: State): State
    requires site.confirmations < BP.U64 && s.block.process.Some? && BP.Sized(s.block)
  {
    var down := BP.Apply(site.content, site.confirmations, s.block, BP.Crash);
    State(BP.Apply(site.content, site.confirmations, down, BP.Start(true, false, None)), multiset{}, s.matched, s.logs)
  }

  /** The cursor is at the highest block, and far enough to rewind. */
  ghost predicate AtHigh(site: Site, s: State) {
    && site.confirmations < BP.U64 && s.block.process.Some? && BP.Inv(site.content, site.confirmations, s.block)
    && s.block.redis == Some(s.block.high) && site.confirmations <= s.block.high && 0 < s.block.high
    && BP.Sized(s.block)
  }

  lemma RestartedBlock(site: Site, s: State)
    requires AtHigh(site, s)
    ensures var b := Restarted(site, s).block;
            && b.process == Some(BP.Process(s.block.high - site.confirmations, s.block.high - site.confirmations, 0,
                                            BP.Idle, false))
            && b.run == [] && b.high == s.block.high && b.first == s.block.first
    ensures BP.Inv(site.content, site.confirmations, Restarted(site, s).block)
  {
    BP.CursorKeepsInv(site.content, site.confirmations, s.block, BP.Crash);
    StartedAt(site, BP.Apply(site.content, site.confirmations, s.block, BP.Crash));
  }

  lemma StartedAt(site: Site, down: BP.State)
    requires site.confirmations < BP.U64 && BP.Inv(site.content, site.confirmations, down) && BP.Sized(down)
    requires down.process.None? && down.first.Some? && down.redis == Some(down.high)
    requires site.confirmations <= down.high && 0 < down.high
    ensures var b := BP.Apply(site.content, site.confirmations, down, BP.Start(true, false, None));
            var start := down.high - site.confirmations;
            && b == down.(process := Some(BP.Process(start, start, 0, BP.Idle, false)), run := [])
            && BP.Inv(site.content, site.confirmations, b)
  {
    assert BP.Rewind(down.high, site.confirmations) == down.high - site.confirmations;
    BP.StartKeepsInv(site.content, site.confirmations, down, BP.Start(true, false, None));
  }

  /** The listener is not started again. */
  ghost predicate OneRun(steps: seq<Step>) {
    forall i :: 0 <= i < |steps| ==> !(steps[i].Block? && steps[i].step.Start?)
  }

  /** The listener has completed block b and was not cancelled inside a block. */
  predicate Reached(s: State, b: nat) {
    s.block.process.Some? && !s.block.process.value.cancelled && b <= s.block.process.value.current
  }

  // --- An older event is lost ------------------------------------------------------------------------------------

  /** Only one raw event has hits with the key of e. */
  ghost predicate OnlySource(site: Site, raw: BP.RawEvent, e: Event) {
    forall other, f :: f in site.hits(other) && KeyOf(f) == KeyOf(e) ==> other == raw
  }

  /** The event is in nobody's hands, the pair has no row, and the listener is past its block. */
  ghost predicate Gone(s: State, raw: BP.RawEvent, e: Event, a: nat) {
    && raw !in s.channel && (forall f :: f in s.matched ==> KeyOf(f) != KeyOf(e)) && (KeyOf(e), a) !in s.logs
    && (s.block.process.Some? ==> raw.blockNum <= s.block.process.value.current)
  }

  lemma GoneStays(site: Site, s: State, step: Step, raw: BP.RawEvent, e: Event, a: nat)
    requires site.confirmations < BP.U64 && BP.Numbered(site.content) && OnlySource(site, raw, e)
    requires Gone(s, raw, e, a) && Allowed(site, s, step) && !(step.Block? && step.step.Start?)
    ensures Gone(Apply(site, s, step), raw, e, a)
  {
    match step
    case Block(b) => GoneBlock(site, s, b, raw, e, a);
    case Work(_, _) => GoneWork(site, s, step, raw, e, a);
    case WorkPartly(_, _) => GoneWork(site, s, step, raw, e, a);
    case Expand(f, addresses, ack) => GoneExpand(site, s, f, addresses, ack, raw, e, a);
  }

  lemma GoneExpand(site: Site, s: State, f: Event, addresses: set<nat>, ack: bool, raw: BP.RawEvent, e: Event, a: nat)
    requires site.confirmations < BP.U64 && Gone(s, raw, e, a) && Allowed(site, s, Expand(f, addresses, ack))
    ensures Gone(Apply(site, s, Expand(f, addresses, ack)), raw, e, a)
  {
    WithRowsCounts(s.logs, f, addresses, (KeyOf(e), a));
  }

  lemma GoneBlock(site: Site, s: State, step: BP.Step, raw: BP.RawEvent, e: Event, a: nat)
    requires site.confirmations < BP.U64 && BP.Numbered(site.content) && Gone(s, raw, e, a)
    requires Allowed(site, s, Block(step)) && !step.Start?
    ensures Gone(Apply(site, s, Block(step)), raw, e, a)
  {
    assert raw !in ChannelAfter(site, s, step) by {
      if step.Send? {
        SentIsLater(site, s, raw);
      }
    }
  }

  lemma SentIsLater(site: Site, s: State, raw: BP.RawEvent)
    requires BP.Numbered(site.content) && BP.Enabled(site.content, s.block, BP.Send)
    requires raw.blockNum <= s.block.process.value.current
    ensures site.content(s.block.process.value.current + 1)[s.block.process.value.phase.sent] != raw
  {
    var p := s.block.process.value;
    var sent := site.content(p.current + 1)[p.phase.sent];
    assert sent in site.content(p.current + 1) && sent.blockNum == p.current + 1;
  }

  lemma GoneWork(site: Site, s: State, step: Step, raw: BP.RawEvent, e: Event, a: nat)
    requires site.confirmations < BP.U64 && OnlySource(site, raw, e) && Gone(s, raw, e, a)
    requires Allowed(site, s, step) && (step.Work? || step.WorkPartly?)
    ensures Gone(Apply(site, s, step), raw, e, a)
  {
    forall f | f in s.matched + step.copies ensures KeyOf(f) != KeyOf(e) {
      if f !in s.matched {
        assert f in step.copies && f in site.hits(step.raw) && step.raw != raw;
      }
    }
  }

  /** Until the listener is started again, no run writes the row. */
  lemma {:induction false} LostForever(site: Site, s: State, steps: seq<Step>, s': State, raw: BP.RawEvent,
                                       e: Event, a: nat)
    requires site.confirmations < BP.U64 && BP.Numbered(site.content) && OnlySource(site, raw, e)
    requires Gone(s, raw, e, a) && Run(site, s, steps, s') && OneRun(steps)
    ensures (KeyOf(e), a) !in s'.logs
    decreases |steps|
  {
    if steps == [] {
    } else {
      GoneStays(site, s, steps[0], raw, e, a);
      LostForever(site, Apply(site, s, steps[0]), steps[1..], s', raw, e, a);
    }
  }

  // --- A newer one is handed over again ------------------------------------------------------------------------------

  /** What the current run has sent is in hand: with the process gone the run is over. */
  ghost predicate RunInHand(site: Site, s: State) {
    s.block.process.Some? ==> forall raw :: raw in s.block.run ==> InHand(site, s, raw)
  }

  lemma RunInHandStays(site: Site, s: State, step: Step)
    requires site.confirmations < BP.U64 && RunInHand(site, s) && Allowed(site, s, step)
    requires !(step.Block? && step.step.Start?)
    ensures RunInHand(site, Apply(site, s, step))
  {
    var s' := Apply(site, s, step);
    if s'.block.process.Some? {
      forall raw | raw in s'.block.run ensures InHand(site, s', raw) {
        if raw in s.block.run {
          InHandStays(site, s, step, raw);
        } else {
          assert raw in s'.channel;
        }
      }
    }
  }

  /** One step keeps what the run relies on: what was sent is in hand, and the listener started where it did. */
  lemma RunInHandStep(site: Site, s: State, step: Step, s': State)
    requires site.confirmations < BP.U64 && BP.Numbered(site.content) && RunInHand(site, s)
    requires BP.Inv(site.content, site.confirmations, s.block)
    requires Allowed(site, s, step) && !(step.Block? && step.step.Start?) && s' == Apply(site, s, step)
    ensures RunInHand(site, s') && BP.Inv(site.content, site.confirmations, s'.block)
    ensures s'.block.process.Some? ==>
            s.block.process.Some? && s'.block.process.value.start == s.block.process.value.start
  {
    RunInHandStays(site, s, step);
    if step.Block? {
      BP.StepKeepsInv(site.content, site.confirmations, s.block, step.step);
    }
  }

  lemma {:induction false} RunInHandRun(site: Site, s: State, steps: seq<Step>, s': State)
    requires site.confirmations < BP.U64 && BP.Numbered(site.content) && RunInHand(site, s)
    requires BP.Inv(site.content, site.confirmations, s.block) && Run(site, s, steps, s') && OneRun(steps)
    ensures RunInHand(site, s') && BP.Inv(site.content, site.confirmations, s'.block)
    ensures s'.block.process.Some? ==>
            s.block.process.Some? && s'.block.process.value.start == s.block.process.value.start
    decreases |steps|
  {
    if steps == [] {
    } else {
      var m := Apply(site, s, steps[0]);
      RunInHandStep(site, s, steps[0], m);
      RunInHandRun(site, m, steps[1..], s');
    }
  }

  lemma {:induction false} InEvents(content: BP.Content, lo: nat, hi: nat, b: nat, raw: BP.RawEvent)
    requires lo < b <= hi && raw in content(b)
    ensures raw in BP.Events(content, lo, hi)
    decreases hi
  {
    if b == hi {
    } else {
      InEvents(content, lo, hi - 1, b, raw);
    }
  }

  /** A listener that started below a block and has completed it has handed over every event of it. */
  lemma HandedOver(site: Site, s: State, steps: seq<Step>, s': State, raw: BP.RawEvent)
    requires AtHigh(site, s) && BP.Numbered(site.content) && raw in site.content(raw.blockNum)
    requires s.block.high < raw.blockNum + site.confirmations
    requires Run(site, Restarted(site, s), steps, s') && OneRun(steps) && Reached(s', raw.blockNum)
    ensures raw in s'.block.run && InHand(site, s', raw)
  {
    RestartedBlock(site, s);
    RunInHandRun(site, Restarted(site, s), steps, s');
    var p := s'.block.process.value;
    InEvents(site.content, p.start, p.current, raw.blockNum, raw);
  }

  /** A run without another start that gets past a block. */
  ghost predicate Completed(site: Site, s: State, steps: seq<Step>, s': State, b: nat)
    requires site.confirmations < BP.U64
  {
    Run(site, s, steps, s') && OneRun(steps) && Reached(s', b)
  }

  /** Once the restarted listener has completed its block, an event that was in flight at the crash, and not settled, is
      in hand again in every run exactly when the block is one of the last `confirmations`. */
  lemma ResentIff(site: Site, s: State, raw: BP.RawEvent)
    requires AtHigh(site, s) && BP.Numbered(site.content) && raw in site.content(raw.blockNum)
    requires exists e :: e in site.hits(raw) && !Settled(site, s, e)
    ensures (forall steps, s' :: Completed(site, Restarted(site, s), steps, s', raw.blockNum) ==> InHand(site, s', raw))
       <==> s.block.high < raw.blockNum + site.confirmations
  {
    var r := Restarted(site, s);
    RestartedBlock(site, s);
    if s.block.high < raw.blockNum + site.confirmations {
      forall steps, s' | Completed(site, r, steps, s', raw.blockNum) ensures InHand(site, s', raw) {
        HandedOver(site, s, steps, s', raw);
      }
    } else {
      assert Completed(site, r, [], r, raw.blockNum);
      var e :| e in site.hits(raw) && !Settled(site, s, e);
      assert !Settled(site, r, e);
    }
  }

  // --- And its rows can be written --------------------------------------------------------------------------------

  /** Some run without another start writes the row of a pair. */
  ghost predicate Writable(site: Site, s: State, p: Pair)
    requires site.confirmations < BP.U64
  {
    exists steps, s' :: Run(site, s, steps, s') && OneRun(steps) && p in s'.logs
  }

  lemma WritableNow(site: Site, s: State, p: Pair)
    requires site.confirmations < BP.U64 && p in s.logs
    ensures Writable(site, s, p)
  {
    assert Run(site, s, [], s) && OneRun([]);
  }

  lemma WritableStep(site: Site, s: State, step: Step, s': State, p: Pair)
    requires site.confirmations < BP.U64 && Allowed(site, s, step) && !(step.Block? && step.step.Start?)
    requires s' == Apply(site, s, step) && Writable(site, s', p)
    ensures Writable(site, s, p)
  {
    var rest, last :| Run(site, s', rest, last) && OneRun(rest) && p in last.logs;
    var steps := [step] + rest;
    assert steps[1..] == rest && OneRun(steps);
    assert Run(site, s, steps, last);
  }

  /** A queued hit: the expander writes its rows. */
  lemma WritableMatched(site: Site, s: State, e: Event, a: nat)
    requires site.confirmations < BP.U64 && e in s.matched && a in site.due(e)
    ensures Writable(site, s, (KeyOf(e), a))
  {
    var expand := Expand(e, site.due(e), true);
    var s' := Apply(site, s, expand);
    WithRowsCounts(s.logs, e, site.due(e), (KeyOf(e), a));
    WritableNow(site, s', (KeyOf(e), a));
    WritableStep(site, s, expand, s', (KeyOf(e), a));
  }

  /** An event in the channel: a worker queues its hits. */
  lemma WritableInChannel(site: Site, s: State, raw: BP.RawEvent, e: Event, a: nat)
    requires site.confirmations < BP.U64 && raw in s.channel && e in site.hits(raw) && a in site.due(e)
    ensures Writable(site, s, (KeyOf(e), a))
  {
    var work := Work(raw, multiset(site.hits(raw)));
    var s' := Apply(site, s, work);
    assert e in s'.matched;
    WritableMatched(site, s', e, a);
    WritableStep(site, s, work, s', (KeyOf(e), a));
  }

  predicate Target(site: Site, raw: BP.RawEvent, e: Event, a: nat) {
    raw in site.content(raw.blockNum) && e in site.hits(raw) && a in site.due(e)
  }

  /** In the middle of a block, on the way to the block of an event: what is left is sent, and the block recorded. */
  lemma {:induction false} WritableSending(site: Site, s: State, raw: BP.RawEvent, e: Event, a: nat)
    requires site.confirmations < BP.U64 && Target(site, raw, e, a) && BP.InBlock(s.block)
    requires var p := s.block.process.value;
             && p.phase.latest == raw.blockNum && p.current < raw.blockNum
             && p.phase.sent <= |site.content(p.current + 1)|
             && (p.current + 1 == raw.blockNum ==> raw in site.content(raw.blockNum)[p.phase.sent..])
    ensures Writable(site, s, (KeyOf(e), a))
    decreases raw.blockNum - s.block.process.value.current, 1,
              |site.content(s.block.process.value.current + 1)| - s.block.process.value.phase.sent
  {
    var p := s.block.process.value;
    var block := site.content(p.current + 1);
    if p.phase.sent == |block| {
      var finish := Block(BP.FinishBlock(true));
      var s' := Apply(site, s, finish);
      WritableNext(site, s', raw, e, a);
      WritableStep(site, s, finish, s', (KeyOf(e), a));
    } else {
      var send := Block(BP.Send);
      var s' := Apply(site, s, send);
      assert block[p.phase.sent..] == [block[p.phase.sent]] + block[p.phase.sent + 1..];
      if block[p.phase.sent] == raw {
        assert raw in s'.channel;
        WritableInChannel(site, s', raw, e, a);
      } else {
        WritableSending(site, s', raw, e, a);
      }
      WritableStep(site, s, send, s', (KeyOf(e), a));
    }
  }

  /** Between two blocks, on the way to the block of an event. */
  lemma {:induction false} WritableNext(site: Site, s: State, raw: BP.RawEvent, e: Event, a: nat)
    requires site.confirmations < BP.U64 && Target(site, raw, e, a)
    requires s.block.process.Some? && s.block.process.value.phase == BP.Next(raw.blockNum)
    requires s.block.process.value.current < raw.blockNum
    ensures Writable(site, s, (KeyOf(e), a))
    decreases raw.blockNum - s.block.process.value.current, 2, 0
  {
    var fetch := Block(BP.FetchSucceeds);
    var s' := Apply(site, s, fetch);
    assert site.content(raw.blockNum)[0..] == site.content(raw.blockNum);
    WritableSending(site, s', raw, e, a);
    WritableStep(site, s, fetch, s', (KeyOf(e), a));
  }

  /** An idle listener that stands below the block of an event can still have its row written. */
  lemma WritableFrom(site: Site, s: State, raw: BP.RawEvent, e: Event, a: nat)
    requires site.confirmations < BP.U64 && s.block.process.Some? && s.block.process.value.phase.Idle?
    requires s.block.process.value.current < raw.blockNum < BP.U64 - site.confirmations && Target(site, raw, e, a)
    ensures Writable(site, s, (KeyOf(e), a))
  {
    var begin := Block(BP.BeginPoll(raw.blockNum));
    var s' := Apply(site, s, begin);
    WritableNext(site, s', raw, e, a);
    WritableStep(site, s, begin, s', (KeyOf(e), a));
  }

  lemma NotWritable(site: Site, s: State, raw: BP.RawEvent, e: Event, a: nat)
    requires site.confirmations < BP.U64 && BP.Numbered(site.content) && OnlySource(site, raw, e) && Gone(s, raw, e, a)
    ensures !Writable(site, s, (KeyOf(e), a))
  {
    forall steps, s' | Run(site, s, steps, s') && OneRun(steps) ensures (KeyOf(e), a) !in s'.logs {
      LostForever(site, s, steps, s', raw, e, a);
    }
  }

  /** Wherever a listener was started from, Redis, MySQL or the tip: the row of an event that is in nobody's hands
      can still be written before the next start exactly when the event's block is above the position it was
      started from. */
  lemma StartedWritesIff(site: Site, s: State, raw: BP.RawEvent, e: Event, a: nat)
    requires site.confirmations < BP.U64 && BP.Numbered(site.content) && OnlySource(site, raw, e)
    requires Target(site, raw, e, a) && raw.blockNum < BP.U64 - site.confirmations
    requires s.block.process.Some? && s.block.process.value.phase.Idle? && s.channel == multiset{}
    requires (forall f :: f in s.matched ==> KeyOf(f) != KeyOf(e)) && (KeyOf(e), a) !in s.logs
    ensures Writable(site, s, (KeyOf(e), a)) <==> s.block.process.value.current < raw.blockNum
  {
    if s.block.process.value.current < raw.blockNum {
      WritableFrom(site, s, raw, e, a);
    } else {
      NotWritable(site, s, raw, e, a);
    }
  }

  /** The row of a hit that was in flight at the crash can still be written before the next restart exactly when its
      block is one of the last `confirmations`: otherwise it is lost. */
  lemma RowWrittenIff(site: Site, s: State, raw: BP.RawEvent, e: Event, a: nat)
    requires AtHigh(site, s) && BP.Numbered(site.content) && OnlySource(site, raw, e)
    requires raw in site.content(raw.blockNum) && raw.blockNum <= s.block.high && e in site.hits(raw)
    requires a in site.due(e)
    requires (forall f :: f in s.matched ==> KeyOf(f) != KeyOf(e)) && (KeyOf(e), a) !in s.logs
    ensures Writable(site, Restarted(site, s), (KeyOf(e), a)) <==> s.block.high < raw.blockNum + site.confirmations
  {
    RestartedBlock(site, s);
    if s.block.high < raw.blockNum + site.confirmations {
      WritableFrom(site, Restarted(site, s), raw, e, a);
    } else {
      NotWritable(site, Restarted(site, s), raw, e, a);
    }
  }
}
