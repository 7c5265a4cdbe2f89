/** From the blocks of a chain to the log rows: polling, the event channel, the workers, matched.events and the
    expander, with crashes and redeliveries, for fixed subscriptions. */
module Pipeline {
  import opened Prelude
  import opened Events
  import BP = BlockProgress

  /** What does not change: the blocks, the hits of a raw event, the addresses that are to hear of a hit, and how far a
      restart rewinds. */
  datatype Site = Site(content: BP.Content, hits: BP.RawEvent -> set<Event>, due: Event -> set<nat>, confirmations: nat)

  /** A log row is known by its event id and address id; `channel` also holds what the workers are busy with. */
  type Pair = (string, nat)

  datatype State = State(block: BP.State, channel: multiset<BP.RawEvent>, matched: multiset<Event>,
                         logs: multiset<Pair>)

  datatype Step =
    | Block(step: BP.Step)
    | Work(raw: BP.RawEvent, copies: multiset<Event>)
    | WorkPartly(raw: BP.RawEvent, copies: multiset<Event>)
    | Expand(event: Event, addresses: set<nat>, ack: bool)

  /** Copies of hits only, at most three of each. */
  ghost predicate Copied(site: Site, raw: BP.RawEvent, copies: multiset<Event>) {
    forall e :: e in copies ==> e in site.hits(raw) && copies[e] <= 3
  }

  /** In flight at a crash may only be events of the last `confirmations` blocks, and a listener that has lost both
      cursors must not start from a tip that leaves such a block out. */
  ghost predicate Safe(site: Site, s: State, step: BP.Step) {
    match step
    case Crash => forall raw :: raw in s.channel ==> s.block.high < raw.blockNum + site.confirmations
    case Start(_, _, tip) =>
      BP.FromTip(s.block.redis, s.block.mysql, step) && tip.Some? && s.block.first.Some? ==>
        tip.value + site.confirmations <= s.block.high
    case _ => true
  }

  /** What can happen at all: crashes at any moment, whatever is in flight; workers that lose hits; an expander that is
      cut short, or acknowledges without having reached anybody. */
  predicate Possible(site: Site, s: State, step: Step)
    requires site.confirmations < BP.U64
  {
    match step
    case Block(b) => BP.Enabled(site.content, s.block, b)
    case Work(raw, _) => raw in s.channel
    case WorkPartly(raw, _) => raw in s.channel
    case Expand(e, _, _) => e in s.matched
  }

  /** A worker publishes every hit and is done with the raw event, or dies in between; the expander creates the rows
      that are due and acknowledges, or is cut short and gets the message again. */
  ghost predicate Allowed(site: Site, s: State, step: Step)
    requires site.confirmations < BP.U64
  {
    match step
    case Block(b) => BP.Allowed(site.content, site.confirmations, s.block, b) && Safe(site, s, b)
    case Work(raw, copies) =>
      raw in s.channel && Copied(site, raw, copies) && forall e :: e in site.hits(raw) ==> e in copies
    case WorkPartly(raw, copies) => raw in s.channel && Copied(site, raw, copies)
    case Expand(e, addresses, ack) => e in s.matched && addresses <= site.due(e) && (ack ==> addresses == site.due(e))
  }

  /** Rows for those of the addresses that have none yet. */
  ghost function WithRows(logs: multiset<Pair>, e: Event, addresses: set<nat>): multiset<Pair> {
    logs + multiset(set a | a in addresses && (KeyOf(e), a) !in logs :: (KeyOf(e), a))
  }

  ghost function Apply(site: Site, s: State, step: Step): State
    requires site.confirmations < BP.U64 && Possible(site, s, step)
  {
    match step
    case Block(b) =>
      State(BP.Apply(site.content, site.confirmations, s.block, b), ChannelAfter(site, s, b), s.matched, s.logs)
    case Work(raw, copies) => s.(channel := s.channel - multiset{raw}, matched := s.matched + copies)
    case WorkPartly(raw, copies) => s.(matched := s.matched + copies)
    case Expand(e, addresses, ack) =>
      s.(matched := if ack then s.matched - multiset{e} else s.matched, logs := WithRows(s.logs, e, addresses))
  }

  ghost function ChannelAfter(site: Site, s: State, step: BP.Step): multiset<BP.RawEvent>
    requires BP.Enabled(site.content, s.block, step)
  {
    if step.Send? then
      var p := s.block.process.value;
      s.channel + multiset{site.content(p.current + 1)[p.phase.sent]}
    else if step.Crash? then multiset{}
    else s.channel
  }

  // --- Nothing gets lost ----------------------------------------------------------------------------------------

  ghost predicate Settled(site: Site, s: State, e: Event) {
    e in s.matched || forall a :: a in site.due(e) ==> (KeyOf(e), a) in s.logs
  }

  /** Still in the channel, or all its hits are queued or have their rows. */
  ghost predicate InHand(site: Site, s: State, raw: BP.RawEvent) {
    raw in s.channel || forall e :: e in site.hits(raw) ==> Settled(site, s, e)
  }

  ghost predicate BlockInHand(site: Site, s: State, b: nat) {
    forall raw :: raw in site.content(b) ==> InHand(site, s, raw)
  }

  ghost predicate PartInHand(site: Site, s: State) {
    s.block.process.Some? ==> forall raw :: raw in BP.Partial(site.content, s.block.process.value) ==>
        InHand(site, s, raw)
  }

  /** Blocks no restart will send again, and blocks this run is past. */
  predicate Covered(site: Site, block: BP.State, b: nat) {
    && block.first.Some? && block.first.value < b
    && (b + site.confirmations <= block.high || (block.process.Some? && b <= block.process.value.current <= block.high))
  }

  ghost predicate Inv(site: Site, s: State)
    requires site.confirmations < BP.U64
  {
    && BP.Inv(site.content, site.confirmations, s.block)
    && (forall b :: Covered(site, s.block, b) ==> BlockInHand(site, s, b))
    && PartInHand(site, s)
    && (forall p :: s.logs[p] <= 1)
  }

  lemma WithRowsCounts(logs: multiset<Pair>, e: Event, addresses: set<nat>, p: Pair)
    ensures WithRows(logs, e, addresses)[p] == logs[p]
            + if p.0 == KeyOf(e) && p.1 in addresses && p !in logs then 1 else 0
  {
    var more := set a | a in addresses && (KeyOf(e), a) !in logs :: (KeyOf(e), a);
    assert p in more <==> p.0 == KeyOf(e) && p.1 in addresses && p !in logs;
  }

  /** Settled stays settled: a message only goes when its rows are there, and no row goes. */
  lemma SettledStays(site: Site, s: State, step: Step, e: Event)
    requires site.confirmations < BP.U64 && Allowed(site, s, step) && Settled(site, s, e)
    ensures Settled(site, Apply(site, s, step), e)
  {
    var s' := Apply(site, s, step);
    if step.Expand? {
      forall p | p in s.logs ensures p in s'.logs {
        WithRowsCounts(s.logs, step.event, step.addresses, p);
      }
      if e in s.matched && e !in s'.matched {
        forall a | a in site.due(e) ensures (KeyOf(e), a) in s'.logs {
          WithRowsCounts(s.logs, step.event, step.addresses, (KeyOf(e), a));
        }
      }
    }
  }

  /** Except at a crash, what is in hand stays in hand. */
  lemma InHandStays(site: Site, s: State, step: Step, raw: BP.RawEvent)
    requires site.confirmations < BP.U64 && Allowed(site, s, step) && InHand(site, s, raw)
    requires step.Block? && step.step.Crash? ==> raw !in s.channel
    ensures InHand(site, Apply(site, s, step), raw)
  {
    var s' := Apply(site, s, step);
    if raw in s.channel && raw !in s'.channel {
      assert step.Work? && step.raw == raw;
    } else if raw !in s.channel {
      forall e | e in site.hits(raw) ensures Settled(site, s', e) {
        SettledStays(site, s, step, e);
      }
    }
  }

  lemma BlockInHandStays(site: Site, s: State, step: Step, b: nat)
    requires site.confirmations < BP.U64 && Allowed(site, s, step) && BlockInHand(site, s, b)
    requires step.Block? && step.step.Crash? ==> forall raw :: raw in site.content(b) ==> raw !in s.channel
    ensures BlockInHand(site, Apply(site, s, step), b)
  {
    forall raw | raw in site.content(b) ensures InHand(site, Apply(site, s, step), raw) {
      InHandStays(site, s, step, raw);
    }
  }

  lemma WorkKeepsInv(site: Site, s: State, step: Step)
    requires site.confirmations < BP.U64 && Inv(site, s) && Allowed(site, s, step) && !step.Block?
    ensures Inv(site, Apply(site, s, step))
  {
    var s' := Apply(site, s, step);
    forall b | Covered(site, s'.block, b) ensures BlockInHand(site, s', b) {
      BlockInHandStays(site, s, step, b);
    }
    if s.block.process.Some? {
      forall raw | raw in BP.Partial(site.content, s.block.process.value) ensures InHand(site, s', raw) {
        InHandStays(site, s, step, raw);
      }
    }
    if step.Expand? {
      forall p ensures s'.logs[p] <= 1 {
        WithRowsCounts(s.logs, step.event, step.addresses, p);
      }
    }
  }

  lemma CrashKeepsInv(site: Site, s: State)
    requires site.confirmations < BP.U64 && Inv(site, s) && BP.Numbered(site.content)
    requires Allowed(site, s, Block(BP.Crash))
    ensures Inv(site, Apply(site, s, Block(BP.Crash)))
  {
    var s' := Apply(site, s, Block(BP.Crash));
    BP.StepKeepsInv(site.content, site.confirmations, s.block, BP.Crash);
    forall b | Covered(site, s'.block, b) ensures BlockInHand(site, s', b) {
      assert Covered(site, s.block, b);
      forall raw | raw in site.content(b) ensures raw !in s.channel {
        assert raw.blockNum == b;
      }
      BlockInHandStays(site, s, Block(BP.Crash), b);
    }
  }

  /** A restart begins at or below the blocks that are safe, or so far off that it never moves. */
  lemma RestartIsLow(site: Site, s: State, step: BP.Step)
    requires site.confirmations < BP.U64 && Inv(site, s) && step.Start? && Allowed(site, s, Block(step))
    ensures var s' := BP.Apply(site.content, site.confirmations, s.block, step);
            forall b :: Covered(site, s', b) ==> Covered(site, s.block, b)
  {
    var start := BP.InitialBlock(s.block.redis, s.block.mysql, site.confirmations, step);
    var high := s.block.high;
    if start.Some? && s.block.first.Some? {
      assert start.value + site.confirmations <= high || high < start.value;
    }
  }

  lemma StartKeepsInv(site: Site, s: State, step: BP.Step)
    requires site.confirmations < BP.U64 && Inv(site, s) && BP.Numbered(site.content)
    requires step.Start? && Allowed(site, s, Block(step))
    ensures Inv(site, Apply(site, s, Block(step)))
  {
    var s' := Apply(site, s, Block(step));
    BP.StepKeepsInv(site.content, site.confirmations, s.block, step);
    RestartIsLow(site, s, step);
    forall b | Covered(site, s'.block, b) ensures BlockInHand(site, s', b) {
      BlockInHandStays(site, s, Block(step), b);
    }
  }

  lemma SendKeepsInv(site: Site, s: State)
    requires site.confirmations < BP.U64 && Inv(site, s) && BP.Numbered(site.content)
    requires Allowed(site, s, Block(BP.Send))
    ensures Inv(site, Apply(site, s, Block(BP.Send)))
  {
    var step := Block(BP.Send);
    var s' := Apply(site, s, step);
    BP.StepKeepsInv(site.content, site.confirmations, s.block, BP.Send);
    forall b | Covered(site, s'.block, b) ensures BlockInHand(site, s', b) {
      BlockInHandStays(site, s, step, b);
    }
    SendKeepsPart(site, s, s');
  }

  lemma SendKeepsPart(site: Site, s: State, s': State)
    requires site.confirmations < BP.U64 && PartInHand(site, s) && Allowed(site, s, Block(BP.Send))
    requires s' == Apply(site, s, Block(BP.Send))
    ensures PartInHand(site, s')
  {
    var p := s.block.process.value;
    var block := site.content(p.current + 1);
    assert block[..p.phase.sent + 1] == block[..p.phase.sent] + [block[p.phase.sent]];
    forall raw | raw in BP.Partial(site.content, s'.block.process.value) ensures InHand(site, s', raw) {
      if raw in BP.Partial(site.content, p) {
        InHandStays(site, s, Block(BP.Send), raw);
      } else {
        assert raw == block[p.phase.sent] && raw in s'.channel;
      }
    }
  }

  /** A completed block joins the covered ones, and no other does. */
  lemma FinishCovers(site: Site, block: BP.State, redisUp: bool, b: nat)
    requires site.confirmations < BP.U64 && BP.Inv(site.content, site.confirmations, block)
    requires BP.Allowed(site.content, site.confirmations, block, BP.FinishBlock(redisUp))
    requires Covered(site, BP.Apply(site.content, site.confirmations, block, BP.FinishBlock(redisUp)), b)
    ensures b == block.process.value.current + 1 || Covered(site, block, b)
  {
  }

  lemma WholeBlockInHand(site: Site, s: State)
    requires s.block.process.Some? && s.block.process.value.phase.Sending? && PartInHand(site, s)
    requires s.block.process.value.phase.sent == |site.content(s.block.process.value.current + 1)|
    ensures BlockInHand(site, s, s.block.process.value.current + 1)
  {
    var p := s.block.process.value;
    var block := site.content(p.current + 1);
    assert block[..p.phase.sent] == block;
  }

  lemma FinishKeepsInv(site: Site, s: State, redisUp: bool)
    requires site.confirmations < BP.U64 && Inv(site, s) && BP.Numbered(site.content)
    requires Allowed(site, s, Block(BP.FinishBlock(redisUp)))
    ensures Inv(site, Apply(site, s, Block(BP.FinishBlock(redisUp))))
  {
    var step := Block(BP.FinishBlock(redisUp));
    var s' := Apply(site, s, step);
    BP.StepKeepsInv(site.content, site.confirmations, s.block, BP.FinishBlock(redisUp));
    forall b | Covered(site, s'.block, b) ensures BlockInHand(site, s', b) {
      FinishedInHand(site, s, redisUp, s'.block, b);
      BlockInHandStays(site, s, step, b);
    }
  }

  lemma FinishedInHand(site: Site, s: State, redisUp: bool, block: BP.State, b: nat)
    requires site.confirmations < BP.U64 && Inv(site, s) && Allowed(site, s, Block(BP.FinishBlock(redisUp)))
    requires block == BP.Apply(site.content, site.confirmations, s.block, BP.FinishBlock(redisUp))
    requires Covered(site, block, b)
    ensures BlockInHand(site, s, b)
  {
    FinishCovers(site, s.block, redisUp, b);
    WholeBlockInHand(site, s);
  }

  lemma QuietKeepsInv(site: Site, s: State, step: BP.Step)
    requires site.confirmations < BP.U64 && Inv(site, s) && BP.Numbered(site.content) && Allowed(site, s, Block(step))
    requires !step.Start? && !step.Send? && !step.FinishBlock? && !step.Crash?
    ensures Inv(site, Apply(site, s, Block(step)))
  {
    var s' := Apply(site, s, Block(step));
    BP.StepKeepsInv(site.content, site.confirmations, s.block, step);
    forall b | Covered(site, s'.block, b) ensures BlockInHand(site, s', b) {
      BlockInHandStays(site, s, Block(step), b);
    }
    if s'.block.process.Some? {
      forall raw | raw in BP.Partial(site.content, s'.block.process.value) ensures InHand(site, s', raw) {
        InHandStays(site, s, Block(step), raw);
      }
    }
  }

  lemma StepKeepsInv(site: Site, s: State, step: Step)
    requires site.confirmations < BP.U64 && Inv(site, s) && BP.Numbered(site.content) && Allowed(site, s, step)
    ensures Inv(site, Apply(site, s, step))
  {
    if !step.Block? {
      WorkKeepsInv(site, s, step);
    } else {
      match step.step
      case Start(_, _, _) => StartKeepsInv(site, s, step.step);
      case Send => SendKeepsInv(site, s);
      case FinishBlock(redisUp) => FinishKeepsInv(site, s, redisUp);
      case Crash => CrashKeepsInv(site, s);
      case _ => QuietKeepsInv(site, s, step.step);
    }
  }

  ghost predicate Run(site: Site, s: State, steps: seq<Step>, s': State)
    requires site.confirmations < BP.U64
    decreases |steps|
  {
    if steps == [] then s == s' else Allowed(site, s, steps[0]) && Run(site, Apply(site, s, steps[0]), steps[1..], s')
  }

  const EMPTY := State(BP.EMPTY, multiset{}, multiset{}, multiset{})

  lemma {:induction false} RunKeepsInv(site: Site, s: State, steps: seq<Step>, s': State)
    requires site.confirmations < BP.U64 && Inv(site, s) && BP.Numbered(site.content) && Run(site, s, steps, s')
    ensures Inv(site, s')
    decreases |steps|
  {
    if steps == [] {
    } else {
      StepKeepsInv(site, s, steps[0]);
      RunKeepsInv(site, Apply(site, s, steps[0]), steps[1..], s');
    }
  }

  lemma EmptyInv(site: Site)
    requires site.confirmations < BP.U64
    ensures Inv(site, EMPTY)
  {
    BP.EmptyInv(site.content, site.confirmations);
  }

  /** A hit of an event of a covered block, and an address that is to hear of it. */
  ghost predicate Owed(site: Site, s: State, b: nat, raw: BP.RawEvent, e: Event, a: nat) {
    Covered(site, s.block, b) && raw in site.content(b) && e in site.hits(raw) && a in site.due(e)
  }

  /** At-least-once polling into an idempotent sink. At no time has an event two rows for an address; and once
      channel and queue are empty, every hit of every covered block has exactly one row for each address that is
      to hear of it. */
  lemma ExactlyOnce(site: Site, steps: seq<Step>, s: State)
    requires site.confirmations < BP.U64 && BP.Numbered(site.content) && Run(site, EMPTY, steps, s)
    ensures forall p :: s.logs[p] <= 1
    ensures s.channel == multiset{} && s.matched == multiset{} ==>
              forall b, raw, e, a :: Owed(site, s, b, raw, e, a) ==> s.logs[(KeyOf(e), a)] == 1
  {
    EmptyInv(site);
    RunKeepsInv(site, EMPTY, steps, s);
    if s.channel == multiset{} && s.matched == multiset{} {
      forall b, raw, e, a | Owed(site, s, b, raw, e, a) ensures s.logs[(KeyOf(e), a)] == 1 {
        assert BlockInHand(site, s, b) && InHand(site, s, raw) && Settled(site, s, e);
      }
    }
  }

  lemma OwedOnce(site: Site, steps: seq<Step>, s: State, b: nat, raw: BP.RawEvent, e: Event, a: nat)
    requires site.confirmations < BP.U64 && BP.Numbered(site.content) && Run(site, EMPTY, steps, s)
    requires s.channel == multiset{} && s.matched == multiset{} && Owed(site, s, b, raw, e, a)
    ensures s.logs[(KeyOf(e), a)] == 1
  {
    ExactlyOnce(site, steps, s);
  }

  // --- At most one row, whatever happens ------------------------------------------------------------------------

  ghost predicate PossibleRun(site: Site, s: State, steps: seq<Step>, s': State)
    requires site.confirmations < BP.U64
    decreases |steps|
  {
    if steps == [] then s == s'
    else Possible(site, s, steps[0]) && PossibleRun(site, Apply(site, s, steps[0]), steps[1..], s')
  }

  /** Over any run of polls, faults, crashes, restarts and redeliveries a pair has at most one row. */
  lemma {:induction false} AtMostOneRow(site: Site, s: State, steps: seq<Step>, s': State)
    requires site.confirmations < BP.U64 && PossibleRun(site, s, steps, s') && forall p :: s.logs[p] <= 1
    ensures forall p :: s'.logs[p] <= 1
    decreases |steps|
  {
    if steps == [] {
    } else {
      OneRowStays(site, s, steps[0]);
      AtMostOneRow(site, Apply(site, s, steps[0]), steps[1..], s');
    }
  }

  lemma OneRowStays(site: Site, s: State, step: Step)
    requires site.confirmations < BP.U64 && Possible(site, s, step) && forall p :: s.logs[p] <= 1
    ensures forall p :: Apply(site, s, step).logs[p] <= 1
  {
    if step.Expand? {
      forall p ensures WithRows(s.logs, step.event, step.addresses)[p] <= 1 {
        WithRowsCounts(s.logs, step.event, step.addresses, p);
      }
    }
  }

  // --- Nothing else appears -------------------------------------------------------------------------------------

  ghost predicate HitOf(site: Site, block: BP.State, e: Event) {
    exists raw :: raw in block.ever && e in site.hits(raw)
  }

  ghost predicate RowOf(site: Site, block: BP.State, p: Pair) {
    exists e :: HitOf(site, block, e) && p.0 == KeyOf(e) && p.1 in site.due(e)
  }

  /** Messages are hits of raw events that were handed over, and rows are due to such hits. */
  ghost predicate Sourced(site: Site, s: State) {
    && (forall raw :: raw in s.channel ==> raw in s.block.ever)
    && (forall e :: e in s.matched ==> HitOf(site, s.block, e))
    && (forall p :: p in s.logs ==> RowOf(site, s.block, p))
  }

  lemma HitStays(site: Site, block: BP.State, block': BP.State, e: Event)
    requires block.ever <= block'.ever && HitOf(site, block, e)
    ensures HitOf(site, block', e)
  {
    var raw :| raw in block.ever && e in site.hits(raw);
    assert raw in block'.ever;
  }

  lemma RowStays(site: Site, block: BP.State, block': BP.State, p: Pair)
    requires block.ever <= block'.ever && RowOf(site, block, p)
    ensures RowOf(site, block', p)
  {
    var e :| HitOf(site, block, e) && p.0 == KeyOf(e) && p.1 in site.due(e);
    HitStays(site, block, block', e);
  }

  lemma SourcedBlock(site: Site, s: State, step: BP.Step)
    requires site.confirmations < BP.U64 && Sourced(site, s) && Allowed(site, s, Block(step))
    ensures Sourced(site, Apply(site, s, Block(step)))
  {
    var block' := BP.Apply(site.content, site.confirmations, s.block, step);
    assert s.block.ever <= block'.ever;
    forall e | e in s.matched ensures HitOf(site, block', e) {
      HitStays(site, s.block, block', e);
    }
    forall p | p in s.logs ensures RowOf(site, block', p) {
      RowStays(site, s.block, block', p);
    }
  }

  lemma SourcedWork(site: Site, s: State, step: Step)
    requires site.confirmations < BP.U64 && Sourced(site, s) && Allowed(site, s, step) && !step.Block?
    ensures Sourced(site, Apply(site, s, step))
  {
    var s' := Apply(site, s, step);
    if step.Expand? {
      forall p | p in s'.logs ensures RowOf(site, s.block, p) {
        WithRowsCounts(s.logs, step.event, step.addresses, p);
        assert HitOf(site, s.block, step.event);
      }
    } else {
      forall e | e in s'.matched ensures HitOf(site, s.block, e) {
        assert e in s.matched || (e in site.hits(step.raw) && step.raw in s.block.ever);
      }
    }
  }

  /** Every row was due to a hit of an event that was handed over. */
  lemma {:induction false} OnlyDueRows(site: Site, s: State, steps: seq<Step>, s': State)
    requires site.confirmations < BP.U64 && Sourced(site, s) && Run(site, s, steps, s')
    ensures Sourced(site, s')
    decreases |steps|
  {
    if steps == [] {
    } else {
      if steps[0].Block? {
        SourcedBlock(site, s, steps[0].step);
      } else {
        SourcedWork(site, s, steps[0]);
      }
      OnlyDueRows(site, Apply(site, s, steps[0]), steps[1..], s');
    }
  }
}
