/** The block tracker and the polling listener of one chain. Each method is tied to the step machine of
    `BlockProgress`: what it does is one particular run of it. */
module Poller {
  import opened Prelude
  import opened BlockProgress

  /** The two stored cursors of a chain, and the MySQL upserts still on their way. */
  class Cursors {
    var redis: Option<nat>
    var mysql: Option<nat>
    var pending: multiset<nat>

    constructor ()
      ensures redis == None && mysql == None && pending == multiset{}
    {
      redis, mysql, pending := None, None, multiset{};
    }

    /** INSERT ... ON DUPLICATE KEY UPDATE last_block: whichever upsert lands last wins. */
    method UpsertLands(block: nat)
      requires block in pending
      modifies this
      ensures mysql == Some(block) && pending == old(pending) - multiset{block} && redis == old(redis)
    {
      mysql, pending := Some(block), pending - multiset{block};
    }
  }

  class BlockTracker {
    const confirmations: nat
    const cursors: Cursors
    var current: nat
    var counter: nat

    constructor (confirmations: nat, cursors: Cursors)
      ensures this.confirmations == confirmations && this.cursors == cursors && current == 0 && counter == 0
    {
      this.confirmations, this.cursors := confirmations, cursors;
      current, counter := 0, 0;
    }

    ghost predicate Matches(s: State)
      reads this, cursors
    {
      && s.redis == cursors.redis && s.mysql == cursors.mysql && s.pending == cursors.pending
      && s.process.Some? && s.process.value.current == current && s.process.value.counter == counter
    }

    method Init(redisUp: bool, mysqlUp: bool, tip: Option<nat>, ghost content: Content, ghost s: State)
      returns (ok: bool, start: nat)
      requires confirmations < U64 && Sized(s) && s.process.None? && counter == 0
      requires s.redis == cursors.redis && s.mysql == cursors.mysql && s.pending == cursors.pending
      modifies this
      ensures var found := InitialBlock(s.redis, s.mysql, confirmations, Start(redisUp, mysqlUp, tip));
              ok == found.Some? && (ok ==> start == found.value)
      ensures ok ==> Matches(Apply(content, confirmations, s, Start(redisUp, mysqlUp, tip)))
      ensures !ok ==> current == old(current)
      ensures var r, m := cursors.redis, cursors.mysql;
              && (redisUp && r.Some? && confirmations <= r.value && 0 < r.value ==>
                    ok && start == r.value - confirmations)
              && (!redisUp && mysqlUp && m.Some? && confirmations <= m.value && 0 < m.value ==>
                    ok && start == m.value - confirmations)
              && (!redisUp && !mysqlUp ==> ok == tip.Some? && (ok ==> start == tip.value))
    {
      ok := true;
      if redisUp && cursors.redis.Some? && cursors.redis.value > 0 {
        start := Rewind(cursors.redis.value, confirmations);
        current := start;
        return;
      }
      if mysqlUp && cursors.mysql.Some? && cursors.mysql.value > 0 {
        start := Rewind(cursors.mysql.value, confirmations);
        current := start;
        return;
      }
      if tip.None? {
        return false, 0;
      }
      start := tip.value;
      current := start;
    }

    /** Every block moves the Redis cursor; every hundredth also sends an upsert on its way. */
    method Update(block: nat, redisUp: bool)
      modifies this, cursors
      ensures current == block && counter == old(counter) + 1
      ensures cursors.redis == if redisUp then Some(block) else old(cursors.redis)
      ensures cursors.pending
              == if counter % 100 == 0 then old(cursors.pending) + multiset{block} else old(cursors.pending)
      ensures cursors.mysql == old(cursors.mysql)
    {
      current := block;
      if redisUp {
        cursors.redis := Some(block);
      }
      counter := counter + 1;
      if counter % 100 == 0 {
        cursors.pending := cursors.pending + multiset{block};
      }
    }
  }

  class EventChannel {
    var sent: seq<RawEvent>

    constructor ()
      ensures sent == []
    {
      sent := [];
    }
  }

  /** The chain as one poll sees it: the blocks whose fetch succeeds. */
  type Fetch = map<nat, seq<RawEvent>>

  function Fetched(fetch: Fetch, i: nat): Option<seq<RawEvent>> {
    if i in fetch then Some(fetch[i]) else None
  }

  datatype Outcome = Done | FetchError(block: nat) | Cancelled

  /** How far a poll came from `start`, and what it handed over: the events of the completed blocks, in order, and if it
      was cancelled the first ones of the next block, as many as the channel took. It ends before a block that cannot be
      fetched, or at the latest one. */
  ghost predicate Reached(content: Content, fetched: set<nat>, start: nat, latest: nat, room: Option<nat>,
                          outcome: Outcome, current: nat, sent: seq<RawEvent>) {
    var whole := Events(content, start, current);
    && start <= current <= latest && (forall b :: start < b <= current ==> b in fetched)
    && match outcome
       case Done => current == latest && sent == whole && Fits(|sent|, room)
       case FetchError(b) => b == current + 1 <= latest && b !in fetched && sent == whole && Fits(|sent|, room)
       case Cancelled =>
         && current + 1 in fetched && current < latest && room == Some(|sent|)
         && whole <= sent && |sent| < |whole + content(current + 1)| && sent <= whole + content(current + 1)
  }

  /** `room` is how many events the channel takes before the context is cancelled, if it ever is. */
  predicate Fits(n: nat, room: Option<nat>) {
    room.None? || n <= room.value
  }

  function Left(n: nat, room: Option<nat>): Option<nat>
    requires Fits(n, room)
  {
    if room.None? then None else Some(room.value - n)
  }

  /** The Redis cursor after a poll that completed the blocks from `start` to `current`, if it could be written last. */
  ghost predicate Recorded(redis: Option<nat>, start: nat, current: nat, redisUp: set<nat>) {
    start < current && current in redisUp ==> redis == Some(current)
  }

  /** What became of a fetched block: all of it, or as much as there was room for. */
  ghost predicate HandedOver(events: seq<RawEvent>, room: Option<nat>, end: Option<Outcome>, more: seq<RawEvent>) {
    if end.None? then more == events && Fits(|events|, room)
    else end == Some(Cancelled) && room.Some? && room.value < |events| && more == events[..room.value]
  }

  /** The blocks from `start` to `current` were fetched and handed over; `left` is the room that remains. */
  ghost predicate Passed(content: Content, fetched: set<nat>, start: nat, current: nat, room: Option<nat>,
                         left: Option<nat>, sent: seq<RawEvent>) {
    && start <= current && (forall b :: start < b <= current ==> b in fetched)
    && sent == Events(content, start, current) && Fits(|sent|, room) && left == Left(|sent|, room)
  }

  /** One block more, or the end. */
  lemma BlockPassed(content: Content, fetch: Fetch, start: nat, i: nat, latest: nat, room: Option<nat>,
                    left: Option<nat>, sent: seq<RawEvent>, more: seq<RawEvent>, end: Option<Outcome>)
    requires i > 0 && i <= latest && Passed(content, fetch.Keys, start, i - 1, room, left, sent)
    requires i in fetch ==> fetch[i] == content(i) && HandedOver(content(i), left, end, more)
    requires i !in fetch ==> more == [] && end == Some(FetchError(i))
    ensures end.Some? ==> Reached(content, fetch.Keys, start, latest, room, end.value, i - 1, sent + more)
    ensures end.None? ==> Passed(content, fetch.Keys, start, i, room, Left(|content(i)|, left), sent + more)
    ensures end.None? && i == latest ==> Reached(content, fetch.Keys, start, latest, room, Done, i, sent + more)
  {
    if end.None? {
      assert Events(content, start, i) == Events(content, start, i - 1) + content(i);
    } else if i in fetch {
      assert sent <= sent + more && sent + more <= sent + content(i);
    } else {
      assert sent + more == sent;
    }
  }

  function Sends(n: nat): seq<Step> {
    seq(n, _ => Send)
  }

  /** How the block at hand ends a poll, if it does. */
  function BlockEnd(i: nat, fetched: Option<seq<RawEvent>>, room: Option<nat>): Option<Outcome> {
    match fetched
    case None => Some(FetchError(i))
    case Some(events) => if !Fits(|events|, room) then Some(Cancelled) else None
  }

  function FirstBlockSteps(fetched: Option<seq<RawEvent>>, room: Option<nat>, redisUp: bool): seq<Step> {
    match fetched
    case None => [FetchFails]
    case Some(events) =>
      [FetchSucceeds]
          + if Fits(|events|, room) then Sends(|events|) + [FinishBlock(redisUp)] else Sends(room.value) + [Cancel]
  }

  /** The steps of a poll from block i on. */
  function PollSteps(fetch: Fetch, i: nat, latest: nat, room: Option<nat>, redisUp: set<nat>): seq<Step>
    requires i <= latest
    decreases latest - i
  {
    FirstBlockSteps(Fetched(fetch, i), room, i in redisUp)
    + if BlockEnd(i, Fetched(fetch, i), room).Some? || i == latest then []
      else PollSteps(fetch, i + 1, latest, Left(|Fetched(fetch, i).value|, room), redisUp)
  }

  lemma {:induction false} EventsLonger(content: Content, lo: nat, mid: nat, hi: nat)
    requires lo <= mid <= hi
    ensures Events(content, lo, mid) <= Events(content, lo, hi)
    decreases hi
  {
    if mid == hi {
    } else {
      EventsLonger(content, lo, mid, hi - 1);
      assert Events(content, lo, hi) == Events(content, lo, hi - 1) + content(hi);
    }
  }

  lemma ReachesAsFar(content: Content, fetched: set<nat>, start: nat, latest: nat, room: Option<nat>,
                     o: Outcome, current: nat, sent: seq<RawEvent>, o': Outcome, current': nat, sent': seq<RawEvent>)
    requires Reached(content, fetched, start, latest, room, o, current, sent)
    requires Reached(content, fetched, start, latest, room, o', current', sent')
    ensures current' <= current
  {
    if current < current' {
      EventsLonger(content, start, current + 1, current');
    }
  }

  /** Which blocks can be fetched and how much room there is leave a poll one way to end. */
  lemma ReachedOnce(content: Content, fetched: set<nat>, start: nat, latest: nat, room: Option<nat>,
                    o: Outcome, current: nat, sent: seq<RawEvent>, o': Outcome, current': nat, sent': seq<RawEvent>)
    requires Reached(content, fetched, start, latest, room, o, current, sent)
    requires Reached(content, fetched, start, latest, room, o', current', sent')
    ensures o' == o && current' == current && sent' == sent
  {
    ReachesAsFar(content, fetched, start, latest, room, o, current, sent, o', current', sent');
    ReachesAsFar(content, fetched, start, latest, room, o', current', sent', o, current, sent);
    if o.Cancelled? {
      var all := Events(content, start, current) + content(current + 1);
      assert sent == all[..|sent|] && sent' == all[..|sent'|];
    }
  }

  /** The state of the machine after n events of the fetched block were sent. */
  ghost function Sent(content: Content, s: State, n: nat): State
    requires InBlock(s) && s.process.value.phase.sent == 0 && n <= |content(s.process.value.current + 1)|
  {
    var p := s.process.value;
    var events := content(p.current + 1)[..n];
    s.(process := Some(p.(phase := p.phase.(sent := n))), ever := s.ever + (set e | e in events), run := s.run + events)
  }

  lemma SendOne(content: Content, confirmations: nat, s: State, n: nat)
    requires confirmations < U64
    requires InBlock(s) && s.process.value.phase.sent == 0 && 0 < n <= |content(s.process.value.current + 1)|
    ensures Run(content, confirmations, Sent(content, s, n - 1), [Send], Sent(content, s, n), false)
  {
    var m := Sent(content, s, n - 1);
    var events := content(s.process.value.current + 1);
    assert events[..n] == events[..n - 1] + [events[n - 1]];
    assert Apply(content, confirmations, m, Send) == Sent(content, s, n);
    RunOne(content, confirmations, m, Send);
  }

  lemma {:induction false} SendsRun(content: Content, confirmations: nat, s: State, n: nat)
    requires confirmations < U64
    requires InBlock(s) && s.process.value.phase.sent == 0 && n <= |content(s.process.value.current + 1)|
    ensures Run(content, confirmations, s, Sends(n), Sent(content, s, n), false)
  {
    if n == 0 {
      assert Sent(content, s, 0) == s;
    } else {
      SendsRun(content, confirmations, s, n - 1);
      var m := Sent(content, s, n - 1);
      SendOne(content, confirmations, s, n);
      RunAppend(content, confirmations, s, Sends(n - 1), m, [Send], Sent(content, s, n), false);
      assert Sends(n - 1) + [Send] == Sends(n);
    }
  }

  class PollingListener {
    const tracker: BlockTracker
    const eventCh: EventChannel

    constructor (tracker: BlockTracker, eventCh: EventChannel)
      ensures this.tracker == tracker && this.eventCh == eventCh
    {
      this.tracker, this.eventCh := tracker, eventCh;
    }

    /** Hands events over one by one until all are sent or the context is cancelled. */
    method HandOver(events: seq<RawEvent>, room: Option<nat>) returns (cancelled: bool)
      modifies eventCh
      ensures cancelled == !Fits(|events|, room)
      ensures eventCh.sent == old(eventCh.sent) + if cancelled then events[..room.value] else events
    {
      for k := 0 to |events|
        invariant Fits(k, room) && eventCh.sent == old(eventCh.sent) + events[..k]
      {
        if room.Some? && k == room.value {
          return true;
        }
        eventCh.sent := eventCh.sent + [events[k]];
        assert events[..k + 1] == events[..k] + [events[k]];
      }
      assert events[..|events|] == events;
      cancelled := false;
    }

    /** Fetches block i, hands its events over, and records it. */
    method PollBlock(i: nat, fetched: Option<seq<RawEvent>>, room: Option<nat>, redisUp: bool, ghost content: Content,
                     ghost before: seq<RawEvent>, ghost m: State)
      returns (end: Option<Outcome>, ghost more: seq<RawEvent>, ghost s': State)
      requires tracker.confirmations < U64 && tracker.Matches(m) && AboutToFetch(m) && i == tracker.current + 1
      requires eventCh.sent == before + m.run
      requires fetched.Some? ==> fetched.value == content(i)
      modifies tracker, tracker.cursors, eventCh
      ensures tracker.Matches(s')
      ensures eventCh.sent == old(eventCh.sent) + more
      ensures fetched.None? ==> more == [] && end == Some(FetchError(i))
      ensures fetched.Some? ==> HandedOver(fetched.value, room, end, more)
      ensures tracker.current == if end.None? then i else i - 1
      ensures tracker.cursors.redis == if end.None? && redisUp then Some(i) else old(tracker.cursors.redis)
      ensures end == BlockEnd(i, fetched, room)
      ensures Run(content, tracker.confirmations, m, FirstBlockSteps(fetched, room, redisUp), s', false)
      ensures end.Some? ==> s'.process.value.phase.Idle?
      ensures end.None? ==>
                && tracker.current == i
                && s'.process.value.phase == if i < m.process.value.phase.latest then m.process.value.phase else Idle
      ensures eventCh.sent == before + s'.run
    {
      if fetched.None? {
        s' := FailBlock(content, tracker.confirmations, m);
        return Some(FetchError(i)), [], s';
      }
      end, more, s' := PassBlock(i, fetched.value, room, redisUp, content, before, m);
    }

    /** Hands the events of a fetched block over, and records it unless it was cut short. */
    method PassBlock(i: nat, events: seq<RawEvent>, room: Option<nat>, redisUp: bool, ghost content: Content,
                     ghost before: seq<RawEvent>, ghost m: State)
      returns (end: Option<Outcome>, ghost more: seq<RawEvent>, ghost s': State)
      requires tracker.confirmations < U64 && tracker.Matches(m) && AboutToFetch(m) && i == tracker.current + 1
      requires eventCh.sent == before + m.run && events == content(i)
      modifies tracker, tracker.cursors, eventCh
      ensures tracker.Matches(s')
      ensures eventCh.sent == old(eventCh.sent) + more && HandedOver(events, room, end, more)
      ensures tracker.current == if end.None? then i else i - 1
      ensures tracker.cursors.redis == if end.None? && redisUp then Some(i) else old(tracker.cursors.redis)
      ensures end == if Fits(|events|, room) then None else Some(Cancelled)
      ensures Run(content, tracker.confirmations, m, FirstBlockSteps(Some(events), room, redisUp), s', false)
      ensures end.Some? ==> s'.process.value.phase.Idle?
      ensures end.None? ==>
                && tracker.current == i
                && s'.process.value.phase == if i < m.process.value.phase.latest then m.process.value.phase else Idle
      ensures eventCh.sent == before + s'.run
    {
      var cancelled := HandOver(events, room);
      if cancelled {
        s' := CancelBlock(content, tracker.confirmations, m, room.value);
        InOrder(before, m.run, events[..room.value]);
        return Some(Cancelled), events[..room.value], s';
      }
      s' := Record(i, redisUp, content, m);
      InOrder(before, m.run, events);
      end, more := None, events;
    }

    /** A block handed over in full is recorded. */
    method Record(i: nat, redisUp: bool, ghost content: Content, ghost m: State) returns (ghost s': State)
      requires tracker.confirmations < U64 && tracker.Matches(m) && AboutToFetch(m) && i == tracker.current + 1
      modifies tracker, tracker.cursors
      ensures tracker.Matches(s') && tracker.current == i
      ensures tracker.cursors.redis == if redisUp then Some(i) else old(tracker.cursors.redis)
      ensures Run(content, tracker.confirmations, m,
                  [FetchSucceeds] + (Sends(|content(i)|) + [FinishBlock(redisUp)]), s', false)
      ensures s'.process.value.phase == if i < m.process.value.phase.latest then m.process.value.phase else Idle
      ensures s'.run == m.run + content(i)
    {
      tracker.Update(i, redisUp);
      s' := CompleteBlock(content, tracker.confirmations, m, redisUp);
    }

    /** The loop of a poll over the blocks from `first` on. */
    method PollBlocks(first: nat, latest: nat, fetch: Fetch, room: Option<nat>, redisUp: set<nat>,
                      ghost content: Content, ghost before: seq<RawEvent>, ghost s: State)
      returns (outcome: Outcome, ghost sent: seq<RawEvent>, ghost s': State)
      requires tracker.confirmations < U64 && tracker.Matches(s) && s.process.value.phase == Next(latest)
      requires eventCh.sent == before + s.run
      requires first == tracker.current + 1 <= latest
      requires forall b :: b in fetch ==> fetch[b] == content(b)
      modifies tracker, tracker.cursors, eventCh
      ensures tracker.Matches(s') && s'.process.value.phase.Idle?
      ensures eventCh.sent == old(eventCh.sent) + sent
      ensures Reached(content, fetch.Keys, first - 1, latest, room, outcome, tracker.current, sent)
      ensures Recorded(tracker.cursors.redis, first - 1, tracker.current, redisUp)
      ensures Run(content, tracker.confirmations, s, PollSteps(fetch, first, latest, room, redisUp), s', false)
      ensures eventCh.sent == before + s'.run
    {
      ghost var all := PollSteps(fetch, first, latest, room, redisUp);
      var i, left := first, room;
      ghost var rest := all;
      s', sent := s, [];
      while true
        invariant eventCh.sent == old(eventCh.sent) + sent && eventCh.sent == before + s'.run
        invariant Passed(content, fetch.Keys, first - 1, i - 1, room, left, sent)
        invariant Recorded(tracker.cursors.redis, first - 1, i - 1, redisUp)
        invariant first <= i <= latest && tracker.Matches(s') && tracker.current == i - 1
        invariant s'.process.value.phase == Next(latest)
        invariant rest == PollSteps(fetch, i, latest, left, redisUp)
        invariant Continues(content, tracker.confirmations, s, all, s', rest)
        decreases latest - i
      {
        var end;
        end, left, sent, rest, s' := PollNext(first, i, latest, fetch, room, left, redisUp, content, before, s, all, s',
                                              rest, old(eventCh.sent), sent);
        if end.Some? {
          return end.value, sent, s';
        }
        i := i + 1;
      }
    }

    /** One round of the loop. */
    method PollNext(first: nat, i: nat, latest: nat, fetch: Fetch, room: Option<nat>, left: Option<nat>,
                    redisUp: set<nat>, ghost content: Content, ghost before: seq<RawEvent>, ghost s: State,
                    ghost all: seq<Step>, ghost m: State, ghost rest: seq<Step>, ghost base: seq<RawEvent>,
                    ghost sent: seq<RawEvent>)
      returns (end: Option<Outcome>, left': Option<nat>, ghost sent': seq<RawEvent>, ghost rest': seq<Step>,
               ghost s': State)
      requires tracker.confirmations < U64 && tracker.Matches(m) && m.process.value.phase == Next(latest)
      requires eventCh.sent == before + m.run && eventCh.sent == base + sent
      requires 0 < first <= i <= latest && tracker.current == i - 1
      requires forall b :: b in fetch ==> fetch[b] == content(b)
      requires Passed(content, fetch.Keys, first - 1, i - 1, room, left, sent)
      requires Recorded(tracker.cursors.redis, first - 1, i - 1, redisUp)
      requires rest == PollSteps(fetch, i, latest, left, redisUp)
      requires Continues(content, tracker.confirmations, s, all, m, rest)
      modifies tracker, tracker.cursors, eventCh
      ensures tracker.Matches(s') && eventCh.sent == before + s'.run && eventCh.sent == base + sent'
      ensures Recorded(tracker.cursors.redis, first - 1, tracker.current, redisUp)
      ensures end.Some? ==>
                && s'.process.value.phase.Idle? && Run(content, tracker.confirmations, s, all, s', false)
                && Reached(content, fetch.Keys, first - 1, latest, room, end.value, tracker.current, sent')
      ensures end.None? ==>
                && i < latest && tracker.current == i && s'.process.value.phase == Next(latest)
                && Passed(content, fetch.Keys, first - 1, i, room, left', sent')
                && rest' == PollSteps(fetch, i + 1, latest, left', redisUp)
                && Continues(content, tracker.confirmations, s, all, s', rest')
    {
      ghost var more;
      end, more, s' := PollBlock(i, Fetched(fetch, i), left, i in redisUp, content, before, m);
      NextBlock(content, tracker.confirmations, s, all, m, s', fetch, i, latest, left, redisUp);
      BlockPassed(content, fetch, first - 1, i, latest, room, left, sent, more, end);
      InOrder(base, sent, more);
      sent' := sent + more;
      left', rest' := left, [];
      if end.None? {
        left' := Left(|fetch[i]|, left);
        if i == latest {
          end := Some(Done);
        } else {
          rest' := PollSteps(fetch, i + 1, latest, left', redisUp);
        }
      }
    }

    /** The blocks up to `latest`, which is ahead of the listener. */
    method PollAhead(latest: nat, fetch: Fetch, room: Option<nat>, redisUp: set<nat>,
                     ghost content: Content, ghost before: seq<RawEvent>, ghost s: State)
      returns (outcome: Outcome, ghost sent: seq<RawEvent>, ghost s': State)
      requires tracker.confirmations < U64 && tracker.Matches(s) && s.process.value.phase.Idle?
      requires eventCh.sent == before + s.run && tracker.current < latest
      requires forall b :: b in fetch ==> fetch[b] == content(b)
      modifies tracker, tracker.cursors, eventCh
      ensures tracker.Matches(s') && s'.process.value.phase.Idle?
      ensures eventCh.sent == old(eventCh.sent) + sent
      ensures Reached(content, fetch.Keys, old(tracker.current), latest, room, outcome, tracker.current, sent)
      ensures Recorded(tracker.cursors.redis, old(tracker.current), tracker.current, redisUp)
      ensures Run(content, tracker.confirmations, s,
                  [BeginPoll(latest)] + PollSteps(fetch, s.process.value.current + 1, latest, room, redisUp), s', false)
      ensures eventCh.sent == before + s'.run
    {
      ghost var b := BeginBlocks(content, tracker.confirmations, s, latest);
      var first := tracker.current + 1;
      outcome, sent, s' := PollBlocks(first, latest, fetch, room, redisUp, content, before, b);
      RunAppend(content, tracker.confirmations, s, [BeginPoll(latest)], b,
                PollSteps(fetch, first, latest, room, redisUp), s', false);
    }

    /** One tick of the listener: the run of the machine it performs, and how it ends. `before` is what earlier runs put
        into the channel. */
    method Poll(latest: Option<nat>, fetch: Fetch, room: Option<nat>, redisUp: set<nat>,
                ghost content: Content, ghost before: seq<RawEvent>, ghost s: State)
      returns (outcome: Option<Outcome>, ghost sent: seq<RawEvent>, ghost s': State)
      requires tracker.confirmations < U64 && tracker.Matches(s) && s.process.value.phase.Idle?
      requires eventCh.sent == before + s.run
      requires forall b :: b in fetch ==> fetch[b] == content(b)
      modifies tracker, tracker.cursors, eventCh
      ensures tracker.Matches(s') && s'.process.value.phase.Idle?
      ensures latest.None? ==> outcome == None && s' == s
      ensures latest.Some? && latest.value <= s.process.value.current ==> outcome == Some(Done) && s' == s
      ensures eventCh.sent == old(eventCh.sent) + sent
      ensures latest.Some? && old(tracker.current) < latest.value ==>
                && outcome.Some?
                && Reached(content, fetch.Keys, old(tracker.current), latest.value, room, outcome.value,
                           tracker.current,
                           sent)
                && Recorded(tracker.cursors.redis, old(tracker.current), tracker.current, redisUp)
      ensures latest.None? || latest.value <= old(tracker.current) ==> sent == []
      ensures latest.Some? && s.process.value.current < latest.value ==>
                var first := s.process.value.current + 1;
                Run(content, tracker.confirmations, s,
                       [BeginPoll(latest.value)] + PollSteps(fetch, first, latest.value, room, redisUp), s', false)
      ensures eventCh.sent == before + s'.run
    {
      if latest.None? {
        return None, [], s;
      }
      var last := tracker.current;
      if latest.value <= last {
        return Some(Done), [], s;
      }
      var o;
      o, sent, s' := PollAhead(latest.value, fetch, room, redisUp, content, before, s);
      outcome := Some(o);
    }
  }

  lemma InOrder(a: seq<RawEvent>, b: seq<RawEvent>, c: seq<RawEvent>)
    ensures a + b + c == a + (b + c)
  {
  }

  /** Whatever `rest` leads to from m, `all` leads to from s. */
  ghost predicate Continues(content: Content, confirmations: nat, s: State, all: seq<Step>, m: State, rest: seq<Step>)
    requires confirmations < U64
  {
    forall t :: Run(content, confirmations, m, rest, t, false) ==> Run(content, confirmations, s, all, t, false)
  }

  ghost predicate AboutToFetch(m: State) {
    m.process.Some? && m.process.value.phase.Next?
  }

  lemma NextBlock(content: Content, confirmations: nat, s: State, all: seq<Step>, m: State, m': State,
                  fetch: Fetch, i: nat, latest: nat, left: Option<nat>, redisUp: set<nat>)
    requires confirmations < U64 && i <= latest
    requires Continues(content, confirmations, s, all, m, PollSteps(fetch, i, latest, left, redisUp))
    requires Run(content, confirmations, m, FirstBlockSteps(Fetched(fetch, i), left, i in redisUp), m', false)
    ensures BlockEnd(i, Fetched(fetch, i), left).Some? || i == latest ==> Run(content, confirmations, s, all, m', false)
    ensures BlockEnd(i, Fetched(fetch, i), left).None? && i < latest ==>
              Continues(content, confirmations, s, all, m',
                        PollSteps(fetch, i + 1, latest, Left(|Fetched(fetch, i).value|, left), redisUp))
  {
    var block := FirstBlockSteps(Fetched(fetch, i), left, i in redisUp);
    if BlockEnd(i, Fetched(fetch, i), left).Some? || i == latest {
      assert PollSteps(fetch, i, latest, left, redisUp) == block + [];
      assert block + [] == block;
    } else {
      var rest := PollSteps(fetch, i + 1, latest, Left(|Fetched(fetch, i).value|, left), redisUp);
      assert PollSteps(fetch, i, latest, left, redisUp) == block + rest;
      forall t | Run(content, confirmations, m', rest, t, false)
        ensures Run(content, confirmations, s, all, t, false)
      {
        RunAppend(content, confirmations, m, block, m', rest, t, false);
      }
    }
  }

  /** The machine side of a poll that finds new blocks. */
  ghost method BeginBlocks(content: Content, confirmations: nat, s: State, latest: nat) returns (b: State)
    requires confirmations < U64 && s.process.Some? && s.process.value.phase.Idle? && s.process.value.current < latest
    ensures Run(content, confirmations, s, [BeginPoll(latest)], b, false)
    ensures b == s.(process := Some(s.process.value.(phase := Next(latest))))
  {
    b := Apply(content, confirmations, s, BeginPoll(latest));
    RunOne(content, confirmations, s, BeginPoll(latest));
  }

  /** The machine side of a block whose fetch fails. */
  ghost method FailBlock(content: Content, confirmations: nat, m: State) returns (s': State)
    requires confirmations < U64 && AboutToFetch(m)
    ensures Run(content, confirmations, m, [FetchFails], s', false)
    ensures s' == m.(process := Some(m.process.value.(phase := Idle)))
  {
    s' := Apply(content, confirmations, m, FetchFails);
  }

  /** The machine side of a block that is cut short after n events. */
  ghost method CancelBlock(content: Content, confirmations: nat, m: State, n: nat) returns (s': State)
    requires confirmations < U64 && AboutToFetch(m) && n < |content(m.process.value.current + 1)|
    ensures Run(content, confirmations, m, [FetchSucceeds] + (Sends(n) + [Cancel]), s', false)
    ensures s'.redis == m.redis && s'.mysql == m.mysql && s'.pending == m.pending
    ensures s'.process == Some(m.process.value.(phase := Idle, cancelled := true))
    ensures s'.run == m.run + content(m.process.value.current + 1)[..n]
  {
    var f := Apply(content, confirmations, m, FetchSucceeds);
    RunOne(content, confirmations, m, FetchSucceeds);
    SendsRun(content, confirmations, f, n);
    var g := Sent(content, f, n);
    s' := Apply(content, confirmations, g, Cancel);
    RunOne(content, confirmations, g, Cancel);
    RunAppend(content, confirmations, f, Sends(n), g, [Cancel], s', false);
    RunAppend(content, confirmations, m, [FetchSucceeds], f, Sends(n) + [Cancel], s', false);
  }

  /** The machine side of a block handed over in full. */
  ghost method CompleteBlock(content: Content, confirmations: nat, m: State, redisUp: bool) returns (s': State)
    requires confirmations < U64 && AboutToFetch(m)
    ensures Run(content, confirmations, m,
                [FetchSucceeds] + (Sends(|content(m.process.value.current + 1)|) + [FinishBlock(redisUp)]), s', false)
    ensures var p := m.process.value;
            var b := p.current + 1;
            && s'.redis == (if redisUp then Some(b) else m.redis) && s'.mysql == m.mysql
            && s'.pending == (if (p.counter + 1) % 100 == 0 then m.pending + multiset{b} else m.pending)
            && s'.process == Some(p.(current := b, counter := p.counter + 1,
                                     phase := if b < p.phase.latest then p.phase else Idle))
            && s'.run == m.run + content(b)
  {
    var p := m.process.value;
    var n := |content(p.current + 1)|;
    var f := Apply(content, confirmations, m, FetchSucceeds);
    RunOne(content, confirmations, m, FetchSucceeds);
    SendsRun(content, confirmations, f, n);
    var g := Sent(content, f, n);
    s' := FinishSent(content, confirmations, f, g, redisUp);
    RunAppend(content, confirmations, f, Sends(n), g, [FinishBlock(redisUp)], s', false);
    RunAppend(content, confirmations, m, [FetchSucceeds], f, Sends(n) + [FinishBlock(redisUp)], s', false);
  }

  /** A block of which everything was sent is recorded. */
  ghost method FinishSent(content: Content, confirmations: nat, f: State, g: State, redisUp: bool) returns (s': State)
    requires confirmations < U64 && InBlock(f) && f.process.value.phase.sent == 0
    requires g == Sent(content, f, |content(f.process.value.current + 1)|)
    ensures Run(content, confirmations, g, [FinishBlock(redisUp)], s', false)
    ensures var p := f.process.value;
            var b := p.current + 1;
            && s'.redis == (if redisUp then Some(b) else f.redis) && s'.mysql == f.mysql
            && s'.pending == (if (p.counter + 1) % 100 == 0 then f.pending + multiset{b} else f.pending)
            && s'.process == Some(p.(current := b, counter := p.counter + 1,
                                     phase := if b < p.phase.latest then Next(p.phase.latest) else Idle))
            && s'.run == f.run + content(b)
  {
    var block := content(f.process.value.current + 1);
    assert block[..|block|] == block;
    s' := Apply(content, confirmations, g, FinishBlock(redisUp));
    RunOne(content, confirmations, g, FinishBlock(redisUp));
  }
}
