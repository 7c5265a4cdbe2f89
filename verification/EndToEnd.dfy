/** The workers and the expander are steps of the pipeline, whose theorem thereby speaks of parsed events, filters,
    table rows and allow-lists. */
module EndToEnd {
  import opened Prelude
  import opened Base58
  import opened Events
  import opened Dispatcher
  import opened Parsers
  import opened WatchedAddress
  import AllowList
  import AttemptBound
  import BP = BlockProgress
  import ContractFilter
  import Delivery
  import Expander
  import Pipeline
  import Spellings
  import Sums
  import WatchIndex
  import Worker

  /** What stays as it is while the pipeline runs: the blocks, what they decode to, what the workers judge by, and the
      applications. */
  datatype Setting = Setting(content: BP.Content, parse: BP.RawEvent -> Parsed, view: Worker.View,
                             apps: map<nat, AllowList.App>, confirmations: nat)

  ghost predicate Proper(st: Setting) {
    && st.confirmations < BP.U64 && BP.Numbered(st.content)
    && forall raw :: WellFormed(st.parse(raw))
  }

  function EventsIn(st: Setting, raw: BP.RawEvent): seq<Event>
    requires WellFormed(st.parse(raw))
  {
    EventsOf(st.view.sum, st.parse(raw))
  }

  ghost function HitsIn(st: Setting, raw: BP.RawEvent): set<Event>
    requires Proper(st)
  {
    set e | e in EventsIn(st, raw) && Worker.Hit(st.view, e)
  }

  /** The subscriptions the expander finds: it looks up in lower case. */
  function Subscriptions(st: Setting, e: Event): seq<WatchedAddress.Row> {
    ListByChainAddress(st.view.col, st.view.table, e.chain, ToLower(e.watched))
  }

  /** Those whose applications accept the event. */
  ghost function Due(st: Setting, e: Event): set<nat> {
    set i | 0 <= i < |Subscriptions(st, e)|
        && Expander.Accepts(st.view.sum, st.apps, e, Subscriptions(st, e)[i].appId) ::
      Subscriptions(st, e)[i].id
  }

  ghost function SiteOf(st: Setting): Pipeline.Site
    requires Proper(st)
  {
    Pipeline.Site(st.content, raw => HitsIn(st, raw), e => Due(st, e), st.confirmations)
  }

  // --- The worker -----------------------------------------------------------------------------------------------

  ghost function HitSet(hits: seq<bool>, events: seq<Event>): set<Event>
    requires |hits| == |events|
  {
    set i | 0 <= i < |events| && hits[i] :: events[i]
  }

  lemma {:induction false} OccurrencesOfDistinct(hits: seq<bool>, events: seq<Event>, n: nat, e: Event)
    requires n <= |events| == |hits| && NoDuplicates(events)
    ensures Worker.Occurrences(hits, events, n, e)
            == if exists i :: 0 <= i < n && hits[i] && events[i] == e then 1 else 0
  {
    if n == 0 {
    } else {
      OccurrencesOfDistinct(hits, events, n - 1, e);
      if hits[n - 1] && events[n - 1] == e {
        assert 0 <= n - 1 < n && hits[n - 1] && events[n - 1] == e;
      }
    }
  }

  /** The worker on one raw event whose publications all succeed: one to three copies of every hit, and nothing else. */
  lemma WorkRefines(site: Pipeline.Site, s: Pipeline.State, raw: BP.RawEvent, hits: seq<bool>, events: seq<Event>,
                    attempts: seq<seq<Delivery.Attempt>>, pool': multiset<Event>)
    requires site.confirmations < BP.U64 && raw in s.channel
    requires |hits| == |events| == |attempts| && site.hits(raw) == HitSet(hits, events) && NoDuplicates(events)
    requires forall i :: 0 <= i < |events| ==> Delivery.Accepted(attempts[i]) && |attempts[i]| <= 3
    requires pool' == Worker.Queued(hits, events, attempts, |events|, s.matched)
    ensures var step := Pipeline.Work(raw, pool' - s.matched);
            Pipeline.Allowed(site, s, step) && Pipeline.Apply(site, s, step).matched == pool'
  {
    forall e
      ensures s.matched[e] + (if e in site.hits(raw) then 1 else 0) <= pool'[e]
           <= s.matched[e] + if e in site.hits(raw) then 3 else 0
    {
      Worker.QueuedCounts(hits, events, attempts, |events|, s.matched, e);
      OccurrencesOfDistinct(hits, events, |events|, e);
      assert e in HitSet(hits, events) <==> exists i :: 0 <= i < |events| && hits[i] && events[i] == e;
    }
    assert s.matched + (pool' - s.matched) == pool';
  }

  /** What the worker's method does with a raw event of the channel, database and broker answering, is the pipeline's
      working step. */
  lemma WorkIsStep(st: Setting, s: Pipeline.State, raw: BP.RawEvent, attempts: seq<seq<Delivery.Attempt>>,
                   dbUp: seq<bool>, pool': multiset<Event>)
    requires Proper(st) && raw in s.channel
    requires var events := EventsIn(st, raw);
             && |attempts| == |events| == |dbUp| && (forall i :: 0 <= i < |events| ==> dbUp[i])
             && (forall i :: 0 <= i < |events| ==> Delivery.Accepted(attempts[i]) && |attempts[i]| <= 3)
             && pool' == Worker.Queued(Worker.Hits(st.view, events, dbUp), events, attempts, |events|, s.matched)
    ensures var step := Pipeline.Work(raw, pool' - s.matched);
            && Pipeline.Allowed(SiteOf(st), s, step)
            && Pipeline.Apply(SiteOf(st), s, step) == s.(channel := s.channel - multiset{raw}, matched := pool')
  {
    var events := EventsIn(st, raw);
    var hits := Worker.Hits(st.view, events, dbUp);
    EventsDiffer(st.view.sum, st.parse(raw));
    assert HitsIn(st, raw) == HitSet(hits, events) by {
      forall e | e in HitsIn(st, raw) ensures e in HitSet(hits, events) {
        var i :| 0 <= i < |events| && events[i] == e;
        assert hits[i];
      }
    }
    WorkRefines(SiteOf(st), s, raw, hits, events, attempts, pool');
  }

  // --- The expander ---------------------------------------------------------------------------------------------

  /** The pipeline's view of a log table: how many rows each pair has. */
  ghost predicate Shows(rows: Rows, logs: multiset<Pipeline.Pair>) {
    forall p: Pipeline.Pair :: logs[p] == CountFor(rows, p.0, p.1)
  }

  /** The expander on one message, whatever fails on the way: rows for the addresses it reaches. */
  lemma ExpandRefines(sum: Checksum, apps: map<nat, AllowList.App>, e: Event, f: Expander.Faults,
                      was: seq<WatchedAddress.Row>,
                      rows: Rows, rows': Rows, logs: multiset<Pipeline.Pair>, addresses: set<nat>)
    requires Shows(rows, logs) && Expander.Expanded(sum, apps, e, f, was, |was|, rows, rows')
    requires forall a :: a in addresses <==> Expander.Reaches(sum, apps, e, f, was, |was|, a)
    ensures Shows(rows', Pipeline.WithRows(logs, e, addresses))
  {
    forall p: Pipeline.Pair ensures Pipeline.WithRows(logs, e, addresses)[p] == CountFor(rows', p.0, p.1) {
      Pipeline.WithRowsCounts(logs, e, addresses, p);
      assert logs[p] == CountFor(rows, p.0, p.1);
      if p.0 == KeyOf(e) {
        assert Expander.GainsDue(sum, apps, e, f, was, |was|, rows, rows', p.1);
      } else {
        assert Expander.Gains(rows, rows', p.0, p.1, false);
      }
    }
  }

  /** What the expander's method does with a message, the database answering, is the pipeline's expansion step, however
      publishing the tasks goes. */
  lemma ExpandIsStep(st: Setting, s: Pipeline.State, e: Event, attempts: map<nat, seq<Delivery.Attempt>>,
                     rows: Rows, rows': Rows)
    requires Proper(st) && e in s.matched && Shows(rows, s.logs)
    requires var was := Subscriptions(st, e);
             Expander.Expanded(st.view.sum, st.apps, e, Expander.Faults({}, {}, {}, attempts), was, |was|, rows, rows')
    ensures var step := Pipeline.Expand(e, Due(st, e), true);
            && Pipeline.Allowed(SiteOf(st), s, step)
            && var s' := Pipeline.Apply(SiteOf(st), s, step);
            && Shows(rows', s'.logs)
            && s' == s.(matched := s.matched - multiset{e}, logs := s'.logs)
  {
    var f, was := Expander.Faults({}, {}, {}, attempts), Subscriptions(st, e);
    forall a ensures a in Due(st, e) <==> Expander.Reaches(st.view.sum, st.apps, e, f, was, |was|, a) {
      DueIsReached(st, e, f, a);
    }
    ExpandRefines(st.view.sum, st.apps, e, f, was, rows, rows', s.logs, Due(st, e));
  }

  lemma DueIsReached(st: Setting, e: Event, f: Expander.Faults, a: nat)
    requires f.check == f.info == f.create == {}
    ensures a in Due(st, e)
       <==> Expander.Reaches(st.view.sum, st.apps, e, f, Subscriptions(st, e), |Subscriptions(st, e)|, a)
  {
    var was := Subscriptions(st, e);
    if a in Due(st, e) {
      var i :| 0 <= i < |was| && Expander.Accepts(st.view.sum, st.apps, e, was[i].appId) && was[i].id == a;
      assert Expander.Passes(st.view.sum, st.apps, e, f, was[i]);
    }
  }

  // --- From a parsed event to its log row -----------------------------------------------------------------------

  /** The subscription is for the event, in just the spelling the event has, and its application is to hear of it. */
  predicate Concerns(st: Setting, e: Event, wa: WatchedAddress.Row) {
    && wa in st.view.table && wa.enabled && Spellings.About(e, wa)
    && ContractFilter.Accepts(st.view.sum, st.view.contracts, e.chain, ContractOf(e))
    && Expander.Accepts(st.view.sum, st.apps, e, wa.appId)
  }

  /** The lower-case lookup does no harm: the database compares without case, or there is no capital letter. */
  predicate Findable(st: Setting, e: Event) {
    e.chain in st.view.filters && (st.view.col == CaseInsensitive || ToLower(e.watched) == e.watched)
  }

  lemma ConcernedIsDue(st: Setting, raw: BP.RawEvent, e: Event, wa: WatchedAddress.Row)
    requires Proper(st) && e in EventsIn(st, raw) && Concerns(st, e, wa)
    requires WatchIndex.Covers(st.view.h, st.view.filters, st.view.table, MaxId(st.view.table))
    requires Findable(st, e)
    ensures e in HitsIn(st, raw) && wa.id in Due(st, e)
  {
    var v := st.view;
    var rows := ListByChainAddress(v.col, v.table, e.chain, e.watched);
    assert wa in rows;
    Worker.HitIsQuery(v, e);
    var i :| 0 <= i < |rows| && rows[i] == wa;
    assert Subscriptions(st, e) == rows by {
      if v.col == CaseInsensitive {
        Expander.LowerLookupSame(v.table, e.chain, e.watched);
      }
    }
  }

  /** However the chain is polled, whatever crashes, is resent or redelivered: once channel and queue are empty, every
      event parsed from a covered block has exactly one log row for each subscription it concerns. */
  lemma EveryConcernedOnce(st: Setting, steps: seq<Pipeline.Step>, s: Pipeline.State, b: nat, raw: BP.RawEvent,
                           e: Event, wa: WatchedAddress.Row)
    requires Proper(st) && Pipeline.Run(SiteOf(st), Pipeline.EMPTY, steps, s)
    requires WatchIndex.Covers(st.view.h, st.view.filters, st.view.table, MaxId(st.view.table))
    requires s.channel == multiset{} && s.matched == multiset{}
    requires Pipeline.Covered(SiteOf(st), s.block, b) && raw in st.content(b) && e in EventsIn(st, raw)
    requires Concerns(st, e, wa) && Findable(st, e)
    ensures s.logs[(KeyOf(e), wa.id)] == 1
  {
    ConcernedIsDue(st, raw, e, wa);
    Pipeline.OwedOnce(SiteOf(st), steps, s, b, raw, e, wa.id);
  }
}
