/** Several expanders on one queue: the check for a row and its insertion are two statements, and the unique key of the
    table includes the second in which a row is created. */
module Consumers {
  import opened Prelude
  import opened Base58
  import opened Events
  import opened Dispatcher
  import opened Expander
  import AllowList
  import WatchedAddress

  type Pair = (string, nat)

  /** `rows` are keyed by pair and second; `checked` are the consumers that found no row for a pair and have yet
      to insert one. */
  datatype State = State(now: nat, rows: set<(Pair, nat)>, checked: map<nat, Pair>)

  datatype Step =
    | Tick
    | Check(consumer: nat, pair: Pair)
    | Insert(consumer: nat)
    | GiveUp(consumer: nat)

  ghost predicate HasRow(s: State, p: Pair) {
    exists t :: (p, t) in s.rows
  }

  /** A consumer handles one message at a time. */
  predicate Enabled(consumers: set<nat>, s: State, step: Step) {
    match step
    case Tick => true
    case Check(c, _) => c in consumers && c !in s.checked
    case Insert(c) => c in s.checked
    case GiveUp(c) => c in s.checked
  }

  ghost function Apply(consumers: set<nat>, s: State, step: Step): State
    requires Enabled(consumers, s, step)
  {
    match step
    case Tick => s.(now := s.now + 1)
    case Check(c, p) => if HasRow(s, p) then s else s.(checked := s.checked[c := p])
    case Insert(c) => s.(rows := s.rows + {(s.checked[c], s.now)}, checked := s.checked - {c})
    case GiveUp(c) => s.(checked := s.checked - {c})
  }

  ghost predicate Run(consumers: set<nat>, s: State, steps: seq<Step>, s': State)
    decreases |steps|
  {
    if steps == [] then s == s'
    else Enabled(consumers, s, steps[0]) && Run(consumers, Apply(consumers, s, steps[0]), steps[1..], s')
  }

  const EMPTY := State(0, {}, map[])

  /** Some pair has two rows. */
  ghost predicate Doubled(s: State) {
    exists p, t, u :: (p, t) in s.rows && (p, u) in s.rows && t != u
  }

  /** No pair has two rows, and none that is about to be inserted has one. */
  ghost predicate Single(consumers: set<nat>, s: State) {
    !Doubled(s) && (forall c :: c in s.checked ==> c in consumers && !HasRow(s, s.checked[c]))
  }

  lemma StepKeepsSingle(consumers: set<nat>, s: State, step: Step)
    requires (forall c, d :: c in consumers && d in consumers ==> c == d)
    requires Single(consumers, s) && Enabled(consumers, s, step)
    ensures Single(consumers, Apply(consumers, s, step))
  {
    var s' := Apply(consumers, s, step);
    if step.Insert? {
      var p := s.checked[step.consumer];
      assert !HasRow(s, p);
      forall q, t, u | (q, t) in s'.rows && (q, u) in s'.rows ensures t == u {
        assert q == p ==> (q, t) !in s.rows && (q, u) !in s.rows;
      }
    }
    forall c | c in s'.checked ensures c in consumers && !HasRow(s', s'.checked[c]) {
    }
  }

  lemma {:induction false} RunKeepsSingle(consumers: set<nat>, s: State, steps: seq<Step>, s': State)
    requires (forall c, d :: c in consumers && d in consumers ==> c == d)
    requires Single(consumers, s) && Run(consumers, s, steps, s')
    ensures Single(consumers, s')
    decreases |steps|
  {
    if steps == [] {
    } else {
      StepKeepsSingle(consumers, s, steps[0]);
      RunKeepsSingle(consumers, Apply(consumers, s, steps[0]), steps[1..], s');
    }
  }

  lemma RunCons(consumers: set<nat>, s: State, step: Step, m: State, rest: seq<Step>, s': State)
    requires Enabled(consumers, s, step) && m == Apply(consumers, s, step) && Run(consumers, m, rest, s')
    ensures Run(consumers, s, [step] + rest, s')
  {
    assert ([step] + rest)[1..] == rest;
  }

  /** Two consumers that both check before either inserts, in different seconds, write two rows. */
  lemma TwoConsumersDouble(consumers: set<nat>, c: nat, d: nat, p: Pair) returns (steps: seq<Step>, s': State)
    requires c in consumers && d in consumers && c != d
    ensures Run(consumers, EMPTY, steps, s') && Doubled(s')
  {
    var s1 := State(0, {}, map[c := p]);
    var s2 := State(0, {}, map[c := p, d := p]);
    var s3 := State(0, {(p, 0)}, map[d := p]);
    var s4 := State(1, {(p, 0)}, map[d := p]);
    s' := State(1, {(p, 0), (p, 1)}, map[]);
    assert s2.checked - {c} == s3.checked && s4.checked - {d} == map[];
    assert Run(consumers, s', [], s');
    RunCons(consumers, s4, Insert(d), s', [], s');
    RunCons(consumers, s3, Tick, s4, [Insert(d)] + [], s');
    RunCons(consumers, s2, Insert(c), s3, [Tick] + ([Insert(d)] + []), s');
    RunCons(consumers, s1, Check(d, p), s2, [Insert(c)] + ([Tick] + ([Insert(d)] + [])), s');
    RunCons(consumers, EMPTY, Check(c, p), s1, [Check(d, p)] + ([Insert(c)] + ([Tick] + ([Insert(d)] + []))), s');
    steps := [Check(c, p)] + ([Check(d, p)] + ([Insert(c)] + ([Tick] + ([Insert(d)] + []))));
    assert (p, 0) in s'.rows && (p, 1) in s'.rows;
  }

  lemma AtMostOne(consumers: set<nat>)
    ensures |consumers| <= 1 <==> forall c, d :: c in consumers && d in consumers ==> c == d
  {
    if c :| c in consumers {
      var rest := consumers - {c};
      assert consumers == rest + {c};
      if d :| d in rest {
        assert d in consumers && d != c;
        assert |rest| >= 1;
      } else {
        assert rest == {};
      }
    }
  }

  ghost predicate CanDouble(consumers: set<nat>) {
    exists steps, s :: Run(consumers, EMPTY, steps, s) && Doubled(s)
  }

  /** Some run writes two rows for a pair exactly when there are two consumers. */
  lemma CanDoubleIff(consumers: set<nat>)
    ensures CanDouble(consumers) <==> |consumers| >= 2
  {
    AtMostOne(consumers);
    if |consumers| <= 1 {
      forall steps, s | Run(consumers, EMPTY, steps, s) ensures !Doubled(s) {
        RunKeepsSingle(consumers, EMPTY, steps, s);
      }
    } else {
      var c, d :| c in consumers && d in consumers && c != d;
      var steps, s := TwoConsumersDouble(consumers, c, d, ("", 0));
      assert Run(consumers, EMPTY, steps, s) && Doubled(s);
    }
  }

  // --- The expander is such a consumer --------------------------------------------------------------------------

  /** The pairs with a row are those of the table. */
  ghost predicate Shows(rows: Rows, s: State) {
    forall p: Pair :: HasRow(s, p) <==> Known(rows, p.0, p.1)
  }

  /** What happens to one subscription, from the check on. */
  function StepsFor(known: bool, passes: bool, consumer: nat, p: Pair): seq<Step> {
    [Check(consumer, p)] + if known then [] else if passes then [Insert(consumer)] else [GiveUp(consumer)]
  }

  /** The expander's method on one subscription is a check and, if no row is found, the insertion of one or none. A
      check that fails changes as little as one that leads to nothing. */
  lemma ExpandOneIsCheckInsert(sum: Checksum, apps: map<nat, AllowList.App>, e: Event, f: Faults,
                               wa: WatchedAddress.Row, rows: Rows, rows': Rows, created: bool, id: nat,
                               row: Dispatcher.Row, consumers: set<nat>, c: nat, s: State) returns (s': State)
    requires Shows(rows, s) && c in consumers && c !in s.checked
    requires created <==> Passes(sum, apps, e, f, wa) && !Known(rows, KeyOf(e), wa.id)
    requires row.eventId == KeyOf(e) && row.addressId == wa.id && id !in rows
    requires rows' == if created then rows[id := row] else rows
    ensures var p := (KeyOf(e), wa.id);
            Run(consumers, s, StepsFor(Known(rows, p.0, p.1), Passes(sum, apps, e, f, wa), c, p), s')
    ensures Shows(rows', s') && s'.checked == s.checked
  {
    var p := (KeyOf(e), wa.id);
    var m := Apply(consumers, s, Check(c, p));
    if Known(rows, p.0, p.1) {
      s' := m;
      assert Run(consumers, m, [], s');
      RunCons(consumers, s, Check(c, p), m, [], s');
    } else {
      var last := if created then Insert(c) else GiveUp(c);
      s' := Apply(consumers, m, last);
      assert s'.checked == s.checked;
      assert Run(consumers, s', [], s');
      RunCons(consumers, m, last, s', [], s');
      RunCons(consumers, s, Check(c, p), m, [last] + [], s');
      assert [Check(c, p)] + ([last] + []) == StepsFor(false, created, c, p);
      ShowsInserted(rows, rows', created, id, row, s, s', p);
    }
  }

  lemma ShowsInserted(rows: Rows, rows': Rows, created: bool, id: nat, row: Dispatcher.Row, s: State,
                      s': State, p: Pair)
    requires Shows(rows, s) && id !in rows && (row.eventId, row.addressId) == p
    requires rows' == if created then rows[id := row] else rows
    requires s'.rows == if created then s.rows + {(p, s.now)} else s.rows
    ensures Shows(rows', s')
  {
    forall q: Pair ensures HasRow(s', q) <==> Known(rows', q.0, q.1) {
      assert HasRow(s, q) <==> Known(rows, q.0, q.1);
      assert HasRow(s', q) <==> HasRow(s, q) || (created && q == p) by {
        if created && q == p {
          assert (p, s.now) in s'.rows;
        }
      }
      assert Known(rows', q.0, q.1) <==> Known(rows, q.0, q.1) || (created && q == p) by {
        if created {
          KnownInserted(rows, id, row, q);
        }
      }
    }
  }

  lemma KnownInserted(rows: Rows, id: nat, row: Dispatcher.Row, q: Pair)
    requires id !in rows
    ensures Known(rows[id := row], q.0, q.1) <==> Known(rows, q.0, q.1) || (row.eventId, row.addressId) == q
  {
    KnownIff(rows, q.0, q.1);
    KnownIff(rows[id := row], q.0, q.1);
    CountAfterCreate(rows, id, row, q.0, q.1);
  }
}
