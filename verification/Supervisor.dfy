/** One listener per chain: the supervisor starts a listener beside the renew loop of its lease, one lock handle serves
    all chains of an instance, and no listener is stopped when its renew loop ends. */
module Supervisor {
  import opened Prelude
  import DL = DistLock

  const TTL: nat := 15000
  const INTERVAL: nat := 5000

  /** The listener of an instance for a chain, known by the key of the chain's lease. */
  type Listener = DL.Slot

  /** `running` are the instances, each with its lock handle; `polling` the listeners they started, `due` the next tick
      of the renew loops that have not ended. */
  datatype State = State(lock: DL.State, running: set<nat>, polling: set<Listener>, due: map<Listener, nat>)

  datatype Step =
    | Wait(ms: nat)
    | Begin(instance: nat, key: string, uuid: nat, lost: bool)
    | Tick(instance: nat, key: string, lost: bool)
    | Stop(instance: nat)

  /** An instance tries each of its chains once. */
  predicate Enabled(s: State, step: Step) {
    match step
    case Wait(_) => true
    case Begin(i, key, uuid, _) => i in s.running && uuid !in s.lock.used && DL.Slot(i, key) !in s.polling
    case Tick(i, key, _) => DL.Slot(i, key) in s.due && s.due[DL.Slot(i, key)] <= s.lock.now
    case Stop(i) => i in s.running
  }

  predicate Sized(s: State) {
    s.running <= s.lock.handles.Keys && s.due.Keys <= s.polling && forall c :: c in s.polling ==> c.handle in s.running
  }

  /** A lease that was taken starts a listener and a renew loop; a renewal that is not reported as successful ends the
      loop and nothing else. */
  function Apply(s: State, step: Step): State
    requires Sized(s) && Enabled(s, step)
  {
    match step
    case Wait(ms) => s.(lock := s.lock.(now := s.lock.now + ms))
    case Begin(i, key, uuid, lost) =>
      var c := DL.Slot(i, key);
      var lock := DL.Acquired(s.lock, i, key, uuid, TTL, lost);
      if DL.Alive(s.lock.keys, key, s.lock.now) || lost then s.(lock := lock)
      else s.(lock := lock, polling := s.polling + {c}, due := s.due[c := s.lock.now + INTERVAL])
    case Tick(i, key, lost) =>
      var c := DL.Slot(i, key);
      var lock := DL.Renewed(s.lock, i, key, TTL, lost);
      if lost
          || !DL.HeldBy(s.lock.keys, key, s.lock.now, s.lock.handles[i].value) then s.(lock := lock, due := s.due - {c})
      else s.(lock := lock, due := s.due[c := s.due[c] + INTERVAL])
    case Stop(i) =>
      State(s.lock, s.running - {i}, set c | c in s.polling && c.handle != i, map c | c in s.due && c.handle != i ::
            s.due[c])
  }

  // --- What holds in any case -----------------------------------------------------------------------------------

  /** Every lease runs out some time. */
  ghost predicate Sound(s: State) {
    Sized(s) && DL.Inv(s.lock) && forall k :: k in s.lock.keys ==> s.lock.keys[k].expiry.Some?
  }

  lemma BeginKeepsSound(s: State, i: nat, key: string, uuid: nat, lost: bool)
    requires Sound(s) && Enabled(s, Begin(i, key, uuid, lost))
    ensures Sound(Apply(s, Begin(i, key, uuid, lost)))
  {
    DL.AcquireKeepsInv(s.lock, i, key, uuid, TTL, lost);
  }

  lemma TickKeepsSound(s: State, i: nat, key: string, lost: bool)
    requires Sound(s) && Enabled(s, Tick(i, key, lost))
    ensures Sound(Apply(s, Tick(i, key, lost)))
  {
    DL.RenewKeepsInv(s.lock, i, key, TTL, lost);
  }

  lemma StepKeepsSound(s: State, step: Step)
    requires Sound(s) && Enabled(s, step)
    ensures Sound(Apply(s, step))
  {
    match step
    case Wait(ms) => DL.TickKeepsInv(s.lock, ms);
    case Begin(i, key, uuid, lost) => BeginKeepsSound(s, i, key, uuid, lost);
    case Tick(i, key, lost) => TickKeepsSound(s, i, key, lost);
    case Stop(_) =>
  }

  ghost predicate Run(s: State, steps: seq<Step>, s': State)
    requires Sized(s)
    decreases |steps|
  {
    if steps == [] then s == s'
    else Enabled(s, steps[0]) && Sized(Apply(s, steps[0])) && Run(Apply(s, steps[0]), steps[1..], s')
  }

  function Start(instances: set<nat>): State {
    State(DL.Start(instances), instances, {}, map[])
  }

  lemma {:induction false} RunKeepsSound(s: State, steps: seq<Step>, s': State)
    requires Sound(s) && Run(s, steps, s')
    ensures Sound(s')
    decreases |steps|
  {
    if steps == [] {
    } else {
      StepKeepsSound(s, steps[0]);
      RunKeepsSound(Apply(s, steps[0]), steps[1..], s');
    }
  }

  /** Who is second on a chain got there because the lease had run out, or been taken away, unnoticed. */
  lemma BeginIff(s: State, i: nat, key: string, uuid: nat, lost: bool)
    requires Sound(s) && Enabled(s, Begin(i, key, uuid, lost))
    ensures DL.Slot(i, key) in Apply(s, Begin(i, key, uuid, lost)).polling
       <==> !lost && !DL.Alive(s.lock.keys, key, s.lock.now)
  {
  }

  // --- A listener whose renewals are on time --------------------------------------------------------------------

  /** The renew loop of c is never late and never loses a reply; its instance does not stop. Everything else is free. */
  predicate OnTime(s: State, c: Listener, step: Step) {
    match step
    case Wait(ms) => c in s.due ==> s.lock.now + ms <= s.due[c]
    case Tick(i, key, lost) => DL.Slot(i, key) == c ==> !lost
    case Stop(i) => i != c.handle
    case Begin(_, _, _, _) => true
  }

  /** Its instance still remembers this lease. */
  predicate Remembers(s: State, c: Listener) {
    c.handle in s.lock.handles && s.lock.handles[c.handle].key == c.key
  }

  /** The lease is held beyond the next tick, and nobody else polls the chain. */
  ghost predicate Kept(s: State, c: Listener) {
    && c in s.polling && c.handle in s.lock.handles
    && c in s.due && s.lock.now <= s.due[c]
    && DL.HeldBy(s.lock.keys, c.key, s.lock.now, s.lock.handles[c.handle].value)
    && s.lock.keys[c.key].expiry == Some(s.due[c] + (TTL - INTERVAL))
    && Alone(s, c)
  }

  ghost predicate Alone(s: State, c: Listener) {
    forall d :: d in s.polling && d.key == c.key ==> d == c
  }

  /** What a listener on time has: its lease, unless its instance has taken up another chain since. */
  ghost predicate Inv(s: State, c: Listener) {
    Sound(s) && c in s.polling && (Remembers(s, c) ==> Kept(s, c))
  }

  lemma BeginLeavesLease(s: State, c: Listener, i: nat, key: string, uuid: nat, lost: bool, m: State)
    requires Kept(s, c) && Sized(s) && Enabled(s, Begin(i, key, uuid, lost)) && m == Apply(s, Begin(i, key, uuid, lost))
    requires m.lock.handles == s.lock.handles || i != c.handle
    ensures Kept(m, c)
  {
    if key == c.key {
      assert DL.Alive(s.lock.keys, key, s.lock.now);
      assert m.lock.keys == s.lock.keys && m.polling == s.polling;
    } else {
      assert m.lock.keys[c.key] == s.lock.keys[c.key];
    }
  }

  lemma BeginOther(s: State, c: Listener, i: nat, key: string, uuid: nat, lost: bool)
    requires Inv(s, c) && Enabled(s, Begin(i, key, uuid, lost))
    ensures Inv(Apply(s, Begin(i, key, uuid, lost)), c)
  {
    var m := Apply(s, Begin(i, key, uuid, lost));
    BeginKeepsSound(s, i, key, uuid, lost);
    if Remembers(m, c) {
      assert m.lock.handles == s.lock.handles || i != c.handle;
      assert Remembers(s, c);
      BeginLeavesLease(s, c, i, key, uuid, lost, m);
    }
  }

  lemma TickOther(s: State, c: Listener, i: nat, key: string, lost: bool)
    requires Inv(s, c) && Enabled(s, Tick(i, key, lost)) && DL.Slot(i, key) != c
    ensures Inv(Apply(s, Tick(i, key, lost)), c)
  {
    TickKeepsSound(s, i, key, lost);
    var v := s.lock.handles[i].value;
    if Remembers(s, c) && DL.HeldBy(s.lock.keys, key, s.lock.now, v) {
      assert DL.DrawnFor(s.lock, v.value, DL.Slot(i, s.lock.handles[i].key));
      var own := s.lock.handles[c.handle].value;
      assert DL.DrawnFor(s.lock, own.value, c);
      assert key != c.key;
    }
  }

  lemma TickOwn(s: State, c: Listener)
    requires Inv(s, c) && Enabled(s, Tick(c.handle, c.key, false))
    ensures Inv(Apply(s, Tick(c.handle, c.key, false)), c)
  {
    TickKeepsSound(s, c.handle, c.key, false);
  }

  lemma StepKeepsInv(s: State, c: Listener, step: Step)
    requires Inv(s, c) && Enabled(s, step) && OnTime(s, c, step)
    ensures Inv(Apply(s, step), c)
  {
    match step
    case Wait(_) => StepKeepsSound(s, step);
    case Begin(i, key, uuid, lost) => BeginOther(s, c, i, key, uuid, lost);
    case Tick(i, key, lost) =>
      if DL.Slot(i, key) == c {
        TickOwn(s, c);
      } else {
        TickOther(s, c, i, key, lost);
      }
    case Stop(_) => StepKeepsSound(s, step);
  }

  /** A listener that was just started on a chain nobody polls. */
  lemma BeginsKept(s: State, i: nat, key: string, uuid: nat)
    requires Sound(s) && Enabled(s, Begin(i, key, uuid, false)) && !DL.Alive(s.lock.keys, key, s.lock.now)
    requires forall d :: d in s.polling ==> d.key != key
    ensures Inv(Apply(s, Begin(i, key, uuid, false)), DL.Slot(i, key))
    ensures Remembers(Apply(s, Begin(i, key, uuid, false)), DL.Slot(i, key))
    ensures LeasedFrom(Apply(s, Begin(i, key, uuid, false)), DL.Slot(i, key), s.lock.now)
  {
    StepKeepsSound(s, Begin(i, key, uuid, false));
  }

  /** The lease of c lasts for fifteen seconds from a moment, and is due for renewal five seconds after it. */
  predicate LeasedFrom(s: State, c: Listener, start: nat) {
    && c.key in s.lock.keys && s.lock.keys[c.key].expiry == Some(start + 15 * 1000)
    && c in s.due && s.due[c] == start + 5 * 1000
  }

  /** A renewal on time gives the lease fifteen seconds more. */
  lemma RenewedOnTime(s: State, c: Listener)
    requires Inv(s, c) && Remembers(s, c) && s.due[c] == s.lock.now
    ensures Enabled(s, Tick(c.handle, c.key, false))
    ensures LeasedFrom(Apply(s, Tick(c.handle, c.key, false)), c, s.lock.now)
  {
    assert Kept(s, c);
  }

  ghost predicate OnTimeRun(s: State, c: Listener, steps: seq<Step>, s': State)
    requires Sized(s)
    decreases |steps|
  {
    if steps == [] then s == s'
    else
      && Enabled(s, steps[0]) && OnTime(s, c, steps[0])
      && Sized(Apply(s, steps[0])) && OnTimeRun(Apply(s, steps[0]), c, steps[1..], s')
  }

  lemma {:induction false} RunKeepsInv(s: State, c: Listener, steps: seq<Step>, s': State)
    requires Inv(s, c) && OnTimeRun(s, c, steps, s')
    ensures Inv(s', c)
    decreases |steps|
  {
    if steps == [] {
    } else {
      StepKeepsInv(s, c, steps[0]);
      RunKeepsInv(Apply(s, steps[0]), c, steps[1..], s');
    }
  }

  /** Its instance takes up no chain. */
  ghost predicate Settled(c: Listener, steps: seq<Step>) {
    forall i :: 0 <= i < |steps| && steps[i].Begin? ==> steps[i].instance != c.handle
  }

  /** Some run in which c is on time, and its instance takes up no chain, brings instance j to poll c's
      chain as well. */
  ghost predicate CanJoin(s: State, c: Listener, j: nat)
    requires Sized(s)
  {
    exists steps, s' ::
      OnTimeRun(s, c, steps, s') && Settled(c, steps) && c in s'.polling && DL.Slot(j, c.key) in s'.polling
  }

  lemma StepRemembers(s: State, c: Listener, step: Step)
    requires Sized(s) && Enabled(s, step) && Remembers(s, c) && (step.Begin? ==> step.instance != c.handle)
    ensures Remembers(Apply(s, step), c)
  {
  }

  lemma {:induction false} SettledRemembers(s: State, c: Listener, steps: seq<Step>, s': State)
    requires Inv(s, c) && Remembers(s, c) && OnTimeRun(s, c, steps, s') && Settled(c, steps)
    ensures Inv(s', c) && Remembers(s', c)
    decreases |steps|
  {
    if steps == [] {
    } else {
      var m := Apply(s, steps[0]);
      StepKeepsInv(s, c, steps[0]);
      StepRemembers(s, c, steps[0]);
      assert Settled(c, steps[1..]);
      SettledRemembers(m, c, steps[1..], s');
    }
  }

  // --- And one whose instance has taken up another chain --------------------------------------------------------

  lemma JoinAfter(s: State, c: Listener, step: Step, m: State, j: nat)
    requires Sized(s) && Enabled(s, step) && OnTime(s, c, step) && (step.Begin? ==> step.instance != c.handle)
    requires m == Apply(s, step) && Sized(m) && CanJoin(m, c, j)
    ensures CanJoin(s, c, j)
  {
    var steps, s' :|
      OnTimeRun(m, c, steps, s') && Settled(c, steps) && c in s'.polling && DL.Slot(j, c.key) in s'.polling;
    assert ([step] + steps)[1..] == steps;
    assert OnTimeRun(s, c, [step] + steps, s') && Settled(c, [step] + steps);
  }

  lemma FreshValue(used: map<nat, DL.Slot>) returns (uuid: nat)
    ensures uuid !in used
  {
    uuid := 0;
    var below: set<nat> := {};
    while uuid in used
      invariant below <= used.Keys && forall v: nat :: v in below <==> v < uuid
      decreases |used.Keys - below|
    {
      below := below + {uuid};
      uuid := uuid + 1;
    }
  }

  /** The lease has run out. */
  lemma LapsedJoin(s: State, c: Listener, j: nat)
    requires Sound(s) && c in s.polling && j in s.running && j != c.handle && DL.Slot(j, c.key) !in s.polling
    requires !DL.Alive(s.lock.keys, c.key, s.lock.now)
    ensures CanJoin(s, c, j)
  {
    var uuid := FreshValue(s.lock.used);
    var step := Begin(j, c.key, uuid, false);
    var m := Apply(s, step);
    StepKeepsSound(s, step);
    assert OnTimeRun(m, c, [], m) && Settled(c, []);
    JoinAfter(s, c, step, m, j);
  }

  /** The renew loop has ended. */
  lemma EndedJoin(s: State, c: Listener, j: nat)
    requires Sound(s) && c in s.polling && j in s.running && j != c.handle && DL.Slot(j, c.key) !in s.polling
    requires c !in s.due
    ensures CanJoin(s, c, j)
  {
    var step := Wait(if c.key in s.lock.keys then s.lock.keys[c.key].expiry.value + 1 else 0);
    StepKeepsSound(s, step);
    LapsedJoin(Apply(s, step), c, j);
    JoinAfter(s, c, step, Apply(s, step), j);
  }

  lemma DueJoin(s: State, c: Listener, j: nat)
    requires Sound(s) && c in s.polling && j in s.running && j != c.handle && DL.Slot(j, c.key) !in s.polling
    requires !Remembers(s, c) && c in s.due && s.due[c] <= s.lock.now
    ensures CanJoin(s, c, j)
  {
    var step := Tick(c.handle, c.key, false);
    DL.SecondKeyForgetsFirst(s.lock, c.handle, c.key, TTL, false);
    StepKeepsSound(s, step);
    EndedJoin(Apply(s, step), c, j);
    JoinAfter(s, c, step, Apply(s, step), j);
  }

  lemma ForgottenJoin(s: State, c: Listener, j: nat)
    requires Sound(s) && c in s.polling && j in s.running && j != c.handle && DL.Slot(j, c.key) !in s.polling
    requires !Remembers(s, c)
    ensures CanJoin(s, c, j)
  {
    if c !in s.due {
      EndedJoin(s, c, j);
    } else if s.due[c] <= s.lock.now {
      DueJoin(s, c, j);
    } else {
      var step := Wait(s.due[c] - s.lock.now);
      StepKeepsSound(s, step);
      DueJoin(Apply(s, step), c, j);
      JoinAfter(s, c, step, Apply(s, step), j);
    }
  }

  /** Although all renewals of a listener are on time and none loses its reply, another instance can come to poll its
      chain as well: exactly when its own instance has taken up another chain since. */
  lemma JoinIff(s: State, c: Listener, j: nat)
    requires Inv(s, c) && j in s.running && j != c.handle && DL.Slot(j, c.key) !in s.polling
    ensures CanJoin(s, c, j) <==> !Remembers(s, c)
  {
    if Remembers(s, c) {
      forall steps, s' | OnTimeRun(s, c, steps, s') && Settled(c, steps) ensures DL.Slot(j, c.key) !in s'.polling {
        SettledRemembers(s, c, steps, s');
      }
    } else {
      ForgottenJoin(s, c, j);
    }
  }
}
