/** The Redis lease: SET NX with a time to live, and two scripts that compare the value before they act. */
module DistLock {
  import opened Prelude

  /** Milliseconds since some origin; a key without an expiry lives for ever. */
  datatype Entry = Entry(value: nat, expiry: Option<nat>)

  type Keys = map<string, Entry>

  predicate Alive(keys: Keys, key: string, now: nat) {
    key in keys && (keys[key].expiry.Some? ==> now <= keys[key].expiry.value)
  }

  predicate HeldBy(keys: Keys, key: string, now: nat, value: Option<nat>) {
    Alive(keys, key, now) && value == Some(keys[key].value)
  }

  /** SET key value NX, with a time to live unless it is 0. */
  function SetNX(keys: Keys, now: nat, key: string, value: nat, ttl: nat): Keys {
    if Alive(keys, key, now) then keys
    else keys[key := Entry(value, if ttl == 0 then None else Some(now + ttl))]
  }

  function UnlockScript(keys: Keys, now: nat, key: string, value: Option<nat>): Keys {
    if HeldBy(keys, key, now, value) then keys - {key} else keys
  }

  /** EXPIRE takes whole seconds, and deletes the key when there are none. */
  function RenewScript(keys: Keys, now: nat, key: string, value: Option<nat>, seconds: nat): Keys {
    if !HeldBy(keys, key, now, value) then keys
    else if seconds == 0 then keys - {key}
    else keys[key := keys[key].(expiry := Some(now + 1000 * seconds))]
  }

  class Redis {
    var now: nat
    var keys: Keys

    constructor ()
      ensures now == 0 && keys == map[]
    {
      now, keys := 0, map[];
    }

    method Wait(ms: nat)
      modifies this`now
      ensures now == old(now) + ms
    {
      now := now + ms;
    }
  }

  /** What a call reports; a lost reply is an error although the command was carried out. */
  datatype Outcome = Yes | No | Lost

  /** `key` and `value` are those of the last acquisition that was reported as successful. */
  datatype Handle = Handle(key: string, value: Option<nat>)

  class Lock {
    const rdb: Redis
    var key: string
    var value: Option<nat>

    constructor (rdb: Redis)
      ensures this.rdb == rdb && View() == Handle("", None)
    {
      this.rdb, key, value := rdb, "", None;
    }

    function View(): Handle
      reads this
    {
      Handle(key, value)
    }

    method Acquire(key: string, uuid: nat, ttl: nat, lost: bool) returns (r: Outcome)
      modifies this, rdb`keys
      ensures rdb.keys == SetNX(old(rdb.keys), rdb.now, key, uuid, ttl)
      ensures r == if lost then Lost else if Alive(old(rdb.keys), key, rdb.now) then No else Yes
      ensures View() == if r.Yes? then Handle(key, Some(uuid)) else old(View())
      ensures r.Yes? ==> key in rdb.keys && rdb.keys[key] == Entry(uuid, if ttl == 0 then None else Some(rdb.now + ttl))
    {
      var ok := !Alive(rdb.keys, key, rdb.now);
      rdb.keys := SetNX(rdb.keys, rdb.now, key, uuid, ttl);
      if lost {
        return Lost;
      }
      if ok {
        this.key := key;
        value := Some(uuid);
      }
      r := if ok then Yes else No;
    }

    method Unlock(key: string, lost: bool) returns (r: Outcome)
      modifies rdb`keys
      ensures rdb.keys == UnlockScript(old(rdb.keys), rdb.now, key, value)
      ensures r == if lost then Lost else if HeldBy(old(rdb.keys), key, rdb.now, value) then Yes else No
      ensures HeldBy(old(rdb.keys), key, rdb.now, value) ==> key !in rdb.keys
    {
      var result := if HeldBy(rdb.keys, key, rdb.now, value) then 1 else 0;
      rdb.keys := UnlockScript(rdb.keys, rdb.now, key, value);
      r := if lost then Lost else if result == 0 then No else Yes;
    }

    /** The time to live is cut down to whole seconds. */
    method Renew(key: string, ttl: nat, lost: bool) returns (r: Outcome)
      modifies rdb`keys
      ensures rdb.keys == RenewScript(old(rdb.keys), rdb.now, key, value, ttl / 1000)
      ensures r == if lost then Lost else if HeldBy(old(rdb.keys), key, rdb.now, value) then Yes else No
    {
      var result := if HeldBy(rdb.keys, key, rdb.now, value) then 1 else 0;
      rdb.keys := RenewScript(rdb.keys, rdb.now, key, value, ttl / 1000);
      r := if lost then Lost else if result == 0 then No else Yes;
    }

    /** One renewal per tick until the context is cancelled, after `|losses|` ticks, or a renewal does not succeed;
        nobody else uses the store meanwhile. */
    method RenewLoop(key: string, ttl: nat, interval: nat, losses: seq<bool>) returns (renewed: nat)
      modifies rdb
      ensures Rounds(rdb.keys, rdb.now, renewed)
              == Renewals(old(rdb.keys), old(rdb.now), key, value, ttl, interval, losses)
      ensures value == old(value)
    {
      renewed := 0;
      ghost var all := Renewals(rdb.keys, rdb.now, key, value, ttl, interval, losses);
      while renewed < |losses|
        invariant renewed <= |losses| && value == old(value)
        invariant all == Later(Renewals(rdb.keys, rdb.now, key, value, ttl, interval, losses[renewed..]), renewed)
      {
        rdb.Wait(interval);
        var r := Renew(key, ttl, losses[renewed]);
        if !r.Yes? {
          return;
        }
        assert losses[renewed..][1..] == losses[renewed + 1..];
        renewed := renewed + 1;
      }
    }
  }

  // --- Renewing on a store nobody else uses -------------------------------------------------------------------------

  datatype Rounds = Rounds(keys: Keys, now: nat, renewed: nat)

  function Later(r: Rounds, n: nat): Rounds {
    r.(renewed := r.renewed + n)
  }

  /** A tick, a renewal, and the next one if that was reported as successful. */
  function Renewals(keys: Keys, now: nat, key: string, value: Option<nat>, ttl: nat, interval: nat,
                    losses: seq<bool>): Rounds
    decreases |losses|
  {
    if losses == [] then Rounds(keys, now, 0)
    else
      var now' := now + interval;
      var keys' := RenewScript(keys, now', key, value, ttl / 1000);
      if losses[0] || !HeldBy(keys, key, now', value) then Rounds(keys', now', 0)
      else Later(Renewals(keys', now', key, value, ttl, interval, losses[1..]), 1)
  }

  /** A lease that lasts until the first tick is renewed at every tick up to the first lost reply, and held throughout,
      when the time to live is in whole seconds and reaches from tick to tick; one that does not is never renewed. */
  lemma {:induction false} RenewalsHold(keys: Keys, now: nat, key: string, value: Option<nat>, ttl: nat, interval: nat,
                                        losses: seq<bool>)
    requires WholeSeconds(ttl) && interval <= ttl && losses != []
    ensures var r := Renewals(keys, now, key, value, ttl, interval, losses);
            if HeldBy(keys, key, now + interval, value) then
              && r.renewed <= |losses| && (forall i :: 0 <= i < r.renewed ==> !losses[i])
              && (r.renewed < |losses| ==> losses[r.renewed])
              && HeldBy(r.keys, key, r.now, value) && r.keys[key].expiry == Some(r.now + ttl)
            else r == Rounds(keys, now + interval, 0)
    decreases |losses|
  {
    assert 1000 * (ttl / 1000) == ttl;
    if HeldBy(keys, key, now + interval, value) && !losses[0] && |losses| > 1 {
      var keys' := RenewScript(keys, now + interval, key, value, ttl / 1000);
      RenewalsHold(keys', now + interval, key, value, ttl, interval, losses[1..]);
    }
  }

  // --- Any number of handles, any interleaving ------------------------------------------------------------------

  /** The lease a handle believes in: until when, if nothing is heard of it again. */
  datatype Claim = Claim(value: nat, until: nat)

  datatype Slot = Slot(handle: nat, key: string)

  /** `used` remembers by whom and for which key each value was drawn; `claims` is what the handles believe. */
  datatype State = State(now: nat, keys: Keys, handles: map<nat, Handle>, used: map<nat, Slot>,
                         claims: map<Slot, Claim>)

  datatype Step =
    | Tick(ms: nat)
    | Acquire(handle: nat, key: string, uuid: nat, ttl: nat, lost: bool)
    | Renew(handle: nat, key: string, ttl: nat, lost: bool)
    | Unlock(handle: nat, key: string, lost: bool)

  /** Values are drawn fresh. */
  predicate Enabled(s: State, step: Step) {
    match step
    case Tick(_) => true
    case Acquire(h, _, uuid, _, _) => h in s.handles && uuid !in s.used
    case Renew(h, _, _, _) => h in s.handles
    case Unlock(h, _, _) => h in s.handles
  }

  function Acquired(s: State, h: nat, key: string, uuid: nat, ttl: nat, lost: bool): State
    requires h in s.handles
  {
    var ok := !Alive(s.keys, key, s.now) && !lost;
    State(s.now, SetNX(s.keys, s.now, key, uuid, ttl),
          if ok then s.handles[h := Handle(key, Some(uuid))] else s.handles,
          s.used[uuid := Slot(h, key)], if ok then s.claims[Slot(h, key) := Claim(uuid, s.now + ttl)] else s.claims)
  }

  /** When the reply is lost the renewal may have been carried out, and may have shortened the lease. */
  function Renewed(s: State, h: nat, key: string, ttl: nat, lost: bool): State
    requires h in s.handles
  {
    var v, c := s.handles[h].value, Slot(h, key);
    s.(keys := RenewScript(s.keys, s.now, key, v, ttl / 1000),
       claims := if lost then Shortened(s.claims, c, v, s.now + ttl)
                 else if HeldBy(s.keys, key, s.now, v) then s.claims[c := Claim(v.value, s.now + ttl)]
                 else s.claims)
  }

  function Shortened(claims: map<Slot, Claim>, c: Slot, value: Option<nat>, until: nat): map<Slot, Claim> {
    if c in claims && value == Some(claims[c].value) && until < claims[c].until then
      claims[c := Claim(claims[c].value, until)]
    else claims
  }

  /** Whoever asks for a release gives the claim up, whatever the reply. */
  function Unlocked(s: State, h: nat, key: string): State
    requires h in s.handles
  {
    var v, c := s.handles[h].value, Slot(h, key);
    s.(keys := UnlockScript(s.keys, s.now, key, v),
       claims := if c in s.claims && v == Some(s.claims[c].value) then s.claims - {c} else s.claims)
  }

  function Apply(s: State, step: Step): State
    requires Enabled(s, step)
  {
    match step
    case Tick(ms) => s.(now := s.now + ms)
    case Acquire(h, key, uuid, ttl, lost) => Acquired(s, h, key, uuid, ttl, lost)
    case Renew(h, key, ttl, lost) => Renewed(s, h, key, ttl, lost)
    case Unlock(h, key, _) => Unlocked(s, h, key)
  }

  predicate WholeSeconds(ttl: nat) {
    0 < ttl && ttl % 1000 == 0
  }

  /** Each renewal may ask for another time to live, as long as it is one of whole seconds. */
  predicate Allowed(s: State, step: Step) {
    Enabled(s, step) && (step.Renew? ==> WholeSeconds(step.ttl))
  }

  /** A claim that has not run out is backed by the store. */
  predicate Backed(s: State, c: Slot)
    requires c in s.claims
  {
    s.now <= s.claims[c].until ==>
      && HeldBy(s.keys, c.key, s.now, Some(s.claims[c].value))
      && (s.keys[c.key].expiry.Some? ==> s.claims[c].until <= s.keys[c.key].expiry.value)
  }

  predicate DrawnFor(s: State, value: nat, c: Slot) {
    value in s.used && s.used[value] == c
  }

  /** Every value in sight was drawn for the key it is seen with and by the handle that has it, and every claim that has
      not run out is backed. */
  ghost predicate Inv(s: State) {
    && (forall key :: key in s.keys ==> s.keys[key].value in s.used && s.used[s.keys[key].value].key == key)
    && (forall h :: h in s.handles && s.handles[h].value.Some? ==>
          DrawnFor(s, s.handles[h].value.value, Slot(h, s.handles[h].key)))
    && (forall c :: c in s.claims ==> DrawnFor(s, s.claims[c].value, c) && Backed(s, c))
  }

  lemma TickKeepsInv(s: State, ms: nat)
    requires Inv(s)
    ensures Inv(s.(now := s.now + ms))
  {
    var s' := s.(now := s.now + ms);
    forall c | c in s'.claims ensures Backed(s', c) {
      assert Backed(s, c);
    }
  }

  lemma AcquireKeepsInv(s: State, h: nat, key: string, uuid: nat, ttl: nat, lost: bool)
    requires Inv(s) && h in s.handles && uuid !in s.used
    ensures Inv(Acquired(s, h, key, uuid, ttl, lost))
  {
    var s' := Acquired(s, h, key, uuid, ttl, lost);
    forall c | c in s'.claims ensures Backed(s', c) && DrawnFor(s', s'.claims[c].value, c) {
      if c in s.claims {
        assert Backed(s, c) && DrawnFor(s, s.claims[c].value, c);
      }
    }
    forall k | k in s'.keys ensures s'.keys[k].value in s'.used && s'.used[s'.keys[k].value].key == k {
    }
  }

  lemma RenewKeepsInv(s: State, h: nat, key: string, ttl: nat, lost: bool)
    requires Inv(s) && h in s.handles && WholeSeconds(ttl)
    ensures Inv(Renewed(s, h, key, ttl, lost))
  {
    var s' := Renewed(s, h, key, ttl, lost);
    assert 1000 * (ttl / 1000) == ttl;
    forall c | c in s'.claims ensures Backed(s', c) && DrawnFor(s', s'.claims[c].value, c) {
      if c in s.claims {
        assert Backed(s, c) && DrawnFor(s, s.claims[c].value, c);
      }
    }
  }

  lemma UnlockKeepsInv(s: State, h: nat, key: string)
    requires Inv(s) && h in s.handles
    ensures Inv(Unlocked(s, h, key))
  {
    var s' := Unlocked(s, h, key);
    forall c | c in s'.claims ensures Backed(s', c) {
      assert Backed(s, c) && DrawnFor(s, s.claims[c].value, c);
    }
  }

  lemma StepKeepsInv(s: State, step: Step)
    requires Inv(s) && Allowed(s, step)
    ensures Inv(Apply(s, step))
  {
    match step
    case Tick(ms) => TickKeepsInv(s, ms);
    case Acquire(h, key, uuid, ttl, lost) => AcquireKeepsInv(s, h, key, uuid, ttl, lost);
    case Renew(h, key, ttl, lost) => RenewKeepsInv(s, h, key, ttl, lost);
    case Unlock(h, key, _) => UnlockKeepsInv(s, h, key);
  }

  ghost predicate Run(s: State, steps: seq<Step>, s': State)
    decreases |steps|
  {
    if steps == [] then s == s' else Allowed(s, steps[0]) && Run(Apply(s, steps[0]), steps[1..], s')
  }

  /** New handles at an empty store. */
  function Start(handles: set<nat>): State {
    State(0, map[], map h | h in handles :: Handle("", None), map[], map[])
  }

  lemma {:induction false} RunKeepsInv(s: State, steps: seq<Step>, s': State)
    requires Inv(s) && Run(s, steps, s')
    ensures Inv(s')
    decreases |steps|
  {
    if steps == [] {
    } else {
      StepKeepsInv(s, steps[0]);
      RunKeepsInv(Apply(s, steps[0]), steps[1..], s');
    }
  }

  predicate Believes(s: State, h: nat, key: string) {
    Slot(h, key) in s.claims && s.now <= s.claims[Slot(h, key)].until
  }

  /** At no time do two handles believe in a lease of the same key, and whoever believes in one has it; every call
      brings its own time to live. */
  lemma MutualExclusion(handles: set<nat>, steps: seq<Step>, s: State, h: nat, j: nat, key: string)
    requires Run(Start(handles), steps, s) && Believes(s, h, key)
    ensures HeldBy(s.keys, key, s.now, Some(s.claims[Slot(h, key)].value))
    ensures Believes(s, j, key) ==> h == j
  {
    RunKeepsInv(Start(handles), steps, s);
    assert Backed(s, Slot(h, key)) && DrawnFor(s, s.claims[Slot(h, key)].value, Slot(h, key));
    if Believes(s, j, key) {
      assert Backed(s, Slot(j, key)) && DrawnFor(s, s.claims[Slot(j, key)].value, Slot(j, key));
    }
  }

  /** Renewing and unlocking change no key but the one asked for, and that only while it holds the value the handle drew
      for it. */
  lemma OthersUntouched(s: State, step: Step, k: string)
    requires Inv(s) && Enabled(s, step) && (step.Renew? || step.Unlock?)
    requires var s' := Apply(s, step); (k in s'.keys) != (k in s.keys) || (k in s.keys && s'.keys[k] != s.keys[k])
    ensures k == step.key && k in s.keys && DrawnFor(s, s.keys[k].value, Slot(step.handle, k))
  {
    var h := step.handle;
    assert HeldBy(s.keys, k, s.now, s.handles[h].value);
    assert DrawnFor(s, s.handles[h].value.value, Slot(h, s.handles[h].key));
  }

  /** A handle that has acquired another key since can neither renew nor release the first: it has
      forgotten the value. */
  lemma SecondKeyForgetsFirst(s: State, h: nat, first: string, ttl: nat, lost: bool)
    requires Inv(s) && h in s.handles && s.handles[h].key != first
    ensures !HeldBy(s.keys, first, s.now, s.handles[h].value)
    ensures Renewed(s, h, first, ttl, lost) == s && Unlocked(s, h, first).keys == s.keys
  {
    if s.handles[h].value.Some? {
      assert DrawnFor(s, s.handles[h].value.value, Slot(h, s.handles[h].key));
    }
    if Slot(h, first) in s.claims {
      assert DrawnFor(s, s.claims[Slot(h, first)].value, Slot(h, first));
    }
  }

  /** A renewal keeps its promise exactly when the time to live is a whole number of seconds: below one second it
      deletes the key it reports as renewed. */
  lemma RenewalIsBackedIff(s: State, h: nat, key: string, ttl: nat)
    requires h in s.handles && HeldBy(s.keys, key, s.now, s.handles[h].value)
    ensures Backed(Renewed(s, h, key, ttl, false), Slot(h, key)) <==> WholeSeconds(ttl)
    ensures ttl < 1000 ==> key !in Renewed(s, h, key, ttl, false).keys
  {
    var seconds := ttl / 1000;
    assert 1000 * seconds + ttl % 1000 == ttl;
  }
}
