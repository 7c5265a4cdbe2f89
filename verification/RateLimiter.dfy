/** The sliding-window limiter: stamps of accepted calls, compacted in place at every call. */
module RateLimiter {
  import opened Prelude

  // --- What a call does to the stamps of its key ----------------------------------------------------------------

  /** The stamps after `start`, in order. */
  function Live(stamps: seq<int>, start: int): (r: seq<int>)
    ensures |r| <= |stamps|
  {
    if stamps == [] then []
    else
      var live, t := Live(stamps[..|stamps| - 1], start), stamps[|stamps| - 1];
      if t > start then live + [t] else live
  }

  function Stored(st: map<string, seq<int>>, key: string): seq<int> {
    if key in st then st[key] else []
  }

  datatype Limits = Limits(limit: int, window: nat)

  /** Room for one more call. */
  predicate Fits(stored: seq<int>, now: int, l: Limits) {
    |Live(stored, now - l.window)| < l.limit
  }

  function NextStamps(stored: seq<int>, now: int, l: Limits): seq<int> {
    var live := Live(stored, now - l.window);
    if Fits(stored, now, l) then live + [now] else live
  }

  predicate Allows(st: map<string, seq<int>>, key: string, now: int, l: Limits) {
    Fits(Stored(st, key), now, l)
  }

  function Next(st: map<string, seq<int>>, key: string, now: int, l: Limits): map<string, seq<int>> {
    st[key := NextStamps(Stored(st, key), now, l)]
  }

  function WithLive(st: map<string, seq<int>>, key: string, start: int): map<string, seq<int>> {
    st[key := Live(Stored(st, key), start)]
  }

  function WithStamp(st: map<string, seq<int>>, key: string, now: int): map<string, seq<int>>
    requires key in st
  {
    st[key := st[key] + [now]]
  }

  /** Pruning, and recording if there is room, one after the other. */
  lemma NextInSteps(st: map<string, seq<int>>, key: string, now: int, l: Limits, pruned: map<string, seq<int>>,
                    ok: bool,
                    st': map<string, seq<int>>)
    requires pruned == WithLive(st, key, now - l.window) && (ok <==> |pruned[key]| < l.limit)
    requires st' == if ok then WithStamp(pruned, key, now) else pruned
    ensures ok == Allows(st, key, now, l) && st' == Next(st, key, now, l)
  {
  }

  // --- The limiter ----------------------------------------------------------------------------------------------

  /** A slice that starts its backing array; what is behind it is spare room. */
  datatype Slice = Slice(data: array<int>, len: nat)

  class Limiter {
    var requests: map<string, Slice>
    const l: Limits

    constructor (limit: int, window: nat)
      ensures Valid() && Arrays() == {} && Stamps() == map[] && l == Limits(limit, window)
    {
      requests, l := map[], Limits(limit, window);
    }

    ghost function Arrays(): set<array<int>>
      reads this
    {
      set k | k in requests :: requests[k].data
    }

    /** No two keys share a backing array. */
    ghost predicate Valid()
      reads this
    {
      && (forall k :: k in requests ==> requests[k].len <= requests[k].data.Length)
      && (forall j, k :: j in requests && k in requests && j != k ==> requests[j].data != requests[k].data)
    }

    ghost function Stamps(): map<string, seq<int>>
      requires Valid()
      reads this, Arrays()
    {
      map k | k in requests :: requests[k].data[..requests[k].len]
    }

    /** Shifts the stamps after `start` to the front of the array they are in. */
    static method Compact(a: array<int>, n: nat, start: int) returns (kept: nat)
      requires n <= a.Length
      modifies a
      ensures kept <= n && a[..kept] == Live(old(a[..n]), start)
    {
      kept := 0;
      for i := 0 to n
        invariant kept <= i
        invariant a[..kept] == Live(old(a[..n])[..i], start)
        invariant a[i..n] == old(a[..n])[i..]
      {
        var t := a[i];
        assert t == old(a[..n])[i];
        assert old(a[..n])[..i + 1][..i] == old(a[..n])[..i];
        if t > start {
          a[kept] := t;
          kept := kept + 1;
        }
      }
      assert old(a[..n])[..n] == old(a[..n]);
    }

    /** Appends in place when there is room, else in a new array. */
    static method Append(s: Slice, t: int) returns (r: Slice)
      requires s.len <= s.data.Length
      modifies s.data
      ensures r.len == s.len + 1 <= r.data.Length && r.data[..r.len] == old(s.data[..s.len]) + [t]
      ensures r.data == s.data || fresh(r.data)
    {
      if s.len < s.data.Length {
        s.data[s.len] := t;
        r := Slice(s.data, s.len + 1);
      } else {
        var data := new int[2 * s.len + 1];
        for i := 0 to s.len
          invariant data[..i] == s.data[..i] && s.data[..s.len] == old(s.data[..s.len])
        {
          data[i] := s.data[i];
        }
        data[s.len] := t;
        r := Slice(data, s.len + 1);
      }
      assert r.data[..r.len] == r.data[..s.len] + [t];
    }

    /** Drops the expired stamps of a key. */
    method Prune(key: string, start: int) returns (kept: nat)
      requires Valid()
      modifies this`requests, Arrays()
      ensures Valid() && key in requests && kept == requests[key].len == |Stamps()[key]|
      ensures Stamps() == WithLive(old(Stamps()), key, start)
      ensures forall a :: a in Arrays() ==> a in old(Arrays()) || fresh(a)
    {
      ghost var before := Stamps();
      var times;
      if key in requests {
        times := requests[key];
        assert times.data in Arrays();
      } else {
        var none := new int[0];
        times := Slice(none, 0);
      }
      assert times.data[..times.len] == Stored(before, key);
      kept := Compact(times.data, times.len, start);
      requests := requests[key := Slice(times.data, kept)];
      Others(before, key);
    }

    /** Appends a stamp to those of a key. */
    method Record(key: string, now: int)
      requires Valid() && key in requests
      modifies this`requests, Arrays()
      ensures Valid()
      ensures Stamps() == WithStamp(old(Stamps()), key, now)
      ensures forall a :: a in Arrays() ==> a in old(Arrays()) || fresh(a)
    {
      ghost var before := Stamps();
      assert requests[key].data in Arrays();
      var s := Append(requests[key], now);
      requests := requests[key := s];
      Others(before, key);
    }

    method RecordIf(room: bool, key: string, now: int) returns (ok: bool)
      requires Valid() && key in requests
      modifies this`requests, Arrays()
      ensures Valid() && ok == room
      ensures Stamps() == if room then WithStamp(old(Stamps()), key, now) else old(Stamps())
      ensures forall a :: a in Arrays() ==> a in old(Arrays()) || fresh(a)
    {
      ok := room;
      if ok {
        Record(key, now);
      }
    }

    /** The stamps of a changed key replace the old ones, and no others. */
    lemma Others(before: map<string, seq<int>>, key: string)
      requires Valid() && key in requests && requests.Keys == before.Keys + {key}
      requires forall k :: k in requests && k != key ==> requests[k].data[..requests[k].len] == before[k]
      ensures Stamps() == before[key := requests[key].data[..requests[key].len]]
    {
    }

    /** Accepts a call exactly when fewer than the limit were accepted in the window that ends now. */
    method Allow(key: string, now: int) returns (ok: bool)
      requires Valid()
      modifies this`requests, Arrays()
      ensures Valid() && ok == Allows(old(Stamps()), key, now, l)
      ensures Stamps() == Next(old(Stamps()), key, now, l)
      ensures forall a :: a in Arrays() ==> a in old(Arrays()) || fresh(a)
    {
      ghost var before := Stamps();
      var kept := Prune(key, now - l.window);
      ghost var pruned := Stamps();
      ok := RecordIf(kept < l.limit, key, now);
      NextInSteps(before, key, now, l, pruned, ok, Stamps());
    }
  }

  // --- Whole runs -----------------------------------------------------------------------------------------------

  datatype Call = Call(key: string, now: int)

  /** The clock does not run backwards. */
  ghost predicate Monotone(calls: seq<Call>) {
    forall i, j :: 0 <= i < j < |calls| ==> calls[i].now <= calls[j].now
  }

  ghost predicate NotAfter(calls: seq<Call>, now: int) {
    forall i :: 0 <= i < |calls| ==> calls[i].now <= now
  }

  function After(calls: seq<Call>, l: Limits): map<string, seq<int>> {
    if calls == [] then map[]
    else Next(After(calls[..|calls| - 1], l), calls[|calls| - 1].key, calls[|calls| - 1].now, l)
  }

  /** Is a call accepted after others? */
  predicate Granted(prior: seq<Call>, c: Call, l: Limits) {
    Allows(After(prior, l), c.key, c.now, l)
  }

  /** When the accepted calls of a key were made. */
  function Accepted(calls: seq<Call>, key: string, l: Limits): seq<int> {
    if calls == [] then []
    else
      var prior, c := calls[..|calls| - 1], calls[|calls| - 1];
      var accepted := Accepted(prior, key, l);
      if c.key == key && Granted(prior, c, l) then accepted + [c.now] else accepted
  }

  /** Those in the half-open interval (low, high]. */
  function InWindow(stamps: seq<int>, low: int, high: int): nat {
    if stamps == [] then 0
    else
      var t := stamps[|stamps| - 1];
      InWindow(stamps[..|stamps| - 1], low, high) + if low < t <= high then 1 else 0
  }

  lemma LiveAppend(stamps: seq<int>, t: int, start: int)
    ensures Live(stamps + [t], start) == if t > start then Live(stamps, start) + [t] else Live(stamps, start)
  {
    assert (stamps + [t])[..|stamps|] == stamps;
  }

  lemma WindowAppend(stamps: seq<int>, t: int, low: int, high: int)
    ensures InWindow(stamps + [t], low, high) == InWindow(stamps, low, high) + if low < t <= high then 1 else 0
  {
    assert (stamps + [t])[..|stamps|] == stamps;
  }

  /** What an earlier start dropped a later one would have dropped as well. */
  lemma {:induction false} LiveTwice(stamps: seq<int>, start: int, later: int)
    requires start <= later
    ensures Live(Live(stamps, start), later) == Live(stamps, later)
  {
    if stamps == [] {
    } else {
      var init, t := stamps[..|stamps| - 1], stamps[|stamps| - 1];
      LiveTwice(init, start, later);
      if t > start {
        LiveAppend(Live(init, start), t, later);
      }
    }
  }

  lemma AppendBoth(a: seq<int>, b: seq<int>, t: int, start: int)
    requires Live(a, start) == Live(b, start)
    ensures Live(a + [t], start) == Live(b + [t], start)
  {
    LiveAppend(a, t, start);
    LiveAppend(b, t, start);
  }

  lemma NextKeepsAccepted(stored: seq<int>, now: int, l: Limits, start: int, accepted: seq<int>)
    requires Live(stored, start) == Live(accepted, start) && now - l.window <= start
    ensures Live(NextStamps(stored, now, l), start)
            == Live(if Fits(stored, now, l) then accepted + [now] else accepted, start)
  {
    LiveTwice(stored, now - l.window, start);
    AppendBoth(Live(stored, now - l.window), accepted, now, start);
  }

  /** One more call: what is stored and what was accepted move alike. */
  lemma StoredMore(st: map<string, seq<int>>, c: Call, key: string, l: Limits, start: int, accepted: seq<int>,
                   st': map<string, seq<int>>, accepted': seq<int>)
    requires st' == Next(st, c.key, c.now, l)
    requires accepted' == if c.key == key && Allows(st, c.key, c.now, l) then accepted + [c.now] else accepted
    requires Live(Stored(st, key), start) == Live(accepted, start) && c.now <= start + l.window
    ensures Live(Stored(st', key), start) == Live(accepted', start)
  {
    if c.key == key {
      NextKeepsAccepted(Stored(st, key), c.now, l, start, accepted);
    }
  }

  /** From the next call's start on, the stamps kept are those of all accepted calls: nothing dropped will
      count again. */
  lemma {:induction false} StoredIsAccepted(calls: seq<Call>, key: string, l: Limits, start: int)
    requires Monotone(calls) && NotAfter(calls, start + l.window)
    ensures Live(Stored(After(calls, l), key), start) == Live(Accepted(calls, key, l), start)
  {
    if calls == [] {
    } else {
      var prior, c := calls[..|calls| - 1], calls[|calls| - 1];
      StoredIsAccepted(prior, key, l, start);
      StoredMore(After(prior, l), c, key, l, start, Accepted(prior, key, l), After(calls, l), Accepted(calls, key, l));
    }
  }

  ghost predicate NoneAfter(stamps: seq<int>, now: int) {
    forall i :: 0 <= i < |stamps| ==> stamps[i] <= now
  }

  lemma {:induction false} AcceptedBefore(calls: seq<Call>, key: string, l: Limits, now: int)
    requires Monotone(calls) && NotAfter(calls, now)
    ensures NoneAfter(Accepted(calls, key, l), now)
  {
    if calls == [] {
    } else {
      AcceptedBefore(calls[..|calls| - 1], key, l, now);
    }
  }

  /** A window that ends no earlier than the stamps holds the live ones. */
  lemma {:induction false} LiveIsWindow(stamps: seq<int>, start: int, high: int)
    requires NoneAfter(stamps, high)
    ensures |Live(stamps, start)| == InWindow(stamps, start, high)
  {
    if stamps == [] {
    } else {
      LiveIsWindow(stamps[..|stamps| - 1], start, high);
    }
  }

  lemma {:induction false} NarrowerWindow(stamps: seq<int>, low: int, high: int, low': int, high': int)
    requires low' <= low && high <= high'
    ensures InWindow(stamps, low, high) <= InWindow(stamps, low', high')
  {
    if stamps == [] {
    } else {
      NarrowerWindow(stamps[..|stamps| - 1], low, high, low', high');
    }
  }

  lemma FitsIff(stored: seq<int>, accepted: seq<int>, now: int, l: Limits)
    requires Live(stored, now - l.window) == Live(accepted, now - l.window)
    requires NoneAfter(accepted, now)
    ensures Fits(stored, now, l) <==> InWindow(accepted, now - l.window, now) < l.limit
  {
    LiveIsWindow(accepted, now - l.window, now);
  }

  /** A call is refused exactly when the limit of its key is used up by the calls accepted in the window
      ending with it. */
  lemma GrantedIff(prior: seq<Call>, c: Call, l: Limits)
    requires Monotone(prior) && NotAfter(prior, c.now)
    ensures Granted(prior, c, l) <==> InWindow(Accepted(prior, c.key, l), c.now - l.window, c.now) < l.limit
  {
    GrantedInState(prior, c, l, After(prior, l), Accepted(prior, c.key, l));
  }

  lemma GrantedInState(prior: seq<Call>, c: Call, l: Limits, st: map<string, seq<int>>, accepted: seq<int>)
    requires Monotone(prior) && NotAfter(prior, c.now)
    requires st == After(prior, l) && accepted == Accepted(prior, c.key, l)
    ensures Allows(st, c.key, c.now, l) <==> InWindow(accepted, c.now - l.window, c.now) < l.limit
  {
    assert Live(Stored(st, c.key), c.now - l.window) == Live(accepted, c.now - l.window) by {
      StoredIsAccepted(prior, c.key, l, c.now - l.window);
    }
    assert NoneAfter(accepted, c.now) by {
      AcceptedBefore(prior, c.key, l, c.now);
    }
    FitsIff(Stored(st, c.key), accepted, c.now, l);
  }

  /** One more accepted call, when the window that ends with it had room. */
  lemma OneMoreFits(accepted: seq<int>, now: int, low: int, l: Limits)
    requires NoneAfter(accepted, now)
    requires InWindow(accepted, now - l.window, now) < l.limit
    requires InWindow(accepted, low, low + l.window) <= Max(l.limit, 0)
    ensures InWindow(accepted + [now], low, low + l.window) <= Max(l.limit, 0)
  {
    WindowAppend(accepted, now, low, low + l.window);
    if low < now <= low + l.window {
      LiveIsWindow(accepted, low, low + l.window);
      LiveIsWindow(accepted, low, now);
      NarrowerWindow(accepted, low, now, now - l.window, now);
    }
  }

  /** An accepted call found room in the window that ends with it. */
  lemma AcceptedHadRoom(prior: seq<Call>, c: Call, l: Limits, accepted: seq<int>)
    requires Monotone(prior) && NotAfter(prior, c.now) && accepted == Accepted(prior, c.key, l) && Granted(prior, c, l)
    ensures NoneAfter(accepted, c.now) && InWindow(accepted, c.now - l.window, c.now) < l.limit
  {
    GrantedIff(prior, c, l);
    AcceptedBefore(prior, c.key, l, c.now);
  }

  /** Every stamp found room in the window that ended with it. */
  ghost predicate Spaced(stamps: seq<int>, l: Limits) {
    stamps != [] ==>
      var init, t := stamps[..|stamps| - 1], stamps[|stamps| - 1];
      Spaced(init, l) && NoneAfter(init, t) && InWindow(init, t - l.window, t) < l.limit
  }

  lemma SpacedAppend(stamps: seq<int>, t: int, l: Limits)
    requires Spaced(stamps, l) && NoneAfter(stamps, t) && InWindow(stamps, t - l.window, t) < l.limit
    ensures Spaced(stamps + [t], l)
  {
    assert (stamps + [t])[..|stamps|] == stamps;
  }

  lemma {:induction false} AcceptedIsSpaced(calls: seq<Call>, key: string, l: Limits)
    requires Monotone(calls)
    ensures Spaced(Accepted(calls, key, l), l)
  {
    if calls == [] {
    } else {
      var prior, c := calls[..|calls| - 1], calls[|calls| - 1];
      AcceptedIsSpaced(prior, key, l);
      SpacedMore(prior, c, key, l, Accepted(prior, key, l), Granted(prior, c, l));
      AcceptedMore(calls, prior, c, key, l);
    }
  }

  lemma AcceptedMore(calls: seq<Call>, prior: seq<Call>, c: Call, key: string, l: Limits)
    requires calls != [] && prior == calls[..|calls| - 1] && c == calls[|calls| - 1]
    ensures Accepted(calls, key, l)
         == if c.key == key && Granted(prior, c, l) then Accepted(prior, key, l) + [c.now] else Accepted(prior, key, l)
  {
  }

  lemma SpacedMore(prior: seq<Call>, c: Call, key: string, l: Limits, accepted: seq<int>, granted: bool)
    requires Monotone(prior) && NotAfter(prior, c.now) && accepted == Accepted(prior, key, l)
    requires granted == Granted(prior, c, l) && Spaced(accepted, l)
    ensures Spaced(if c.key == key && granted then accepted + [c.now] else accepted, l)
  {
    if c.key == key && granted {
      AcceptedHadRoom(prior, c, l, accepted);
      SpacedAppend(accepted, c.now, l);
    }
  }

  lemma {:induction false} SpacedWithinLimit(stamps: seq<int>, l: Limits, low: int)
    requires Spaced(stamps, l)
    ensures InWindow(stamps, low, low + l.window) <= Max(l.limit, 0)
  {
    if stamps == [] {
    } else {
      var init, t := stamps[..|stamps| - 1], stamps[|stamps| - 1];
      SpacedWithinLimit(init, l, low);
      OneMoreFits(init, t, low, l);
      assert stamps == init + [t];
    }
  }

  /** No window of the configured length, wherever it lies, holds more accepted calls of a key than the limit. */
  lemma NeverMoreThanLimit(calls: seq<Call>, key: string, l: Limits, low: int)
    requires Monotone(calls)
    ensures InWindow(Accepted(calls, key, l), low, low + l.window) <= Max(l.limit, 0)
  {
    AcceptedIsSpaced(calls, key, l);
    SpacedWithinLimit(Accepted(calls, key, l), l, low);
  }
}
