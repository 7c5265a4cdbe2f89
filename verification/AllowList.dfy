/** The contracts an application accepts: from the request that sets them, through the stored row and the dispatcher's
    cache, to the decision about an event. */
module AllowList {
  import opened Prelude
  import opened Base58
  import opened AddrCodec
  import opened Hex

  /** The stored column: nothing, something that does not parse, or an object of lists. */
  datatype Raw = Blank | Garbage | Json(lists: map<string, seq<string>>)

  datatype App = App(callbackUrl: string, secret: string, allowed: Raw)

  /** A hash whose fields may each be missing. */
  datatype Cached = Cached(callbackUrl: Option<string>, secret: Option<string>, allowed: Option<Raw>)

  datatype AppInfo = AppInfo(callbackUrl: string, secret: string, allowed: map<string, set<string>>)

  function NormalizeAll(sum: Checksum, codec: Codec, addrs: seq<string>): (r: seq<string>)
    ensures |r| == |addrs| && forall i :: 0 <= i < |r| ==> r[i] == Normalize(sum, codec, addrs[i])
  {
    seq(|addrs|, i requires 0 <= i < |addrs| => Normalize(sum, codec, addrs[i]))
  }

  // --- Maps are ranged over in no particular order: of keys that coincide in upper case, any may come last ------

  function UpperKeys(m: map<string, seq<string>>): set<string> {
    set c | c in m :: ToUpper(c)
  }

  /** Every upper-case key has the list of one of the keys it stands for. */
  ghost predicate Normalized(sum: Checksum, req: map<string, seq<string>>, m: map<string, seq<string>>) {
    m.Keys == UpperKeys(req) && forall k :: k in m ==> NormalizedFrom(sum, req, k, m[k])
  }

  ghost predicate NormalizedFrom(sum: Checksum, req: map<string, seq<string>>, k: string, list: seq<string>) {
    exists c :: c in req && ToUpper(c) == k && list == NormalizeAll(sum, Get(c), req[c])
  }

  ghost predicate Parsed(raw: Raw, allowed: map<string, set<string>>) {
    if raw.Json? then
      allowed.Keys == UpperKeys(raw.lists) && forall k :: k in allowed ==> ParsedFrom(raw.lists, k, allowed[k])
    else allowed == map[]
  }

  ghost predicate ParsedFrom(lists: map<string, seq<string>>, k: string, contracts: set<string>) {
    exists c :: c in lists && ToUpper(c) == k && contracts == Elements(lists[c])
  }

  ghost predicate DistinctUpper(m: map<string, seq<string>>) {
    forall b, c :: b in m && c in m && ToUpper(b) == ToUpper(c) ==> b == c
  }

  method ParseAllowedContracts(raw: Raw) returns (result: map<string, set<string>>)
    ensures Parsed(raw, result)
  {
    result := map[];
    if !raw.Json? {
      return;
    }
    var m := raw.lists;
    var rest := m.Keys;
    while rest != {}
      invariant rest <= m.Keys
      invariant result.Keys == set c | c in m && c !in rest :: ToUpper(c)
      invariant forall k :: k in result ==> ParsedFrom(m, k, result[k])
      decreases |rest|
    {
      var c :| c in rest;
      var contracts: set<string> := {};
      for i := 0 to |m[c]|
        invariant contracts == Elements(m[c][..i])
      {
        contracts := contracts + {m[c][i]};
      }
      assert m[c][..|m[c]|] == m[c];
      assert ParsedFrom(m, ToUpper(c), contracts);
      result := result[ToUpper(c) := contracts];
      rest := rest - {c};
    }
  }

  predicate IsContractAllowed(sum: Checksum, allowed: map<string, set<string>>, chain: string, contract: string) {
    if contract == "" || allowed == map[] then true
    else
      var k := ToUpper(chain);
      if k !in allowed || allowed[k] == {} then true else Normalize(sum, Get(chain), contract) in allowed[k]
  }

  // --- The two services -----------------------------------------------------------------------------------------

  class Database {
    var apps: map<nat, App>
    var cache: map<nat, Cached>

    constructor (apps: map<nat, App>)
      ensures this.apps == apps && cache == map[] && Fresh()
    {
      this.apps, cache := apps, map[];
    }

    /** What the cache says about an application is what its row says. */
    ghost predicate Fresh()
      reads this
    {
      forall id :: id in cache ==> id in apps && Agrees(cache[id], apps[id])
    }
  }

  /** A complete hash repeats the row; one without its url or secret is not used. */
  predicate Agrees(c: Cached, app: App) {
    c.callbackUrl.Some? && c.secret.Some? ==>
      c.callbackUrl.value == app.callbackUrl && c.secret.value == app.secret && c.allowed == Some(app.allowed)
  }

  /** Whose application it is has been checked by the caller; `redisUp` tells whether the cache entry
      could be deleted. */
  method UpdateAllowedContracts(db: Database, sum: Checksum, id: nat, req: map<string, seq<string>>, redisUp: bool)
    requires id in db.apps
    modifies db
    ensures id in db.apps && db.apps == old(db.apps)[id := old(db.apps)[id].(allowed := db.apps[id].allowed)]
    ensures req == map[] ==> db.apps[id].allowed == Blank
    ensures req != map[] ==> db.apps[id].allowed.Json? && Normalized(sum, req, db.apps[id].allowed.lists)
    ensures db.cache == if redisUp then old(db.cache) - {id} else old(db.cache)
    ensures old(db.Fresh()) && redisUp ==> db.Fresh()
  {
    var normalized := NormalizeRequest(sum, req);
    var raw := Blank;
    if |normalized| > 0 {
      raw := Json(normalized);
    }
    assert req != map[] ==> normalized != map[] by {
      if c :| c in req {
        assert ToUpper(c) in normalized.Keys;
      }
    }
    db.apps := db.apps[id := db.apps[id].(allowed := raw)];
    if redisUp {
      db.cache := db.cache - {id};
    }
  }

  method NormalizeRequest(sum: Checksum, req: map<string, seq<string>>) returns (normalized: map<string, seq<string>>)
    ensures Normalized(sum, req, normalized)
  {
    normalized := map[];
    var rest := req.Keys;
    while rest != {}
      invariant rest <= req.Keys
      invariant normalized.Keys == set c | c in req && c !in rest :: ToUpper(c)
      invariant forall k :: k in normalized ==> NormalizedFrom(sum, req, k, normalized[k])
      decreases |rest|
    {
      var c :| c in rest;
      var codec := Get(c);
      var normed := NormalizeList(a => Normalize(sum, codec, a), req[c]);
      assert normed == NormalizeAll(sum, codec, req[c]);
      assert NormalizedFrom(sum, req, ToUpper(c), normed);
      normalized := normalized[ToUpper(c) := normed];
      rest := rest - {c};
    }
  }

  /** `normalize` is the method of the chain's codec. */
  method NormalizeList(normalize: string -> string, addrs: seq<string>) returns (normed: seq<string>)
    ensures |normed| == |addrs| && forall i :: 0 <= i < |addrs| ==> normed[i] == normalize(addrs[i])
  {
    normed := [];
    for i := 0 to |addrs|
      invariant |normed| == i && forall k :: 0 <= k < i ==> normed[k] == normalize(addrs[k])
    {
      normed := normed + [normalize(addrs[i])];
    }
  }

  /** The dispatcher's view of an application: from the cache when it has url and secret, else from the row, which it
      then caches. Nothing for an application without a row. */
  method GetAppInfo(db: Database, id: nat, redisUp: bool) returns (info: Option<AppInfo>)
    requires db.Fresh()
    modifies db`cache
    ensures db.Fresh()
    ensures info.Some? <==> id in db.apps
    ensures info.Some? ==> info.value.callbackUrl == db.apps[id].callbackUrl && info.value.secret == db.apps[id].secret
    ensures info.Some? ==> Parsed(db.apps[id].allowed, info.value.allowed)
  {
    if redisUp && id in db.cache && db.cache[id].callbackUrl.Some? && db.cache[id].secret.Some? {
      var c := db.cache[id];
      assert Agrees(c, db.apps[id]);
      var allowed := map[];
      if c.allowed.Some? {
        allowed := ParseAllowedContracts(c.allowed.value);
      }
      return Some(AppInfo(c.callbackUrl.value, c.secret.value, allowed));
    }
    if id !in db.apps {
      return None;
    }
    var app := db.apps[id];
    if redisUp {
      db.cache := db.cache[id := Cached(Some(app.callbackUrl), Some(app.secret), Some(app.allowed))];
    }
    var allowed := ParseAllowedContracts(app.allowed);
    info := Some(AppInfo(app.callbackUrl, app.secret, allowed));
  }

  // --- The round trip -------------------------------------------------------------------------------------------

  lemma UpperTwice(c: string)
    ensures ToUpper(ToUpper(c)) == ToUpper(c)
  {
  }

  /** The list a request has for a chain, if any. */
  ghost predicate Requests(req: map<string, seq<string>>, chain: string, c: string) {
    c in req && ToUpper(c) == ToUpper(chain)
  }

  /** Upper-case keys are their own upper case, so parsing gives each the set of its list. */
  lemma ParsedOfNormalized(sum: Checksum, req: map<string, seq<string>>, m: map<string, seq<string>>,
                           allowed: map<string, set<string>>)
    requires Normalized(sum, req, m) && Parsed(Json(m), allowed)
    ensures allowed.Keys == m.Keys && forall k :: k in m ==> allowed[k] == Elements(m[k])
  {
    forall k | k in m ensures ToUpper(k) == k {
      var c :| c in req && ToUpper(c) == k && m[k] == NormalizeAll(sum, Get(c), req[c]);
      UpperTwice(c);
    }
    assert UpperKeys(m) == m.Keys by {
      forall k | k in m ensures k in UpperKeys(m) {
        assert ToUpper(k) == k;
      }
    }
    forall k | k in m ensures allowed[k] == Elements(m[k]) {
      assert ParsedFrom(m, k, allowed[k]);
    }
  }

  ghost predicate ListedIn(sum: Checksum, list: seq<string>, chain: string, contract: string) {
    exists i :: 0 <= i < |list| && Normalize(sum, Get(chain), list[i]) == Normalize(sum, Get(chain), contract)
  }

  /** What was asked for: everything on a chain without a list or with an empty one, and otherwise what is listed. */
  ghost predicate Wanted(sum: Checksum, req: map<string, seq<string>>, chain: string, contract: string) {
    contract == "" || forall c :: Requests(req, chain, c) ==> req[c] == [] || ListedIn(sum, req[c], chain, contract)
  }

  lemma ElementsOfNormalized(sum: Checksum, c: string, chain: string, list: seq<string>, contract: string)
    requires ToUpper(c) == ToUpper(chain)
    ensures Normalize(sum, Get(chain), contract) in Elements(NormalizeAll(sum, Get(c), list))
            <==> ListedIn(sum, list, chain, contract)
    ensures Elements(NormalizeAll(sum, Get(c), list)) == {} <==> list == []
  {
    var n := NormalizeAll(sum, Get(c), list);
    if list != [] {
      assert n[0] in Elements(n);
    }
  }

  /** Storing a request whose chains differ in more than letter case, and parsing what was stored, accepts exactly the
      contracts that were asked for. */
  lemma AllowListRoundTrip(sum: Checksum, req: map<string, seq<string>>, m: map<string, seq<string>>,
                           allowed: map<string, set<string>>, chain: string, contract: string)
    requires DistinctUpper(req) && Normalized(sum, req, m) && Parsed(Json(m), allowed)
    ensures IsContractAllowed(sum, allowed, chain, contract) <==> Wanted(sum, req, chain, contract)
  {
    if c :| Requests(req, chain, c) {
      ListOfRequest(sum, req, m, allowed, chain, c);
      OneRequest(sum, req, chain, c, contract);
      AllowedWithList(sum, allowed, chain, contract, c, req[c]);
    } else {
      NoRequest(sum, req, m, allowed, chain);
    }
  }

  lemma ListOfRequest(sum: Checksum, req: map<string, seq<string>>, m: map<string, seq<string>>,
                      allowed: map<string, set<string>>,
                      chain: string, c: string)
    requires DistinctUpper(req) && Normalized(sum, req, m) && Parsed(Json(m), allowed) && Requests(req, chain, c)
    ensures ToUpper(chain) in allowed && allowed[ToUpper(chain)] == Elements(NormalizeAll(sum, Get(c), req[c]))
  {
    ParsedOfNormalized(sum, req, m, allowed);
    var k := ToUpper(chain);
    assert k in UpperKeys(req);
    assert NormalizedFrom(sum, req, k, m[k]);
  }

  lemma NoRequest(sum: Checksum, req: map<string, seq<string>>, m: map<string, seq<string>>,
                  allowed: map<string, set<string>>, chain: string)
    requires Normalized(sum, req, m) && Parsed(Json(m), allowed) && forall c :: !Requests(req, chain, c)
    ensures ToUpper(chain) !in allowed
  {
    ParsedOfNormalized(sum, req, m, allowed);
    NoKey(req, chain);
  }

  lemma NoKey(req: map<string, seq<string>>, chain: string)
    requires forall c :: !Requests(req, chain, c)
    ensures ToUpper(chain) !in UpperKeys(req)
  {
    forall c | c in req ensures ToUpper(c) != ToUpper(chain) {
      assert !Requests(req, chain, c);
    }
  }

  lemma AllowedWithList(sum: Checksum, allowed: map<string, set<string>>, chain: string, contract: string, c: string,
                        list: seq<string>)
    requires ToUpper(c) == ToUpper(chain) && ToUpper(chain) in allowed
    requires allowed[ToUpper(chain)] == Elements(NormalizeAll(sum, Get(c), list))
    ensures IsContractAllowed(sum, allowed, chain, contract)
            <==> contract == "" || list == [] || ListedIn(sum, list, chain, contract)
  {
    ElementsOfNormalized(sum, c, chain, list, contract);
    assert allowed != map[];
  }

  /** With keys that differ in upper case a chain has one list. */
  lemma OneRequest(sum: Checksum, req: map<string, seq<string>>, chain: string, c: string, contract: string)
    requires DistinctUpper(req) && Requests(req, chain, c)
    ensures Wanted(sum, req, chain, contract)
            <==> contract == "" || req[c] == [] || ListedIn(sum, req[c], chain, contract)
  {
    assert forall d :: Requests(req, chain, d) ==> d == c;
  }

  // --- Chains that differ only in letter case ---------------------------------------------------------------------

  /** The contracts one entry of a request asks for. */
  function Asked(sum: Checksum, req: map<string, seq<string>>, c: string): set<string>
    requires c in req
  {
    Elements(NormalizeAll(sum, Get(c), req[c]))
  }

  /** Entries for the same chain ask for the same contracts. */
  ghost predicate Consistent(sum: Checksum, req: map<string, seq<string>>) {
    forall b, c :: b in req && c in req && ToUpper(b) == ToUpper(c) ==> Asked(sum, req, b) == Asked(sum, req, c)
  }

  /** Whatever is stored and parsed, what is accepted is what was asked for. */
  ghost predicate Reliable(sum: Checksum, req: map<string, seq<string>>) {
    forall m, allowed, chain, contract :: Normalized(sum, req, m) && Parsed(Json(m), allowed) ==>
      (IsContractAllowed(sum, allowed, chain, contract) <==> Wanted(sum, req, chain, contract))
  }

  predicate Accepts(sum: Checksum, codec: Codec, contracts: set<string>, contract: string) {
    contract == "" || contracts == {} || Normalize(sum, codec, contract) in contracts
  }

  /** What a chain accepts is decided by the entry that survived. */
  lemma AllowedBySurvivor(sum: Checksum, allowed: map<string, set<string>>, chain: string, contract: string)
    requires ToUpper(chain) in allowed
    ensures IsContractAllowed(sum, allowed, chain, contract)
            <==> Accepts(sum, Get(chain), allowed[ToUpper(chain)], contract)
  {
    assert allowed != map[];
  }

  lemma WantedByEntry(sum: Checksum, req: map<string, seq<string>>, chain: string, contract: string, c: string)
    requires Requests(req, chain, c)
    ensures contract == "" || req[c] == [] || ListedIn(sum, req[c], chain, contract)
       <==> Accepts(sum, Get(chain), Asked(sum, req, c), contract)
  {
    ElementsOfNormalized(sum, c, chain, req[c], contract);
  }

  /** With consistent entries any of them says what is wanted. */
  lemma WantedWhenConsistent(sum: Checksum, req: map<string, seq<string>>, chain: string, contract: string, c: string)
    requires Consistent(sum, req) && Requests(req, chain, c)
    ensures Wanted(sum, req, chain, contract) <==> Accepts(sum, Get(chain), Asked(sum, req, c), contract)
  {
    forall d | Requests(req, chain, d)
      ensures contract == "" || req[d] == [] || ListedIn(sum, req[d], chain, contract)
         <==> Accepts(sum, Get(chain), Asked(sum, req, c), contract)
    {
      WantedByEntry(sum, req, chain, contract, d);
      assert Asked(sum, req, d) == Asked(sum, req, c);
    }
  }

  lemma Survivor(sum: Checksum, req: map<string, seq<string>>, m: map<string, seq<string>>,
                 allowed: map<string, set<string>>,
                 chain: string, d: string)
    returns (c: string)
    requires Normalized(sum, req, m) && Parsed(Json(m), allowed) && Requests(req, chain, d)
    ensures Requests(req, chain, c) && ToUpper(chain) in allowed && allowed[ToUpper(chain)] == Asked(sum, req, c)
  {
    ParsedOfNormalized(sum, req, m, allowed);
    var k := ToUpper(chain);
    KeyIsThere(req, chain, d);
    c := EntryOf(sum, req, k, m[k]);
  }

  lemma KeyIsThere(req: map<string, seq<string>>, chain: string, d: string)
    requires Requests(req, chain, d)
    ensures ToUpper(chain) in UpperKeys(req)
  {
  }

  lemma EntryOf(sum: Checksum, req: map<string, seq<string>>, k: string, list: seq<string>) returns (c: string)
    requires NormalizedFrom(sum, req, k, list)
    ensures c in req && ToUpper(c) == k && Elements(list) == Asked(sum, req, c)
  {
    c :| c in req && ToUpper(c) == k && list == NormalizeAll(sum, Get(c), req[c]);
  }

  lemma ConsistentIsReliable(sum: Checksum, req: map<string, seq<string>>, m: map<string, seq<string>>,
                             allowed: map<string, set<string>>, chain: string, contract: string)
    requires Consistent(sum, req) && Normalized(sum, req, m) && Parsed(Json(m), allowed)
    ensures IsContractAllowed(sum, allowed, chain, contract) <==> Wanted(sum, req, chain, contract)
  {
    if d :| Requests(req, chain, d) {
      var c := Survivor(sum, req, m, allowed, chain, d);
      WantedWhenConsistent(sum, req, chain, contract, c);
      AllowedBySurvivor(sum, allowed, chain, contract);
    } else {
      NoRequest(sum, req, m, allowed, chain);
    }
  }

  /** One of the keys a chain in upper case stands for. */
  ghost function AnyKey(req: map<string, seq<string>>, k: string): (c: string)
    requires k in UpperKeys(req)
    ensures c in req && ToUpper(c) == k
  {
    var c :| c in req && ToUpper(c) == k;
    c
  }

  /** The outcome in which entry b came last. */
  ghost function OutcomeOf(sum: Checksum, req: map<string, seq<string>>, b: string): map<string, seq<string>>
    requires b in req
  {
    map k | k in UpperKeys(req) ::
      var c := if k == ToUpper(b) then b else AnyKey(req, k);
      NormalizeAll(sum, Get(c), req[c])
  }

  lemma OutcomeIsNormalized(sum: Checksum, req: map<string, seq<string>>, b: string)
    requires b in req
    ensures Normalized(sum, req, OutcomeOf(sum, req, b))
    ensures forall k :: k in OutcomeOf(sum, req, b) ==> ToUpper(k) == k
  {
    var m := OutcomeOf(sum, req, b);
    forall k | k in m ensures NormalizedFrom(sum, req, k, m[k]) && ToUpper(k) == k {
      var c := if k == ToUpper(b) then b else AnyKey(req, k);
      assert c in req && ToUpper(c) == k && m[k] == NormalizeAll(sum, Get(c), req[c]);
      UpperTwice(c);
    }
  }

  /** Lists under upper-case keys are parsed to their sets. */
  lemma ParsedUpper(m: map<string, seq<string>>, allowed: map<string, set<string>>)
    requires forall k :: k in m ==> ToUpper(k) == k
    requires allowed.Keys == m.Keys && forall k :: k in m ==> allowed[k] == Elements(m[k])
    ensures Parsed(Json(m), allowed)
  {
    assert UpperKeys(m) == m.Keys by {
      forall k | k in m ensures k in UpperKeys(m) {
        assert ToUpper(k) == k;
      }
    }
    forall k | k in allowed ensures ParsedFrom(m, k, allowed[k]) {
      assert k in m && ToUpper(k) == k;
    }
  }

  lemma OutcomeIsPossible(sum: Checksum, req: map<string, seq<string>>, b: string)
    returns (allowed: map<string, set<string>>)
    requires b in req
    ensures Normalized(sum, req, OutcomeOf(sum, req, b)) && Parsed(Json(OutcomeOf(sum, req, b)), allowed)
    ensures ToUpper(b) in allowed && allowed[ToUpper(b)] == Asked(sum, req, b)
  {
    var m := OutcomeOf(sum, req, b);
    OutcomeIsNormalized(sum, req, b);
    allowed := map k | k in m :: Elements(m[k]);
    ParsedUpper(m, allowed);
    assert ToUpper(b) in UpperKeys(req);
  }

  lemma MaxLength(s: set<string>) returns (n: nat)
    ensures forall x :: x in s ==> |x| < n
    decreases |s|
  {
    if s == {} {
      n := 0;
    } else {
      var x :| x in s;
      var rest := MaxLength(s - {x});
      n := if rest <= |x| then |x| + 1 else rest;
    }
  }

  /** Some contract lies outside any finite set of normal forms. */
  lemma SomeOther(sum: Checksum, codec: Codec, s: set<string>) returns (contract: string)
    ensures contract != "" && Normalize(sum, codec, contract) !in s
  {
    var n := MaxLength(s);
    contract := "41" + seq(n + 1, _ => 'z');
    LongStaysLong(sum, codec, contract);
  }

  lemma LongStaysLong(sum: Checksum, codec: Codec, x: string)
    requires |x| > 2 && "41" <= x && forall i :: 2 <= i < |x| ==> x[i] == 'z'
    ensures |Normalize(sum, codec, x)| >= |x|
  {
    TrimNothing(x);
    match codec
    case Evm =>
    case Sol =>
    case Tron => PlainTron(sum, x);
  }

  lemma PlainTron(sum: Checksum, x: string)
    requires |x| > 2 && "41" <= x && TrimSpace(x) == x && forall i :: 2 <= i < |x| ==> x[i] == 'z'
    ensures NormalizeTron(sum, x) == x
  {
    assert x[0] == '4' && x[1] == '1';
    HexBranch(sum, x);
    assert ToLower(x) == x;
    NotHex(x);
  }

  lemma NotHex(x: string)
    requires |x| > 2 && forall i :: 2 <= i < |x| ==> x[i] == 'z'
    ensures DecodeHex(x).None?
  {
    assert x[2..][0] == 'z' && HexValue('z').None?;
    if |x| > 3 {
      assert DecodeHex(x[2..]).None?;
    }
  }

  /** Every contract of an entry can be asked about. */
  lemma AskedContract(sum: Checksum, req: map<string, seq<string>>, c: string, x: string) returns (contract: string)
    requires c in req && x in Asked(sum, req, c)
    ensures contract != "" && Normalize(sum, Get(c), contract) == x
  {
    var i :| 0 <= i < |req[c]| && NormalizeAll(sum, Get(c), req[c])[i] == x;
    contract := if req[c][i] == "" then " " else req[c][i];
    if req[c][i] == "" {
      BlankIsEmpty(sum, Get(c));
    }
  }

  lemma BlankIsEmpty(sum: Checksum, codec: Codec)
    ensures Normalize(sum, codec, " ") == Normalize(sum, codec, "")
  {
    assert " "[1..] == "" && TrimSpace(" ") == "" && TrimSpace("") == "";
  }

  lemma AskedWithin(sum: Checksum, req: map<string, seq<string>>, b: string, c: string)
    requires b in req && c in req && ToUpper(b) == ToUpper(c)
    requires forall x :: Accepts(sum, Get(b), Asked(sum, req, b), x) <==> Accepts(sum, Get(b), Asked(sum, req, c), x)
    ensures Asked(sum, req, b) <= Asked(sum, req, c)
  {
    var codec, s, t := Get(b), Asked(sum, req, b), Asked(sum, req, c);
    var other := SomeOther(sum, codec, s);
    assert t == {} ==> Accepts(sum, codec, t, other);
    assert s != {} ==> !Accepts(sum, codec, s, other);
    forall x | x in s ensures x in t {
      var contract := AskedContract(sum, req, b, x);
      assert Accepts(sum, codec, s, contract);
    }
  }

  lemma SameVerdicts(sum: Checksum, req: map<string, seq<string>>, b: string, c: string, contract: string)
    requires b in req && c in req && ToUpper(b) == ToUpper(c) && Reliable(sum, req)
    ensures Accepts(sum, Get(b), Asked(sum, req, b), contract) <==> Accepts(sum, Get(b), Asked(sum, req, c), contract)
  {
    var one := OutcomeIsPossible(sum, req, b);
    var two := OutcomeIsPossible(sum, req, c);
    AllowedBySurvivor(sum, one, b, contract);
    AllowedBySurvivor(sum, two, b, contract);
    assert IsContractAllowed(sum, one, b, contract) <==> Wanted(sum, req, b, contract);
    assert IsContractAllowed(sum, two, b, contract) <==> Wanted(sum, req, b, contract);
  }

  /** A request is kept whatever entry comes last exactly when entries for the same chain ask for the same contracts, in
      any spelling; with chains that differ in upper case there is nothing to ask. */
  lemma ReliableIff(sum: Checksum, req: map<string, seq<string>>)
    ensures Reliable(sum, req) <==> Consistent(sum, req)
  {
    if Consistent(sum, req) {
      forall m, allowed, chain, contract | Normalized(sum, req, m) && Parsed(Json(m), allowed)
        ensures IsContractAllowed(sum, allowed, chain, contract) <==> Wanted(sum, req, chain, contract)
      {
        ConsistentIsReliable(sum, req, m, allowed, chain, contract);
      }
    }
    if Reliable(sum, req) {
      forall b, c | b in req && c in req && ToUpper(b) == ToUpper(c) ensures Asked(sum, req, b) == Asked(sum, req, c) {
        SameSets(sum, req, b, c);
      }
    }
  }

  lemma SameSets(sum: Checksum, req: map<string, seq<string>>, b: string, c: string)
    requires b in req && c in req && ToUpper(b) == ToUpper(c) && Reliable(sum, req)
    ensures Asked(sum, req, b) == Asked(sum, req, c)
  {
    forall x ensures Accepts(sum, Get(b), Asked(sum, req, b), x) <==> Accepts(sum, Get(b), Asked(sum, req, c), x) {
      SameVerdicts(sum, req, b, c, x);
    }
    assert Get(b) == Get(c);
    AskedWithin(sum, req, b, c);
    AskedWithin(sum, req, c, b);
  }

  /** For instance, two spellings of one chain with different contracts lose one of the lists. */
  lemma CollidingChainsLoseAList(sum: Checksum, b: string, c: string, x: string, y: string)
    requires b != c && ToUpper(b) == ToUpper(c) && Normalize(sum, Get(b), x) != Normalize(sum, Get(b), y)
    ensures !Reliable(sum, map[b := [x], c := [y]])
  {
    var req := map[b := [x], c := [y]];
    var s, t := NormalizeAll(sum, Get(b), req[b]), NormalizeAll(sum, Get(c), req[c]);
    assert Get(b) == Get(c) && s[0] in Elements(s) && s[0] !in Elements(t);
    assert Asked(sum, req, b) != Asked(sum, req, c);
    ReliableIff(sum, req);
  }
}
