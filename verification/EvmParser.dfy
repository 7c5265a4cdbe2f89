/** Events of an EVM transaction and its logs. */
module EvmParser {
  import opened Prelude
  import opened Radix
  import opened Hex
  import opened AddrCodec
  import opened Events

  /** The first topic, as far as it is told apart. */
  datatype Signature = Transfer | SwapV2 | SwapV3 | Deposit | Withdraw | Unknown

  /** `topics` are those after the first, each its 64 lower-case digits; a log may have no topic at all. */
  datatype Log = Log(address: string, signature: Option<Signature>, topics: seq<string>, data: seq<nat>, index: nat)

  predicate WellFormed(log: Log) {
    && |log.address| == 40 && IsHexDigits(log.address) && ToLower(log.address) == log.address
    && forall i :: 0 <= i < |log.topics| ==> IsHash(log.topics[i])
  }

  predicate IsHash(t: string) {
    |t| == 64 && IsHexDigits(t) && ToLower(t) == t
  }

  /** The low 20 bytes of a 32-byte topic. */
  function TopicAddress(t: string): string
    requires IsHash(t)
  {
    "0x" + t[24..]
  }

  function ParseTx(chain: string, txHash: string, from: string, to: string, value: int): seq<Event> {
    if value <= 0 then []
    else
      var asset := Some(Asset("", Some(value)));
      [Event(chain, txHash, -2, ToLower(from), Out, ToLower(from), ToLower(to), asset),
       Event(chain, txHash, -1, ToLower(to), In, ToLower(from), ToLower(to), asset)]
  }

  function ParseLog(chain: string, txHash: string, log: Log): seq<Event>
    requires WellFormed(log)
  {
    var contract := "0x" + log.address;
    match log.signature
    case None => []
    case Some(Transfer) => ParseTransfer(chain, txHash, log)
    case Some(SwapV2) => [Event(chain, txHash, log.index, contract, Neither, contract, "", None)]
    case Some(SwapV3) => [Event(chain, txHash, log.index, contract, Neither, contract, "", None)]
    case Some(Deposit) =>
      [Event(chain, txHash, log.index, User(log), Neither, User(log), contract, Some(Asset(contract, HeadAmount(log))))]
    case Some(Withdraw) =>
      [Event(chain, txHash, log.index, User(log), Neither, contract, User(log), Some(Asset(contract, HeadAmount(log))))]
    case Some(Unknown) => [Event(chain, txHash, log.index, "", Neither, contract, "", None)]
  }

  function ParseTransfer(chain: string, txHash: string, log: Log): seq<Event>
    requires WellFormed(log)
  {
    if |log.topics| < 2 then []
    else
      var from, to := TopicAddress(log.topics[0]), TopicAddress(log.topics[1]);
      var asset := Some(Asset("0x" + log.address, Some(Value(256, log.data))));
      [Event(chain, txHash, log.index * 10, from, Out, from, to, asset),
       Event(chain, txHash, log.index * 10 + 1, to, In, from, to, asset)]
  }

  function User(log: Log): string
    requires WellFormed(log)
  {
    if log.topics == [] then "" else TopicAddress(log.topics[0])
  }

  function HeadAmount(log: Log): Option<int> {
    if |log.data| >= 32 then Some(Value(256, log.data[..32])) else None
  }

  // --- Who is told what -----------------------------------------------------------------------------------------

  /** An account as an indexed topic of 32 bytes, and as events name it. */
  function Topic(a: Account): string {
    "000000000000000000000000" + HexOf(a)
  }

  function Name(a: Account): string {
    "0x" + HexOf(a)
  }

  lemma TopicNames(a: Account)
    requires IsHash(Topic(a))
    ensures TopicAddress(Topic(a)) == Name(a)
  {
    assert Topic(a)[24..] == HexOf(a);
  }

  /** A transfer log from a to b: a is told that the amount in the data went out to b, b that it came in from a, and the
      two cancel out. */
  lemma TransferSides(chain: string, txHash: string, log: Log, a: Account, b: Account)
    requires WellFormed(log) && log.signature == Some(Transfer)
    requires |log.topics| >= 2 && log.topics[0] == Topic(a) && log.topics[1] == Topic(b)
    ensures var es := ParseLog(chain, txHash, log);
            && BothSides(es, Name(a), Name(b), "0x" + log.address, Value(256, log.data))
            && Balance(es) == 0 && OfTransaction(es, chain, txHash)
  {
    TopicNames(a);
    TopicNames(b);
    TransferBalances(ParseLog(chain, txHash, log), Name(a), Name(b), "0x" + log.address, Value(256, log.data));
  }

  /** So is a transfer of the chain's own coin, when there is one. */
  lemma NativeSides(chain: string, txHash: string, from: string, to: string, value: int)
    ensures var es := ParseTx(chain, txHash, from, to, value);
            && OfTransaction(es, chain, txHash)
            && if value > 0 then BothSides(es, ToLower(from), ToLower(to), "", value) && Balance(es) == 0 else es == []
  {
    if value > 0 {
      TransferBalances(ParseTx(chain, txHash, from, to, value), ToLower(from), ToLower(to), "", value);
    }
  }

  /** A deposit is told to the user as going to the contract, a withdrawal as coming from it; the amount is the first
      word of the data. */
  lemma UserSide(chain: string, txHash: string, log: Log, a: Account)
    requires WellFormed(log) && log.signature in {Some(Deposit), Some(Withdraw)}
    requires |log.topics| >= 1 && log.topics[0] == Topic(a)
    ensures var es := ParseLog(chain, txHash, log);
            && |es| == 1 && es[0].watched == Name(a) && ContractOf(es[0]) == "0x" + log.address
            && (log.signature == Some(Deposit) ==> es[0].from == Name(a) && es[0].to == "0x" + log.address)
            && (log.signature == Some(Withdraw) ==> es[0].from == "0x" + log.address && es[0].to == Name(a))
            && es[0].asset.value.amount == if |log.data| < 32 then None else Some(Value(256, log.data[..32]))
  {
    TopicNames(a);
  }

  /** A swap is told to whoever watches the contract; of a log that is not understood nobody is told. */
  lemma ContractSide(chain: string, txHash: string, log: Log)
    requires WellFormed(log) && log.signature in {Some(SwapV2), Some(SwapV3), Some(Unknown)}
    ensures var es := ParseLog(chain, txHash, log);
            && |es| == 1 && es[0].direction == Neither && es[0].asset == None && es[0].from == "0x" + log.address
            && es[0].watched == if log.signature == Some(Unknown) then "" else "0x" + log.address
  {
  }

  // --- Identity -------------------------------------------------------------------------------------------------

  predicate IsTransfer(log: Log) {
    log.signature == Some(Transfer) && |log.topics| >= 2
  }

  /** A log of another kind whose number is one of the two a transfer log gives its events. */
  predicate Clash(transfer: Log, other: Log) {
    && IsTransfer(transfer)
    && other.signature.Some? && !other.signature.value.Transfer?
    && (other.index == 10 * transfer.index || other.index == 10 * transfer.index + 1)
  }

  ghost predicate ShareKey(es: seq<Event>, fs: seq<Event>) {
    exists j, k :: 0 <= j < |es| && 0 <= k < |fs| && KeyOf(es[j]) == KeyOf(fs[k])
  }

  /** The numbers of a log's events. */
  function Numbers(log: Log): seq<int> {
    if log.signature.None? then []
    else if !log.signature.value.Transfer? then [log.index]
    else if |log.topics| < 2 then []
    else [log.index * 10, log.index * 10 + 1]
  }

  lemma EventNumbers(chain: string, txHash: string, log: Log)
    requires WellFormed(log)
    ensures var es := ParseLog(chain, txHash, log);
            && |es| == |Numbers(log)|
            && forall j :: 0 <= j < |es| ==>
                es[j].index == Numbers(log)[j] && es[j].chain == chain && es[j].txHash == txHash
  {
  }

  lemma NumbersClashIff(a: Log, b: Log)
    requires a.index != b.index
    ensures (exists n :: n in Numbers(a) && n in Numbers(b)) <==> Clash(a, b) || Clash(b, a)
  {
    if Clash(a, b) {
      assert b.index in Numbers(a) && b.index in Numbers(b);
    }
    if Clash(b, a) {
      assert a.index in Numbers(a) && a.index in Numbers(b);
    }
  }

  /** Events of one transaction share a key exactly when they share a number. */
  lemma ShareKeyIff(chain: string, txHash: string, es: seq<Event>, fs: seq<Event>, m: seq<int>, n: seq<int>)
    requires ':' !in chain && |es| == |m| && |fs| == |n|
    requires forall j :: 0 <= j < |es| ==> es[j].index == m[j] && es[j].chain == chain && es[j].txHash == txHash
    requires forall j :: 0 <= j < |fs| ==> fs[j].index == n[j] && fs[j].chain == chain && fs[j].txHash == txHash
    ensures ShareKey(es, fs) <==> exists x :: x in m && x in n
  {
    if ShareKey(es, fs) {
      var j, k :| 0 <= j < |es| && 0 <= k < |fs| && KeyOf(es[j]) == KeyOf(fs[k]);
      KeyInjective(chain, txHash, m[j], chain, txHash, n[k]);
      assert m[j] in m && m[j] in n;
    }
    if x :| x in m && x in n {
      var j :| 0 <= j < |m| && m[j] == x;
      var k :| 0 <= k < |n| && n[k] == x;
      assert KeyOf(es[j]) == KeyOf(fs[k]);
    }
  }

  /** Two logs of one transaction produce an event id twice exactly when one is a transfer and the other
      clashes with it. */
  lemma LogsClashIff(chain: string, txHash: string, a: Log, b: Log)
    requires WellFormed(a) && WellFormed(b) && a.index != b.index && ':' !in chain
    ensures ShareKey(ParseLog(chain, txHash, a), ParseLog(chain, txHash, b)) <==> Clash(a, b) || Clash(b, a)
  {
    EventNumbers(chain, txHash, a);
    EventNumbers(chain, txHash, b);
    ShareKeyIff(chain, txHash, ParseLog(chain, txHash, a), ParseLog(chain, txHash, b), Numbers(a), Numbers(b));
    NumbersClashIff(a, b);
  }

  /** The two native events never share an id with a log's, nor with each other; a transfer's two events
      never share one. */
  lemma OwnKeysDistinct(chain: string, txHash: string, from: string, to: string, value: int, log: Log)
    requires WellFormed(log) && ':' !in chain
    ensures !ShareKey(ParseTx(chain, txHash, from, to, value), ParseLog(chain, txHash, log))
    ensures var es := ParseTx(chain, txHash, from, to, value);
            |es| == 2 ==> KeyOf(es[0]) != KeyOf(es[1])
    ensures var es := ParseLog(chain, txHash, log);
            |es| <= 2 && (|es| == 2 ==> KeyOf(es[0]) != KeyOf(es[1]))
  {
    var es, fs := ParseTx(chain, txHash, from, to, value), ParseLog(chain, txHash, log);
    EventNumbers(chain, txHash, log);
    forall j, k | 0 <= j < |es| && 0 <= k < |fs| ensures KeyOf(es[j]) != KeyOf(fs[k]) {
      DifferentNumbers(chain, txHash, es[j], fs[k]);
    }
    if |es| == 2 {
      DifferentNumbers(chain, txHash, es[0], es[1]);
    }
    if |fs| == 2 {
      DifferentNumbers(chain, txHash, fs[0], fs[1]);
    }
  }

  lemma DifferentNumbers(chain: string, txHash: string, e: Event, f: Event)
    requires ':' !in chain && e.chain == f.chain == chain && e.txHash == f.txHash == txHash && e.index != f.index
    ensures KeyOf(e) != KeyOf(f)
  {
    if KeyOf(e) == KeyOf(f) {
      KeyInjective(chain, txHash, e.index, chain, txHash, f.index);
    }
  }

  /** The address a log event is about is empty or in canonical form: a subscription registered in any spelling of the
      same digits is the one that is found. */
  lemma WatchedIsCanonical(chain: string, txHash: string, log: Log, j: nat, addr: string)
    requires WellFormed(log) && j < |ParseLog(chain, txHash, log)|
    ensures var w := ParseLog(chain, txHash, log)[j].watched;
            w != "" ==> |w| == 42 && (NormalizeEvm(addr) == w <==> ToLower(TrimSpace(addr)) in {w, w[2..]})
  {
    var w := ParseLog(chain, txHash, log)[j].watched;
    if w != "" {
      WatchedDigits(chain, txHash, log, j);
      EvmMeets(addr, w[2..]);
      assert "0x" + w[2..] == w;
    }
  }

  lemma WatchedDigits(chain: string, txHash: string, log: Log, j: nat)
    requires WellFormed(log) && j < |ParseLog(chain, txHash, log)|
    ensures var w := ParseLog(chain, txHash, log)[j].watched;
            w != "" ==> |w| == 42 && "0x" <= w && IsHexDigits(w[2..]) && ToLower(w[2..]) == w[2..]
  {
    var w := ParseLog(chain, txHash, log)[j].watched;
    if w == "0x" + log.address {
      assert w[2..] == log.address;
    } else if w != "" {
      var t := if IsTransfer(log) then log.topics[j] else log.topics[0];
      assert w == TopicAddress(t) && w[2..] == t[24..];
      LowerTail(t, 24);
    }
  }

  lemma LowerTail(t: string, n: nat)
    requires ToLower(t) == t && n <= |t|
    ensures ToLower(t[n..]) == t[n..]
  {
    forall i | 0 <= i < |t| - n ensures LowerChar(t[n..][i]) == t[n..][i] {
      assert ToLower(t)[n + i] == t[n + i];
    }
  }
}
