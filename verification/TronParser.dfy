/** Events of a TRON transaction. */
module TronParser {
  import opened Prelude
  import opened Radix
  import opened Base58
  import opened Hex
  import opened AddrCodec
  import opened Events

  /** `transfer` says whether the first topic is the ERC-20 transfer hash. */
  datatype Log = Log(address: string, transfer: bool, topics: seq<string>, amount: nat)

  function ParseNativeTransfer(sum: Checksum, txHash: string, owner: string, receiver: string,
                               amount: int): seq<Event> {
    var from, to := NormalizeTron(sum, owner), NormalizeTron(sum, receiver);
    var asset := Some(Asset("", Some(amount)));
    [Event("TRON", txHash, -2, from, Out, from, to, asset), Event("TRON", txHash, -1, to, In, from, to, asset)]
  }

  predicate Counts(log: Log) {
    |log.topics| >= 3 && log.transfer
  }

  function LogEvents(sum: Checksum, txHash: string, log: Log, i: nat): (es: seq<Event>)
    requires Counts(log)
    ensures |es| == 2 && es[0].index == i * 10 && es[1].index == i * 10 + 1
  {
    var from, to := TopicToAddress(sum, log.topics[1]), TopicToAddress(sum, log.topics[2]);
    var asset := Some(Asset(NormalizeTron(sum, log.address), Some(log.amount)));
    [Event("TRON", txHash, i * 10, from, Out, from, to, asset),
     Event("TRON", txHash, i * 10 + 1, to, In, from, to, asset)]
  }

  function EventsAt(sum: Checksum, txHash: string, logs: seq<Log>, i: nat): seq<Event>
    requires i < |logs|
  {
    if Counts(logs[i]) then LogEvents(sum, txHash, logs[i], i) else []
  }

  /** The events of the first n logs: two for each transfer, in order. */
  function EventsUpTo(sum: Checksum, txHash: string, logs: seq<Log>, n: nat): seq<Event>
    requires n <= |logs|
  {
    if n == 0 then [] else EventsUpTo(sum, txHash, logs, n - 1) + EventsAt(sum, txHash, logs, n - 1)
  }

  method ParseLogs(sum: Checksum, txHash: string, logs: seq<Log>) returns (events: seq<Event>)
    ensures events == EventsUpTo(sum, txHash, logs, |logs|)
  {
    events := [];
    for i := 0 to |logs|
      invariant events == EventsUpTo(sum, txHash, logs, i)
    {
      var log := logs[i];
      if |log.topics| < 3 {
        continue;
      }
      if !log.transfer {
        continue;
      }
      events := events + LogEvents(sum, txHash, log, i);
    }
  }

  /** Numbers grow strictly along the list, so no two events of a transaction share one; they tell log and direction. */
  lemma {:induction false} NumbersGrow(sum: Checksum, txHash: string, logs: seq<Log>, n: nat)
    requires n <= |logs|
    ensures Ascending(EventsUpTo(sum, txHash, logs, n), 0, 10 * n)
  {
    if n == 0 {
    } else {
      NumbersGrow(sum, txHash, logs, n - 1);
      AscendingJoin(EventsUpTo(sum, txHash, logs, n - 1), EventsAt(sum, txHash, logs, n - 1), 0, 10 * (n - 1), 10 * n);
    }
  }

  /** A number of log i. */
  predicate IsOf(e: Event, i: nat) {
    e.index == 10 * i || e.index == 10 * i + 1
  }

  /** The numbers of log n are above those before it. */
  lemma Apart(prior: seq<Event>, own: seq<Event>, n: nat, i: nat, e: Event)
    requires Ascending(prior, 0, 10 * n) && (forall k :: 0 <= k < |own| ==> IsOf(own[k], n)) && i <= n
    ensures e in prior + own && IsOf(e, i) <==> if i < n then e in prior && IsOf(e, i) else e in own
  {
    assert e in prior ==> exists k :: 0 <= k < |prior| && prior[k] == e;
    assert e in own ==> exists k :: 0 <= k < |own| && own[k] == e;
  }

  /** Log i produces its two events exactly when it is a transfer. */
  lemma {:induction false} EventOfLog(sum: Checksum, txHash: string, logs: seq<Log>, n: nat, i: nat, e: Event)
    requires i < n <= |logs|
    ensures e in EventsUpTo(sum, txHash, logs, n) && IsOf(e, i)
       <==> logs[i].transfer && |logs[i].topics| >= 3 && e in LogEvents(sum, txHash, logs[i], i)
  {
    var prior, own := EventsUpTo(sum, txHash, logs, n - 1), EventsAt(sum, txHash, logs, n - 1);
    NumbersGrow(sum, txHash, logs, n - 1);
    Apart(prior, own, n - 1, i, e);
    if i == n - 1 {
    } else {
      EventOfLog(sum, txHash, logs, n - 1, i, e);
    }
  }

  /** All events of a transaction have different ids, the native ones included. */
  lemma KeysDistinct(sum: Checksum, txHash: string, logs: seq<Log>, owner: string, receiver: string, amount: int)
    ensures DistinctKeys(ParseNativeTransfer(sum, txHash, owner, receiver, amount)
                         + EventsUpTo(sum, txHash, logs, |logs|))
  {
    NumbersGrow(sum, txHash, logs, |logs|);
    SameTransaction(sum, txHash, logs, |logs|);
    NativeNumbers(sum, txHash, owner, receiver, amount);
    JoinedKeys(ParseNativeTransfer(sum, txHash, owner, receiver, amount), EventsUpTo(sum, txHash, logs, |logs|),
               "TRON", txHash, -2, 0, 10 * |logs|);
  }

  lemma NativeNumbers(sum: Checksum, txHash: string, owner: string, receiver: string, amount: int)
    ensures Ascending(ParseNativeTransfer(sum, txHash, owner, receiver, amount), -2, 0)
    ensures OfTransaction(ParseNativeTransfer(sum, txHash, owner, receiver, amount), "TRON", txHash)
  {
  }

  lemma {:induction false} SameTransaction(sum: Checksum, txHash: string, logs: seq<Log>, n: nat)
    requires n <= |logs|
    ensures OfTransaction(EventsUpTo(sum, txHash, logs, n), "TRON", txHash)
  {
    if n == 0 {
    } else {
      SameTransaction(sum, txHash, logs, n - 1);
    }
  }

  /** Whatever way the chain spells an account, the events name it in the form subscriptions are stored in. */
  lemma WatchedIsCanonical(sum: Checksum, txHash: string, a: Account, hex: string, topic: string, log: Log, i: nat)
    requires ToLower(hex) == HexOf(Tagged(a))
    requires IsTopicOf(topic, a)
    ensures forall other, amount ::
              && ParseNativeTransfer(sum, txHash, hex, other, amount)[0].watched == Canonical(sum, a)
              && ParseNativeTransfer(sum, txHash, other, hex, amount)[1].watched == Canonical(sum, a)
    ensures Counts(log) && log.topics[1] == topic ==> LogEvents(sum, txHash, log, i)[0].watched == Canonical(sum, a)
    ensures Counts(log) && log.topics[2] == topic ==> LogEvents(sum, txHash, log, i)[1].watched == Canonical(sum, a)
  {
    TronConverges(sum, a, hex, topic);
  }

  predicate IsTopicOf(topic: string, a: Account) {
    |TrimPrefix(topic, "0x")| >= 40 && ToLower(LastForty(topic)) == HexOf(a)
  }

  lemma LogTold(sum: Checksum, txHash: string, log: Log, i: nat)
    requires Counts(log)
    ensures var es := LogEvents(sum, txHash, log, i);
            && BothSides(es, TopicToAddress(sum, log.topics[1]), TopicToAddress(sum, log.topics[2]),
                         NormalizeTron(sum, log.address), log.amount)
            && Balance(es) == 0 && OfTransaction(es, "TRON", txHash)
  {
    TransferBalances(LogEvents(sum, txHash, log, i), TopicToAddress(sum, log.topics[1]),
                     TopicToAddress(sum, log.topics[2]), NormalizeTron(sum, log.address), log.amount);
  }

  /** A transfer log from a to b: a is told that the amount went out to b, b that it came in from a. */
  lemma TransferSides(sum: Checksum, txHash: string, a: Account, b: Account, contract: Account, log: Log, i: nat)
    requires Counts(log)
    ensures IsTopicOf(log.topics[1], a) && IsTopicOf(log.topics[2], b) && Spells(TrimSpace(log.address), contract) ==>
              var es := LogEvents(sum, txHash, log, i);
              && BothSides(es, Canonical(sum, a), Canonical(sum, b), Canonical(sum, contract), log.amount)
              && Balance(es) == 0
  {
    LogTold(sum, txHash, log, i);
    NormalizeMeets(sum, log.address, contract);
    TopicRead(sum, a, log.topics[1]);
    TopicRead(sum, b, log.topics[2]);
  }

  lemma TopicRead(sum: Checksum, a: Account, topic: string)
    ensures IsTopicOf(topic, a) ==> TopicToAddress(sum, topic) == Canonical(sum, a)
  {
    if IsTopicOf(topic, a) {
      TopicMeets(sum, a, topic);
    }
  }

  lemma NativeTold(sum: Checksum, txHash: string, owner: string, receiver: string, amount: int)
    ensures var es := ParseNativeTransfer(sum, txHash, owner, receiver, amount);
            && BothSides(es, NormalizeTron(sum, owner), NormalizeTron(sum, receiver), "", amount)
            && Balance(es) == 0 && OfTransaction(es, "TRON", txHash)
  {
    TransferBalances(ParseNativeTransfer(sum, txHash, owner, receiver, amount), NormalizeTron(sum, owner),
                     NormalizeTron(sum, receiver), "", amount);
  }

  /** So is a transfer of the chain's own coin. */
  lemma NativeSides(sum: Checksum, txHash: string, a: Account, b: Account, owner: string, receiver: string, amount: int)
    ensures Spells(TrimSpace(owner), a) && Spells(TrimSpace(receiver), b) ==>
              var es := ParseNativeTransfer(sum, txHash, owner, receiver, amount);
              BothSides(es, Canonical(sum, a), Canonical(sum, b), "", amount) && Balance(es) == 0
  {
    NativeTold(sum, txHash, owner, receiver, amount);
    NormalizeMeets(sum, owner, a);
    NormalizeMeets(sum, receiver, b);
  }
}
