/** A subscription and the events about its account meet, in whatever spelling it was registered. */
module Spellings {
  import opened Prelude
  import opened Base58
  import opened Hex
  import opened AddrCodec
  import opened Events
  import opened AddressService
  import opened Parsers
  import EvmParser
  import SolParser
  import TronParser
  import WatchedAddress

  /** The row a request for a text leads to. */
  ghost predicate RowFor(sum: Checksum, reqChain: string, text: string, row: WatchedAddress.Row) {
    row.chain == ToUpper(reqChain) && StoredAs(sum, reqChain, text, row.address)
  }

  /** The event is about the subscription. */
  predicate About(e: Event, row: WatchedAddress.Row) {
    e.chain == row.chain && e.watched == row.address
  }

  lemma TronStored(sum: Checksum, reqChain: string, text: string, row: WatchedAddress.Row, a: Account)
    requires ToUpper(reqChain) == "TRON" && RowFor(sum, reqChain, text, row)
    ensures row.address == Canonical(sum, a) <==> Spells(TrimSpace(text), a)
  {
  }

  lemma LogEventIsEvent(sum: Checksum, txHash: string, logs: seq<TronParser.Log>, i: nat, j: nat)
    requires i < |logs| && TronParser.Counts(logs[i]) && j < 2
    ensures TronParser.LogEvents(sum, txHash, logs[i], i)[j] in EventsOf(sum, TronCall(txHash, logs))
  {
    TronParser.EventOfLog(sum, txHash, logs, |logs|, i, TronParser.LogEvents(sum, txHash, logs[i], i)[j]);
  }

  /** The events of a transfer log on TRON: the first is about exactly the subscriptions that spell the sender, the
      second about those that spell the receiver. */
  lemma TronLogIsHeard(sum: Checksum, reqChain: string, text: string, row: WatchedAddress.Row, txHash: string,
                       a: Account, logs: seq<TronParser.Log>, i: nat)
    requires ToUpper(reqChain) == "TRON" && RowFor(sum, reqChain, text, row)
    requires i < |logs| && TronParser.Counts(logs[i])
    ensures var es := TronParser.LogEvents(sum, txHash, logs[i], i);
            && es[0] in EventsOf(sum, TronCall(txHash, logs)) && es[1] in EventsOf(sum, TronCall(txHash, logs))
            && (TronParser.IsTopicOf(logs[i].topics[1], a) ==> (About(es[0], row) <==> Spells(TrimSpace(text), a)))
            && (TronParser.IsTopicOf(logs[i].topics[2], a) ==> (About(es[1], row) <==> Spells(TrimSpace(text), a)))
  {
    TronParser.LogTold(sum, txHash, logs[i], i);
    TronParser.TopicRead(sum, a, logs[i].topics[1]);
    TronParser.TopicRead(sum, a, logs[i].topics[2]);
    TronStored(sum, reqChain, text, row, a);
    LogEventIsEvent(sum, txHash, logs, i, 0);
    LogEventIsEvent(sum, txHash, logs, i, 1);
  }

  lemma TronTransferIsHeard(sum: Checksum, reqChain: string, text: string, row: WatchedAddress.Row, txHash: string,
                            a: Account, owner: string, receiver: string, amount: int)
    requires ToUpper(reqChain) == "TRON" && RowFor(sum, reqChain, text, row)
    ensures var es := EventsOf(sum, TronTransfer(txHash, owner, receiver, amount));
            && |es| == 2
            && (Spells(TrimSpace(owner), a) ==> (About(es[0], row) <==> Spells(TrimSpace(text), a)))
            && (Spells(TrimSpace(receiver), a) ==> (About(es[1], row) <==> Spells(TrimSpace(text), a)))
  {
    TronParser.NativeTold(sum, txHash, owner, receiver, amount);
    NormalizeMeets(sum, owner, a);
    NormalizeMeets(sum, receiver, a);
    TronStored(sum, reqChain, text, row, a);
  }

  predicate SpellsEvm(text: string, a: Account) {
    ToLower(TrimSpace(text)) == HexOf(a) || ToLower(TrimSpace(text)) == EvmParser.Name(a)
  }

  lemma DigitsOf(a: Account)
    ensures IsLowerHex(HexOf(a))
  {
    forall i | 0 <= i < |HexOf(a)|
      ensures HexValue(HexOf(a)[i]).Some? && LowerChar(HexOf(a)[i]) == HexOf(a)[i]
    {
      HexOfChars(a, i);
    }
  }

  lemma EvmStored(sum: Checksum, reqChain: string, text: string, row: WatchedAddress.Row, a: Account)
    requires ToUpper(reqChain) != "TRON" && ToUpper(reqChain) != "SOL" && RowFor(sum, reqChain, text, row)
    ensures row.address == EvmParser.Name(a) <==> SpellsEvm(text, a)
  {
    DigitsOf(a);
  }

  /** On a chain of the EVM codec likewise. */
  lemma EvmLogIsHeard(sum: Checksum, reqChain: string, text: string, row: WatchedAddress.Row, chain: string,
                      txHash: string, a: Account, b: Account, log: EvmParser.Log)
    requires ToUpper(reqChain) != "TRON" && ToUpper(reqChain) != "SOL" && RowFor(sum, reqChain, text, row)
    requires ToUpper(chain) == ToUpper(reqChain)
    requires EvmParser.WellFormed(log) && log.signature == Some(EvmParser.Transfer) && |log.topics| >= 2
    requires log.topics[0] == EvmParser.Topic(a) && log.topics[1] == EvmParser.Topic(b)
    ensures var es := EventsOf(sum, EvmLog(chain, txHash, log));
            && |es| == 2
            && (About(es[0], row) <==> SpellsEvm(text, a)) && (About(es[1], row) <==> SpellsEvm(text, b))
  {
    EvmParser.TransferSides(ToUpper(chain), txHash, log, a, b);
    EvmStored(sum, reqChain, text, row, a);
    EvmStored(sum, reqChain, text, row, b);
  }

  lemma EvmTransferIsHeard(sum: Checksum, reqChain: string, text: string, row: WatchedAddress.Row, chain: string,
                           txHash: string, a: Account, b: Account, from: string, to: string, value: int)
    requires ToUpper(reqChain) != "TRON" && ToUpper(reqChain) != "SOL" && RowFor(sum, reqChain, text, row)
    requires ToUpper(chain) == ToUpper(reqChain) && value > 0
    requires ToLower(from) == EvmParser.Name(a) && ToLower(to) == EvmParser.Name(b)
    ensures var es := EventsOf(sum, EvmTx(chain, txHash, from, to, value));
            && |es| == 2
            && (About(es[0], row) <==> SpellsEvm(text, a)) && (About(es[1], row) <==> SpellsEvm(text, b))
  {
    EvmParser.NativeSides(ToUpper(chain), txHash, from, to, value);
    EvmStored(sum, reqChain, text, row, a);
    EvmStored(sum, reqChain, text, row, b);
  }

  /** The Solana parser lowers the letters of an account, the stored address keeps them: a subscription that names an
      account as it is written hears of it exactly when it has no capital letter. */
  lemma SolIsHeard(sum: Checksum, reqChain: string, text: string, row: WatchedAddress.Row, txHash: string,
                   accounts: seq<string>, pre: seq<int>, post: seq<int>, fee: int, e: Event,
                   before: seq<SolParser.TokenBalance>, after: seq<SolParser.TokenBalance>)
    requires ToUpper(reqChain) == "SOL" && RowFor(sum, reqChain, text, row)
    requires e in SolParser.NativeEvents(txHash, accounts, pre, post, fee)
    requires WellFormed(SolTx(txHash, accounts, pre, post, fee, before, after))
    ensures e in EventsOf(sum, SolTx(txHash, accounts, pre, post, fee, before, after)) && 0 <= e.index < |accounts|
    ensures About(e, row) <==> TrimSpace(text) == ToLower(accounts[e.index])
    ensures TrimSpace(text) == accounts[e.index] ==>
            (About(e, row) <==> ToLower(accounts[e.index]) == accounts[e.index])
  {
    SolParser.OneEventEach(txHash, accounts, pre, post, fee);
    var es := SolParser.NativeEvents(txHash, accounts, pre, post, fee);
    var k :| 0 <= k < |es| && es[k] == e;
  }
}
