/** What a raw event turns into, whichever chain it comes from. */
module Parsers {
  import opened Prelude
  import opened Base58
  import opened Events
  import EvmParser
  import SolParser
  import TronParser

  /** A raw event once it is decoded. `Nothing` stands for what the parsers refuse or pass over: bodies that cannot be
      read, unknown types, failed transactions. */
  datatype Parsed =
    | Nothing
    | EvmTx(chain: string, txHash: string, from: string, to: string, value: int)
    | EvmLog(chain: string, txHash: string, log: EvmParser.Log)
    | TronTransfer(txHash: string, owner: string, receiver: string, amount: int)
    | TronCall(txHash: string, logs: seq<TronParser.Log>)
    | SolTx(txHash: string, accounts: seq<string>, pre: seq<int>, post: seq<int>, fee: int,
            tokensBefore: seq<SolParser.TokenBalance>, tokensAfter: seq<SolParser.TokenBalance>)

  /** What the types of the decoded values guarantee: addresses and topics of a log are digits, a token has a mint. */
  predicate WellFormed(p: Parsed) {
    match p
    case EvmLog(_, _, log) => EvmParser.WellFormed(log)
    case SolTx(_, _, _, _, _, _, tokens) => forall i :: 0 <= i < |tokens| ==> tokens[i].mint != ""
    case _ => true
  }

  function EventsOf(sum: Checksum, p: Parsed): seq<Event>
    requires WellFormed(p)
  {
    match p
    case Nothing => []
    case EvmTx(chain, txHash, from, to, value) => EvmParser.ParseTx(ToUpper(chain), txHash, from, to, value)
    case EvmLog(chain, txHash, log) => EvmParser.ParseLog(ToUpper(chain), txHash, log)
    case TronTransfer(txHash, owner, receiver, amount) =>
      TronParser.ParseNativeTransfer(sum, txHash, owner, receiver, amount)
    case TronCall(txHash, logs) => TronParser.EventsUpTo(sum, txHash, logs, |logs|)
    case SolTx(txHash, accounts, pre, post, fee, before, after) =>
      SolParser.NativeEvents(txHash, accounts, pre, post, fee) + SolParser.TokenEvents(txHash, before, after)
  }

  lemma AscendingDiffer(es: seq<Event>, low: int, high: int)
    requires Ascending(es, low, high)
    ensures NoDuplicates(es)
  {
  }

  /** One raw event never yields the same event twice, even where two of its events share an id. */
  lemma EventsDiffer(sum: Checksum, p: Parsed)
    requires WellFormed(p)
    ensures NoDuplicates(EventsOf(sum, p))
  {
    match p
    case EvmLog(chain, txHash, log) => EvmParser.EventNumbers(ToUpper(chain), txHash, log);
    case TronCall(txHash, logs) =>
      TronParser.NumbersGrow(sum, txHash, logs, |logs|);
      AscendingDiffer(EventsOf(sum, p), 0, 10 * |logs|);
    case SolTx(txHash, accounts, pre, post, fee, before, after) =>
      SolDiffer(txHash, accounts, pre, post, fee, before, after);
    case _ =>
  }

  /** A native and a token event can share a number beyond 10000 accounts, but only the latter has a contract. */
  lemma SolDiffer(txHash: string, accounts: seq<string>, pre: seq<int>, post: seq<int>, fee: int,
                  before: seq<SolParser.TokenBalance>, after: seq<SolParser.TokenBalance>)
    requires forall i :: 0 <= i < |after| ==> after[i].mint != ""
    ensures NoDuplicates(SolParser.NativeEvents(txHash, accounts, pre, post, fee)
                      + SolParser.TokenEvents(txHash, before, after))
  {
    var es := SolParser.NativeEvents(txHash, accounts, pre, post, fee);
    var fs := SolParser.TokenEvents(txHash, before, after);
    var changes := SolParser.Changes(accounts, pre, post, fee);
    SolParser.OneEventEach(txHash, accounts, pre, post, fee);
    SolParser.TokenNumbers(txHash, SolParser.Befores(before, after), SolParser.Afters(after), after, |after|);
    NativeHasNoContract(txHash, accounts, changes, |changes|);
    TokenHasContract(txHash, SolParser.Befores(before, after), SolParser.Afters(after), after, |after|);
    forall i, j | 0 <= i < j < |es + fs| ensures (es + fs)[i] != (es + fs)[j] {
      assert i < |es| <= j ==> ContractOf(es[i]) == "" && ContractOf(fs[j - |es|]) != "";
    }
  }

  ghost predicate NoContracts(es: seq<Event>) {
    forall i :: 0 <= i < |es| ==> ContractOf(es[i]) == ""
  }

  ghost predicate AllContracts(es: seq<Event>) {
    forall i :: 0 <= i < |es| ==> ContractOf(es[i]) != ""
  }

  lemma {:induction false} NativeHasNoContract(txHash: string, accounts: seq<string>, changes: seq<int>, n: nat)
    requires n <= |changes| && n <= |accounts|
    ensures NoContracts(SolParser.NativeUpTo(txHash, accounts, changes, n))
  {
    if n == 0 {
    } else {
      NativeHasNoContract(txHash, accounts, changes, n - 1);
    }
  }

  lemma {:induction false} TokenHasContract(txHash: string, befores: seq<int>, afters: seq<int>,
                                            tokens: seq<SolParser.TokenBalance>, n: nat)
    requires n <= |tokens| == |befores| == |afters| && forall i :: 0 <= i < |tokens| ==> tokens[i].mint != ""
    ensures AllContracts(SolParser.TokenUpTo(txHash, befores, afters, tokens, n))
  {
    if n == 0 {
    } else {
      TokenHasContract(txHash, befores, afters, tokens, n - 1);
    }
  }
}
