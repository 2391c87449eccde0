/** `BitcoinService`: the ledger mode, the on-device ledger, and the four
    operations the coordinator calls. What the network returns is an input:
    each GET is given as the response it produced (every call fetches on its
    own), each POST as whether the server accepted it. The stored ledger is the `ledger_v1` entry of
    `UserDefaults`, as decoded. */
module LedgerService {
  import opened Wrappers
  import opened Bytes
  import opened Errors
  import opened Domain
  import opened Ledger
  import opened ChainIndex

  /** `.local` keeps the ledger on the device, `.remote` asks a ledger server
      at the URL, `.off` reads the public chain index. */
  datatype LedgerMode = Local | Remote(url: string) | Off

  /** The outcome of one GET: no usable response (no connection, or a status
      outside 200..<300), or a body that did or did not decode. */
  datatype Fetched<T> = Unreachable | Body(decoded: Option<T>)

  /** `fetchRemoteLedger`: a failed fetch is thrown; a body that does not
      decode as a ledger is read as the empty ledger. */
  function FetchRemoteLedger(f: Fetched<seq<LedgerTx>>): (r: Result<seq<LedgerTx>, Error>)
    ensures r.Failure? <==> f.Unreachable?
    ensures r.Failure? ==> r.error == Network
    ensures f.Body? ==> r.Success? && r.value == f.decoded.GetOr([])
  {
    match f
    case Unreachable => Failure(Network)
    case Body(decoded) => Success(decoded.GetOr([]))
  }

  /** `fetch` followed by a `try` decode: either failure is thrown. */
  function FetchDecoded<T>(f: Fetched<T>): (r: Result<T, Error>)
    ensures r.Success? <==> f.Body? && f.decoded.Some?
    ensures r.Success? ==> r.value == f.decoded.value
    ensures f.Unreachable? ==> r == Failure(Network)
    ensures f.Body? && f.decoded.None? ==> r == Failure(Decoding)
  {
    match f
    case Unreachable => Failure(Network)
    case Body(None) => Failure(Decoding)
    case Body(Some(v)) => Success(v)
  }

  class BitcoinService {
    var ledgerMode: LedgerMode
    /** The stored ledger: None when the entry is absent or does not decode. */
    var storedLedger: Option<seq<LedgerTx>>

    /** The service starts in local mode over whatever the device stored. */
    constructor(stored: Option<seq<LedgerTx>>)
      ensures ledgerMode == Local && storedLedger == stored
    {
      ledgerMode := Local;
      storedLedger := stored;
    }

    /** `loadLedger`: the stored entries, or none. */
    function LoadLedger(): (l: seq<LedgerTx>)
      reads this
      ensures storedLedger.None? ==> l == []
      ensures storedLedger.Some? ==> l == storedLedger.value
    {
      storedLedger.GetOr([])
    }

    /** `ledgerMode` is a plain settable property. */
    method SetLedgerMode(mode: LedgerMode)
      modifies this
      ensures ledgerMode == mode && storedLedger == old(storedLedger)
    {
      ledgerMode := mode;
    }

    /** `getBalance`: the ledger rule over the stored or fetched ledger, or
        the chain index's confirmed funded minus spent sums. */
    function GetBalance(address: string, ledgerGet: Fetched<seq<LedgerTx>>, infoGet: Fetched<AddressInfo>): (r: Result<int, Error>)
      reads this
      ensures ledgerMode.Local? ==> r == Success(Balance(LoadLedger(), address))
      ensures ledgerMode.Remote? ==> (r.Failure? <==> ledgerGet.Unreachable?)
      ensures ledgerMode.Remote? && r.Success? ==> r.value == Balance(ledgerGet.decoded.GetOr([]), address)
      ensures ledgerMode.Off? ==> (r.Success? <==> infoGet.Body? && infoGet.decoded.Some?)
      ensures ledgerMode.Off? && r.Success? ==> r.value == IndexBalance(infoGet.decoded.value)
      ensures r.Failure? ==> r.error == Network || r.error == Decoding
    {
      match ledgerMode
      case Local => Success(Balance(LoadLedger(), address))
      case Remote(_) =>
        (match FetchRemoteLedger(ledgerGet)
         case Success(l) => Success(Balance(l, address))
         case Failure(e) => Failure(e))
      case Off =>
        (match FetchDecoded(infoGet)
         case Success(info) => Success(IndexBalance(info))
         case Failure(e) => Failure(e))
    }

    /** `getTransactions`: `mapLedger` over the stored or fetched ledger, or
        the chain index's records mapped in order. */
    function GetTransactions(address: string, ledgerGet: Fetched<seq<LedgerTx>>, txsGet: Fetched<seq<AddressTransaction>>): (r: Result<seq<Transaction>, Error>)
      reads this
      ensures ledgerMode.Local? ==> r == Success(MapLedger(LoadLedger(), address))
      ensures ledgerMode.Remote? ==> (r.Failure? <==> ledgerGet.Unreachable?)
      ensures ledgerMode.Remote? && r.Success? ==> r.value == MapLedger(ledgerGet.decoded.GetOr([]), address)
      ensures ledgerMode.Off? ==> (r.Success? <==> txsGet.Body? && txsGet.decoded.Some?)
      ensures ledgerMode.Off? && r.Success? ==> r.value == MapIndex(txsGet.decoded.value, address)
      ensures r.Failure? ==> r.error == Network || r.error == Decoding
    {
      match ledgerMode
      case Local => Success(MapLedger(LoadLedger(), address))
      case Remote(_) =>
        (match FetchRemoteLedger(ledgerGet)
         case Success(l) => Success(MapLedger(l, address))
         case Failure(e) => Failure(e))
      case Off =>
        (match FetchDecoded(txsGet)
         case Success(txs) => Success(MapIndex(txs, address))
         case Failure(e) => Failure(e))
    }

    /** `sendTransaction`: a non-positive amount is refused before anything
        else; locally one entry is appended and saved; remotely the entry is
        posted and a refused post is thrown; the read-only mode always
        refuses. `u` and `now` are the UUID and clock readings taken for the
        id and the timestamp; `posted` is the request body sent, if any. */
    method SendTransaction(from: string, to: string, amount: int, privateKey: seq<Byte>, u: Uuid, now: real, postAccepted: bool)
      returns (r: Result<string, Error>, posted: Option<LedgerTx>)
      modifies this
      ensures ledgerMode == old(ledgerMode)
      ensures amount <= 0 || ledgerMode.Off? ==>
        r == Failure(Error.Wallet(InsufficientFunds)) && posted == None && storedLedger == old(storedLedger)
      ensures amount > 0 && ledgerMode.Local? ==>
        && r == Success(TxIdFromUuid(u)) && posted == None
        && storedLedger == Some(old(LoadLedger()) + [SendEntry(from, to, amount, u, now)])
      ensures amount > 0 && ledgerMode.Remote? ==>
        && posted == Some(SendEntry(from, to, amount, u, now))
        && storedLedger == old(storedLedger)
        && r == (if postAccepted then Success(TxIdFromUuid(u)) else Failure(Network))
    {
      posted := None;
      if amount <= 0 {
        return Failure(Error.Wallet(InsufficientFunds)), None;
      }
      match ledgerMode {
        case Local =>
          var txid := TxIdFromUuid(u);
          var ledger := LoadLedger();
          var fee := SendFee(amount);
          ledger := ledger + [LedgerTx(txid, from, to, amount, fee, now, false)];
          storedLedger := Some(ledger);
          r := Success(txid);
        case Remote(_) =>
          var txid := TxIdFromUuid(u);
          var fee := SendFee(amount);
          var tx := LedgerTx(txid, from, to, amount, fee, now, false);
          posted := Some(tx);
          r := if postAccepted then Success(txid) else Failure(Network);
        case Off =>
          r := Failure(Error.Wallet(InsufficientFunds));
      }
    }

    /** `creditFunds`: as a send, from the faucet, with no fee, confirmed. */
    method CreditFunds(to: string, amount: int, u: Uuid, now: real, postAccepted: bool)
      returns (r: Result<string, Error>, posted: Option<LedgerTx>)
      modifies this
      ensures ledgerMode == old(ledgerMode)
      ensures amount <= 0 || ledgerMode.Off? ==>
        r == Failure(Error.Wallet(InsufficientFunds)) && posted == None && storedLedger == old(storedLedger)
      ensures amount > 0 && ledgerMode.Local? ==>
        && r == Success(TxIdFromUuid(u)) && posted == None
        && storedLedger == Some(old(LoadLedger()) + [FaucetEntry(to, amount, u, now)])
      ensures amount > 0 && ledgerMode.Remote? ==>
        && posted == Some(FaucetEntry(to, amount, u, now))
        && storedLedger == old(storedLedger)
        && r == (if postAccepted then Success(TxIdFromUuid(u)) else Failure(Network))
    {
      posted := None;
      if amount <= 0 {
        return Failure(Error.Wallet(InsufficientFunds)), None;
      }
      match ledgerMode {
        case Local =>
          var txid := TxIdFromUuid(u);
          var ledger := LoadLedger();
          ledger := ledger + [LedgerTx(txid, FaucetAddress, to, amount, 0, now, true)];
          storedLedger := Some(ledger);
          r := Success(txid);
        case Remote(_) =>
          var txid := TxIdFromUuid(u);
          var tx := LedgerTx(txid, FaucetAddress, to, amount, 0, now, true);
          posted := Some(tx);
          r := if postAccepted then Success(txid) else Failure(Network);
        case Off =>
          r := Failure(Error.Wallet(InsufficientFunds));
      }
    }
  }
}
