/** pwa/app.js: the browser twin of the ledger. Its pure half (`computeBalance`,
    `mapLedger`, `randomHex`, `buildTx`) is functions; the global `state`
    object and its `localStorage` copies are the class `PwaApp`. Random
    bytes, the clock (`Date.now()`, in milliseconds) and the outcome of each
    `fetch` are parameters. */
module Pwa {
  import opened Wrappers
  import opened Bytes
  import opened Js
  import opened Sorting
  import Domain
  import Ledger

  /** One ledger entry as the page keeps it. `confirmed` is whatever was
      stored; the page only ever tests its truthiness. */
  datatype PwaTx = PwaTx(
    id: string,
    from: string,
    to: string,
    amount: real,
    fee: real,
    timestamp: real,
    confirmed: JsValue)

  const FaucetAddress := "faucet"

  // ---------------------------------------------------------------------------
  // computeBalance

  /** Σ amount over the entries with `to === address`. */
  function Incoming(ledger: seq<PwaTx>, address: string): (r: real)
    ensures (forall i :: 0 <= i < |ledger| ==> ledger[i].to != address) ==> r == 0.0
  {
    if ledger == [] then 0.0
    else
      var t := ledger[|ledger| - 1];
      Incoming(ledger[..|ledger| - 1], address) + (if t.to == address then t.amount else 0.0)
  }

  /** Σ (amount + fee) over the entries with `from === address`. */
  function Outgoing(ledger: seq<PwaTx>, address: string): (r: real)
    ensures (forall i :: 0 <= i < |ledger| ==> ledger[i].from != address) ==> r == 0.0
  {
    if ledger == [] then 0.0
    else
      var t := ledger[|ledger| - 1];
      Outgoing(ledger[..|ledger| - 1], address) + (if t.from == address then t.amount + t.fee else 0.0)
  }

  function ComputeBalance(ledger: seq<PwaTx>, address: string): real {
    Incoming(ledger, address) - Outgoing(ledger, address)
  }

  /** What one entry does to an address's balance. */
  function Effect(t: PwaTx, address: string): real {
    (if t.to == address then t.amount else 0.0) - (if t.from == address then t.amount + t.fee else 0.0)
  }

  /** Appending an entry changes each balance by that entry's effect alone. */
  lemma ComputeBalanceAppend(ledger: seq<PwaTx>, t: PwaTx, address: string)
    ensures ComputeBalance(ledger + [t], address) == ComputeBalance(ledger, address) + Effect(t, address)
  {
    assert (ledger + [t])[..|ledger|] == ledger;
  }

  // ---------------------------------------------------------------------------
  // mapLedger

  datatype Direction = Sent | Received

  /** One history row as `mapLedger` returns it. */
  datatype Row = Row(
    id: string,
    amount: real,
    fee: real,
    timestamp: real,
    kind: Direction,
    counterparty: string,
    confirmed: bool)

  predicate Touches(t: PwaTx, address: string) {
    t.from == address || t.to == address
  }

  /** `ledger.filter(t => t.from === address || t.to === address)` */
  function Relevant(ledger: seq<PwaTx>, address: string): (r: seq<PwaTx>)
    ensures |r| <= |ledger|
  {
    if ledger == [] then []
    else
      var t := ledger[|ledger| - 1];
      Relevant(ledger[..|ledger| - 1], address) + (if Touches(t, address) then [t] else [])
  }

  /** The filter keeps every entry touching the address, as often as it
      occurs, and nothing else. */
  lemma {:induction false} RelevantContents(ledger: seq<PwaTx>, address: string)
    ensures forall t :: multiset(Relevant(ledger, address))[t] == if Touches(t, address) then multiset(ledger)[t] else 0
  {
    if ledger != [] {
      var init := ledger[..|ledger| - 1];
      RelevantContents(init, address);
      assert ledger == init + [ledger[|ledger| - 1]];
    }
  }

  /** One entry as a row seen from `address`: sent iff it left the address,
      the counterparty the other end, `confirmed` coerced with `!!`. */
  function RowOf(t: PwaTx, address: string): (r: Row)
    ensures r.kind == Sent <==> t.from == address
    ensures r.counterparty == if t.from == address then t.to else t.from
    ensures r.confirmed <==> Truthy(t.confirmed)
    ensures r.id == t.id && r.amount == t.amount && r.fee == t.fee && r.timestamp == t.timestamp
  {
    var outgoing := t.from == address;
    Row(t.id, t.amount, t.fee, t.timestamp,
      if outgoing then Sent else Received,
      if outgoing then t.to else t.from,
      Truthy(t.confirmed))
  }

  function RowFrom(address: string): PwaTx -> Row {
    t => RowOf(t, address)
  }

  function Stamp(t: PwaTx): real {
    t.timestamp
  }

  function RowStamp(r: Row): real {
    r.timestamp
  }

  /** `mapLedger`: filter, `sort((a, b) => b.timestamp - a.timestamp)` (a
      stable sort, newest first), then one row per entry. */
  function MapLedger(ledger: seq<PwaTx>, address: string): seq<Row> {
    MapSeq(RowFrom(address), SortDesc(Relevant(ledger, address), Stamp))
  }

  /** The rows are exactly the rows of the entries touching the address,
      each once per occurrence. */
  lemma MapLedgerRows(ledger: seq<PwaTx>, address: string)
    ensures multiset(MapLedger(ledger, address)) == multiset(MapSeq(RowFrom(address), Relevant(ledger, address)))
    ensures |MapLedger(ledger, address)| == |Relevant(ledger, address)|
  {
    MapSortDesc(RowFrom(address), Relevant(ledger, address), Stamp);
  }

  /** Every row is the row of an entry of the ledger that touches the
      address. */
  lemma MapLedgerFromLedger(ledger: seq<PwaTx>, address: string)
    ensures forall i :: 0 <= i < |MapLedger(ledger, address)| ==>
      exists t :: t in ledger && Touches(t, address) && MapLedger(ledger, address)[i] == RowOf(t, address)
  {
    var rel := Relevant(ledger, address);
    var sorted := SortDesc(rel, Stamp);
    var rows := MapLedger(ledger, address);
    SortDescPermutes(rel, Stamp);
    RelevantContents(ledger, address);
    forall i | 0 <= i < |rows|
      ensures exists t :: t in ledger && Touches(t, address) && rows[i] == RowOf(t, address)
    {
      var t := sorted[i];
      assert t in multiset(sorted);
      assert multiset(rel)[t] > 0;
      assert rows[i] == RowOf(t, address);
    }
  }

  /** The rows are newest first. */
  lemma MapLedgerOrdered(ledger: seq<PwaTx>, address: string)
    ensures NonIncreasing(MapLedger(ledger, address), RowStamp)
  {
    var rel := Relevant(ledger, address);
    var sorted := SortDesc(rel, Stamp);
    var rows := MapLedger(ledger, address);
    SortDescSorted(rel, Stamp);
    forall i, j | 0 <= i < j < |rows| ensures RowStamp(rows[i]) >= RowStamp(rows[j]) {
      assert Stamp(sorted[i]) >= Stamp(sorted[j]);
    }
  }

  /** A ledger whose relevant entries are already newest first is shown in
      that order: entries with equal timestamps keep their ledger order. */
  lemma MapLedgerStable(ledger: seq<PwaTx>, address: string)
    requires NonIncreasing(Relevant(ledger, address), Stamp)
    ensures MapLedger(ledger, address) == MapSeq(RowFrom(address), Relevant(ledger, address))
  {
    SortDescOfSorted(Relevant(ledger, address), Stamp);
  }

  // ---------------------------------------------------------------------------
  // randomHex and buildTx

  /** `randomHex(len)` over the `len / 2` random bytes it draws: two
      lower-case, zero-padded digits per byte, which decode back to the
      bytes. */
  function RandomHex(bytes: seq<Byte>): (s: string)
    ensures |s| == 2 * |bytes|
    ensures forall k :: 0 <= k < |s| ==> IsLowerHexDigit(s[k])
    ensures HexDecode(s) == Some(bytes)
  {
    HexBytesLower(bytes);
    HexRoundTrip(bytes, false);
    HexBytes(bytes, false)
  }

  /** `Math.max(100, Math.floor(amount / 1000))` */
  function DefaultFee(amount: real): real {
    var proportional := (amount / 1000.0).Floor;
    if proportional > 100 then proportional as real else 100.0
  }

  /** The default fee is at least 100 and at least the rounded-down tenth of
      a percent, and it is one of the two. */
  lemma DefaultFeeSpec(amount: real)
    ensures DefaultFee(amount) >= 100.0 && DefaultFee(amount) >= (amount / 1000.0).Floor as real
    ensures DefaultFee(amount) == 100.0 || DefaultFee(amount) == (amount / 1000.0).Floor as real
    ensures DefaultFee(amount) * 1000.0 <= amount || DefaultFee(amount) == 100.0
  {
  }

  /** The twins agree on the fee of every whole amount: the browser's floor
      and Swift's truncating division differ only below zero, where both
      fees are the minimum. */
  lemma DefaultFeeMatchesSwift(amount: int)
    ensures DefaultFee(amount as real) == Ledger.SendFee(amount) as real
  {
    var q := Ledger.SwiftDiv(amount, 1000);
    if amount >= 0 {
      assert q * 1000 <= amount < q * 1000 + 1000;
      assert q as real <= amount as real / 1000.0 < q as real + 1.0;
      assert (amount as real / 1000.0).Floor == q;
    } else {
      assert q <= 0;
      assert amount as real / 1000.0 < 0.0;
      assert (amount as real / 1000.0).Floor < 0;
    }
  }

  /** `buildTx`: a 64-digit random id, the clock in whole seconds, the fee
      given or the default one, the amount as given. */
  function BuildTx(from: string, to: string, amount: real, fee: Option<real>, confirmed: bool, idBytes: seq<Byte>, nowMs: real): (t: PwaTx)
    requires |idBytes| == 32
    ensures |t.id| == 64 && HexDecode(t.id) == Some(idBytes)
    ensures t.from == from && t.to == to && t.amount == amount
    ensures fee.Some? ==> t.fee == fee.value
    ensures fee.None? ==> t.fee == DefaultFee(amount)
    ensures t.timestamp <= nowMs / 1000.0 < t.timestamp + 1.0
    ensures t.timestamp == (t.timestamp).Floor as real
    ensures t.confirmed == Bool(confirmed)
  {
    var now := (nowMs / 1000.0).Floor as real;
    var calcFee := if fee.Some? then fee.value else DefaultFee(amount);
    PwaTx(RandomHex(idBytes), from, to, amount, calcFee, now, Bool(confirmed))
  }

  // ---------------------------------------------------------------------------
  // The browser's copy of a Swift ledger

  /** A Swift ledger entry as the page would hold it. */
  function FromSwift(e: Ledger.LedgerTx): PwaTx {
    PwaTx(e.id, e.from, e.to, e.amount as real, e.fee as real, e.timestamp, Bool(e.confirmed))
  }

  /** A Swift history row as the page's row. */
  function FromSwiftRow(t: Domain.Transaction): Row {
    Row(t.id, t.amount as real, t.fee as real, t.timestamp,
      if t.kind == Domain.Sent then Sent else Received,
      t.address, t.status == Domain.Confirmed)
  }

  lemma {:induction false} IncomingMatchesSwift(ledger: seq<Ledger.LedgerTx>, address: string)
    ensures Incoming(MapSeq(FromSwift, ledger), address) == Ledger.Incoming(ledger, address) as real
  {
    if ledger != [] {
      IncomingMatchesSwift(ledger[..|ledger| - 1], address);
      MapSeqLast(FromSwift, ledger);
    }
  }

  lemma {:induction false} OutgoingMatchesSwift(ledger: seq<Ledger.LedgerTx>, address: string)
    ensures Outgoing(MapSeq(FromSwift, ledger), address) == Ledger.Outgoing(ledger, address) as real
  {
    if ledger != [] {
      OutgoingMatchesSwift(ledger[..|ledger| - 1], address);
      MapSeqLast(FromSwift, ledger);
    }
  }

  /** Over the same entries the two balance rules agree. */
  lemma BalanceMatchesSwift(ledger: seq<Ledger.LedgerTx>, address: string)
    ensures ComputeBalance(MapSeq(FromSwift, ledger), address) == Ledger.Balance(ledger, address) as real
  {
    IncomingMatchesSwift(ledger, address);
    OutgoingMatchesSwift(ledger, address);
  }

  /** The page's filter keeps a converted entry exactly when Swift's keeps
      the entry. */
  lemma RelevantStep(e: Ledger.LedgerTx, address: string)
    ensures (if Touches(FromSwift(e), address) then [FromSwift(e)] else [])
      == MapSeq(FromSwift, if Ledger.Touches(e, address) then [e] else [])
  {
  }

  lemma {:induction false} RelevantMatchesSwift(ledger: seq<Ledger.LedgerTx>, address: string)
    ensures Relevant(MapSeq(FromSwift, ledger), address) == MapSeq(FromSwift, Ledger.Relevant(ledger, address))
  {
    if ledger != [] {
      var n := |ledger|;
      var init := ledger[..n - 1];
      var e := ledger[n - 1];
      RelevantMatchesSwift(init, address);
      MapSeqLast(FromSwift, ledger);
      RelevantStep(e, address);
      MapSeqConcat(FromSwift, Ledger.Relevant(init, address), if Ledger.Touches(e, address) then [e] else []);
    }
  }

  /** One entry's row: converting the entry, then its row, is converting
      the Swift row. */
  lemma RowMatchesSwift(e: Ledger.LedgerTx, address: string)
    ensures RowOf(FromSwift(e), address) == FromSwiftRow(Ledger.View(e, address))
  {
  }

  lemma RowsMatchSwift(s: seq<Ledger.LedgerTx>, address: string)
    ensures MapSeq(RowFrom(address), MapSeq(FromSwift, s)) == MapSeq(FromSwiftRow, MapSeq(Ledger.ViewFrom(address), s))
  {
    forall i | 0 <= i < |s|
      ensures MapSeq(RowFrom(address), MapSeq(FromSwift, s))[i] == MapSeq(FromSwiftRow, MapSeq(Ledger.ViewFrom(address), s))[i]
    {
      RowMatchesSwift(s[i], address);
    }
  }

  /** Over the same entries the two histories agree row for row, in the
      same order. */
  lemma HistoryMatchesSwift(ledger: seq<Ledger.LedgerTx>, address: string)
    ensures MapLedger(MapSeq(FromSwift, ledger), address) == MapSeq(FromSwiftRow, Ledger.MapLedger(ledger, address))
  {
    var rel := Ledger.Relevant(ledger, address);
    RelevantMatchesSwift(ledger, address);
    MapSortCommutes(FromSwift, rel, Ledger.Stamp, Stamp);
    var sorted := SortDesc(rel, Ledger.Stamp);
    assert MapLedger(MapSeq(FromSwift, ledger), address) == MapSeq(RowFrom(address), MapSeq(FromSwift, sorted));
    RowsMatchSwift(sorted, address);
  }

  // ---------------------------------------------------------------------------
  // The page's state

  /** The messages the handlers throw. */
  datatype PwaError = AmountAndRecipientRequired | AmountRequired | SetRemoteUrl | RemoteTxFailed | RemoteLedgerError

  /** The `pwa_remote_v1` record. */
  datatype RemoteRecord = RemoteRecord(url: string, mode: string)

  /** What `renderLedger` puts on screen. */
  datatype Screen = Screen(balance: real, rows: seq<Row>, txCount: nat)

  /** The name `loadState` gives a wallet when none is stored. */
  function DefaultAddress(random: seq<Byte>): (a: string)
    requires |random| == 10
    ensures |a| == 23 && a[..3] == "ew-"
    ensures forall k :: 3 <= k < 23 ==> IsLowerHexDigit(a[k])
  {
    "ew-" + RandomHex(random)
  }

  /** The global `state` (the wallet is its address) together with the three
      `localStorage` entries. */
  class PwaApp {
    var wallet: Option<string>
    var mode: string
    var remoteUrl: string
    var localLedger: seq<PwaTx>
    /** `pwa_wallet_v1`, `pwa_ledger_v1` and `pwa_remote_v1`; None when absent. */
    var storedWallet: Option<string>
    var storedLedger: Option<seq<PwaTx>>
    var storedRemote: Option<RemoteRecord>

    /** The page starts with the initial `state` over what the browser kept. */
    constructor(walletEntry: Option<string>, ledgerEntry: Option<seq<PwaTx>>, remoteEntry: Option<RemoteRecord>)
      ensures wallet == None && mode == "local" && remoteUrl == "" && localLedger == []
      ensures storedWallet == walletEntry && storedLedger == ledgerEntry && storedRemote == remoteEntry
    {
      wallet := None;
      mode := "local";
      remoteUrl := "";
      localLedger := [];
      storedWallet := walletEntry;
      storedLedger := ledgerEntry;
      storedRemote := remoteEntry;
    }

    /** `loadState`: the stored wallet or a fresh `ew-` name from ten random
        bytes, saved back; the stored ledger or none; the remote URL and mode
        only from a record with a non-empty URL, the mode falling back to
        "local". */
    method LoadState(random: seq<Byte>)
      requires |random| == 10
      modifies this
      ensures wallet == Some(old(storedWallet).GetOr(DefaultAddress(random)))
      ensures storedWallet == wallet
      ensures localLedger == old(storedLedger).GetOr([])
      ensures match old(storedRemote)
        case Some(rec) =>
          if rec.url != "" then remoteUrl == rec.url && mode == (if rec.mode != "" then rec.mode else "local")
          else remoteUrl == old(remoteUrl) && mode == old(mode)
        case None => remoteUrl == old(remoteUrl) && mode == old(mode)
      ensures storedLedger == old(storedLedger) && storedRemote == old(storedRemote)
    {
      wallet := Some(if storedWallet.Some? then storedWallet.value else DefaultAddress(random));
      localLedger := if storedLedger.Some? then storedLedger.value else [];
      if storedRemote.Some? && storedRemote.value.url != "" {
        remoteUrl := storedRemote.value.url;
        mode := if storedRemote.value.mode != "" then storedRemote.value.mode else "local";
      }
      storedWallet := wallet;
    }

    /** `addLocalTx`: one entry at the end, earlier entries kept, and the
        ledger saved. */
    method AddLocalTx(tx: PwaTx)
      modifies this
      ensures localLedger == old(localLedger) + [tx]
      ensures storedLedger == Some(localLedger)
      ensures wallet == old(wallet) && mode == old(mode) && remoteUrl == old(remoteUrl)
      ensures storedWallet == old(storedWallet) && storedRemote == old(storedRemote)
    {
      localLedger := localLedger + [tx];
      storedLedger := Some(localLedger);
    }

    /** The mode selector: the new mode is taken and the record saved. */
    method SelectMode(newMode: string)
      modifies this
      ensures mode == newMode && storedRemote == Some(RemoteRecord(remoteUrl, newMode))
      ensures remoteUrl == old(remoteUrl) && wallet == old(wallet) && localLedger == old(localLedger)
      ensures storedWallet == old(storedWallet) && storedLedger == old(storedLedger)
    {
      mode := newMode;
      storedRemote := Some(RemoteRecord(remoteUrl, mode));
    }

    /** The save button: the (trimmed) URL is taken, the mode becomes
        "remote" and the record is saved. */
    method SaveRemote(url: string)
      modifies this
      ensures remoteUrl == url && mode == "remote" && storedRemote == Some(RemoteRecord(url, "remote"))
      ensures wallet == old(wallet) && localLedger == old(localLedger)
      ensures storedWallet == old(storedWallet) && storedLedger == old(storedLedger)
    {
      remoteUrl := url;
      mode := "remote";
      storedRemote := Some(RemoteRecord(remoteUrl, mode));
    }

    /** The ledger `refresh` shows: the local one in local mode; otherwise
        the fetched one, where `fetched` is None for a response that is not
        ok. */
    function LedgerShown(fetched: Option<seq<PwaTx>>): (r: Result<seq<PwaTx>, PwaError>)
      reads this
      ensures mode == "local" ==> r == Success(localLedger)
      ensures mode != "local" && remoteUrl == "" ==> r == Failure(SetRemoteUrl)
      ensures mode != "local" && remoteUrl != "" ==>
        r == (if fetched.Some? then Success(fetched.value) else Failure(RemoteLedgerError))
    {
      if mode == "local" then Success(localLedger)
      else if remoteUrl == "" then Failure(SetRemoteUrl)
      else if fetched.None? then Failure(RemoteLedgerError)
      else Success(fetched.value)
    }

    /** `refresh` followed by `renderLedger` for the wallet's address. */
    function Refresh(fetched: Option<seq<PwaTx>>): (r: Result<Screen, PwaError>)
      requires wallet.Some?
      reads this
      ensures r.Success? <==> LedgerShown(fetched).Success?
      ensures r.Success? ==>
        var l := LedgerShown(fetched).value;
        && r.value.balance == ComputeBalance(l, wallet.value)
        && r.value.rows == MapLedger(l, wallet.value)
        && r.value.txCount == |r.value.rows|
    {
      match LedgerShown(fetched)
      case Success(l) =>
        var rows := MapLedger(l, wallet.value);
        Success(Screen(ComputeBalance(l, wallet.value), rows, |rows|))
      case Failure(e) => Failure(e)
    }

    /** `handleSend`, up to the `refresh` it ends with. A missing recipient
        or a non-positive amount is refused before anything is built (the
        source's `!to || !amount || amount <= 0`, which on numbers without NaN
        is `amount <= 0`). In
        local mode the built entry is appended; otherwise it is posted to the
        server (`posted`), or refused when no URL is set. `idBytes` are the
        32 random bytes of the id. */
    method HandleSend(to: string, amount: real, idBytes: seq<Byte>, nowMs: real, postAccepted: bool)
      returns (r: Result<PwaTx, PwaError>, posted: Option<PwaTx>)
      requires wallet.Some?
      requires |idBytes| == 32
      modifies this
      ensures wallet == old(wallet) && mode == old(mode) && remoteUrl == old(remoteUrl)
      ensures storedWallet == old(storedWallet) && storedRemote == old(storedRemote)
      ensures to == "" || amount <= 0.0 ==>
        r == Failure(AmountAndRecipientRequired) && posted == None
        && localLedger == old(localLedger) && storedLedger == old(storedLedger)
      ensures to != "" && amount > 0.0 ==>
        var tx := BuildTx(wallet.value, to, amount, None, false, idBytes, nowMs);
        if mode == "local" then
          r == Success(tx) && posted == None
          && localLedger == old(localLedger) + [tx] && storedLedger == Some(localLedger)
        else
          && localLedger == old(localLedger) && storedLedger == old(storedLedger)
          && (remoteUrl == "" ==> r == Failure(SetRemoteUrl) && posted == None)
          && (remoteUrl != "" ==> posted == Some(tx) && r == (if postAccepted then Success(tx) else Failure(RemoteTxFailed)))
    {
      posted := None;
      if to == "" || amount <= 0.0 {
        return Failure(AmountAndRecipientRequired), None;
      }
      var tx := BuildTx(wallet.value, to, amount, None, false, idBytes, nowMs);
      r := SubmitTx(tx, postAccepted);
      if mode != "local" && remoteUrl != "" {
        posted := Some(tx);
      }
    }

    /** `handleCredit`: a non-positive amount is refused (`!amount ||
        amount <= 0`, which without NaN is `amount <= 0`); otherwise a
        confirmed, fee-free entry from the faucet to the wallet is recorded
        as a send would be. */
    method HandleCredit(amount: real, idBytes: seq<Byte>, nowMs: real, postAccepted: bool)
      returns (r: Result<PwaTx, PwaError>, posted: Option<PwaTx>)
      requires wallet.Some?
      requires |idBytes| == 32
      modifies this
      ensures wallet == old(wallet) && mode == old(mode) && remoteUrl == old(remoteUrl)
      ensures storedWallet == old(storedWallet) && storedRemote == old(storedRemote)
      ensures amount <= 0.0 ==>
        r == Failure(AmountRequired) && posted == None
        && localLedger == old(localLedger) && storedLedger == old(storedLedger)
      ensures amount > 0.0 ==>
        var tx := BuildTx(FaucetAddress, wallet.value, amount, Some(0.0), true, idBytes, nowMs);
        if mode == "local" then
          r == Success(tx) && posted == None
          && localLedger == old(localLedger) + [tx] && storedLedger == Some(localLedger)
        else
          && localLedger == old(localLedger) && storedLedger == old(storedLedger)
          && (remoteUrl == "" ==> r == Failure(SetRemoteUrl) && posted == None)
          && (remoteUrl != "" ==> posted == Some(tx) && r == (if postAccepted then Success(tx) else Failure(RemoteTxFailed)))
    {
      posted := None;
      if amount <= 0.0 {
        return Failure(AmountRequired), None;
      }
      var tx := BuildTx(FaucetAddress, wallet.value, amount, Some(0.0), true, idBytes, nowMs);
      r := SubmitTx(tx, postAccepted);
      if mode != "local" && remoteUrl != "" {
        posted := Some(tx);
      }
    }

    /** The part both handlers share: append locally, or post. */
    method SubmitTx(tx: PwaTx, postAccepted: bool) returns (r: Result<PwaTx, PwaError>)
      modifies this
      ensures wallet == old(wallet) && mode == old(mode) && remoteUrl == old(remoteUrl)
      ensures storedWallet == old(storedWallet) && storedRemote == old(storedRemote)
      ensures mode == "local" ==>
        r == Success(tx) && localLedger == old(localLedger) + [tx] && storedLedger == Some(localLedger)
      ensures mode != "local" ==>
        && localLedger == old(localLedger) && storedLedger == old(storedLedger)
        && r == (if remoteUrl == "" then Failure(SetRemoteUrl)
                 else if postAccepted then Success(tx) else Failure(RemoteTxFailed))
    {
      if mode == "local" {
        AddLocalTx(tx);
        r := Success(tx);
      } else if remoteUrl == "" {
        r := Failure(SetRemoteUrl);
      } else {
        r := if postAccepted then Success(tx) else Failure(RemoteTxFailed);
      }
    }
  }

  /** In local mode a send moves the shown balance by exactly the sent
      amount and the default fee. */
  lemma LocalSendShownBalance(ledger: seq<PwaTx>, from: string, to: string, amount: real, idBytes: seq<Byte>, nowMs: real)
    requires |idBytes| == 32 && from != to
    ensures var tx := BuildTx(from, to, amount, None, false, idBytes, nowMs);
      ComputeBalance(ledger + [tx], from) == ComputeBalance(ledger, from) - amount - DefaultFee(amount)
  {
    ComputeBalanceAppend(ledger, BuildTx(from, to, amount, None, false, idBytes, nowMs), from);
  }

  /** A credit adds exactly its amount to the credited wallet. */
  lemma CreditShownBalance(ledger: seq<PwaTx>, to: string, amount: real, idBytes: seq<Byte>, nowMs: real)
    requires |idBytes| == 32 && to != FaucetAddress
    ensures var tx := BuildTx(FaucetAddress, to, amount, Some(0.0), true, idBytes, nowMs);
      ComputeBalance(ledger + [tx], to) == ComputeBalance(ledger, to) + amount
  {
    ComputeBalanceAppend(ledger, BuildTx(FaucetAddress, to, amount, Some(0.0), true, idBytes, nowMs), to);
  }
}
