/** The read-only mode of BitcoinService.swift (`.off`): already-decoded
    records of the Blockstream testnet index turned into a balance and a
    history. */
module ChainIndex {
  import opened Wrappers
  import opened Domain
  import opened Sorting

  datatype ChainStats = ChainStats(fundedTxoSum: int, spentTxoSum: int)

  datatype AddressInfo = AddressInfo(chainStats: ChainStats, mempoolStats: ChainStats)

  datatype TxStatus = TxStatus(confirmed: bool, blockHeight: Option<int>, blockTime: Option<int>)

  datatype Prevout = Prevout(scriptpubkeyAddress: Option<string>, value: Option<int>)

  datatype Vin = Vin(prevout: Option<Prevout>)

  datatype Vout = Vout(scriptpubkeyAddress: Option<string>, value: Option<int>)

  datatype AddressTransaction = AddressTransaction(
    txid: string,
    fee: Option<int>,
    status: TxStatus,
    vin: seq<Vin>,
    vout: seq<Vout>)

  /** `funded_txo_sum - spent_txo_sum` of the confirmed statistics. */
  function IndexBalance(info: AddressInfo): int {
    info.chainStats.fundedTxoSum - info.chainStats.spentTxoSum
  }

  /** Unconfirmed activity never enters the balance. */
  lemma IndexBalanceIgnoresMempool(info: AddressInfo, mempool: ChainStats)
    ensures IndexBalance(info.(mempoolStats := mempool)) == IndexBalance(info)
  {
  }

  /** Σ value (0 when missing) over the outputs paying the address. */
  function PaidTo(vout: seq<Vout>, address: string): (r: int)
    ensures (forall i :: 0 <= i < |vout| ==> vout[i].scriptpubkeyAddress != Some(address)) ==> r == 0
  {
    if vout == [] then 0
    else
      (if vout[0].scriptpubkeyAddress == Some(address) then vout[0].value.GetOr(0) else 0)
        + PaidTo(vout[1..], address)
  }

  /** Σ value of the spent output (0 when missing) over the inputs spending
      from the address. */
  function SpentFrom(vin: seq<Vin>, address: string): (r: int)
    ensures (forall i :: 0 <= i < |vin| ==> vin[i].prevout.None? || vin[i].prevout.value.scriptpubkeyAddress != Some(address)) ==> r == 0
  {
    if vin == [] then 0
    else
      var p := vin[0].prevout;
      (if p.Some? && p.value.scriptpubkeyAddress == Some(address) then p.value.value.GetOr(0) else 0)
        + SpentFrom(vin[1..], address)
  }

  function Net(tx: AddressTransaction, address: string): int {
    PaidTo(tx.vout, address) - SpentFrom(tx.vin, address)
  }

  function Abs(n: int): nat {
    if n >= 0 then n else -n
  }

  /** `block_height.map { max(1, $0) } ?? 1` when confirmed, else 0. */
  function Confirmations(status: TxStatus): (n: int)
    ensures n == 0 <==> !status.confirmed
    ensures status.confirmed ==> n >= 1 && (status.blockHeight.Some? ==> n >= status.blockHeight.value)
  {
    if !status.confirmed then 0
    else match status.blockHeight
      case Some(h) => if h > 1 then h else 1
      case None => 1
  }

  /** One index record as a history row for the queried address. */
  function IndexView(tx: AddressTransaction, address: string): Transaction {
    var net := Net(tx, address);
    Transaction(
      tx.txid,
      Abs(net),
      tx.fee.GetOr(0),
      tx.status.blockTime.GetOr(0) as real,
      Confirmations(tx.status),
      if net >= 0 then Received else Sent,
      address,
      if tx.status.confirmed then Confirmed else Pending)
  }

  /** The row keeps the net movement: received for a non-negative net, with
      the amount its magnitude, so the signed amount is the net itself. The
      row names the queried address, a confirmed record has at least one
      confirmation, an unconfirmed one none. */
  lemma IndexViewSpec(tx: AddressTransaction, address: string)
    ensures var t := IndexView(tx, address);
      && (t.kind == Received <==> Net(tx, address) >= 0)
      && t.amount >= 0
      && (if t.kind == Received then t.amount else -t.amount) == Net(tx, address)
      && t.address == address
      && (t.status == Confirmed <==> tx.status.confirmed) && t.status != Failed
      && (tx.status.confirmed ==> t.confirmations >= 1 && (tx.status.blockHeight.Some? && tx.status.blockHeight.value >= 1 ==> t.confirmations == tx.status.blockHeight.value))
      && (!tx.status.confirmed ==> t.confirmations == 0)
      && t.fee == tx.fee.GetOr(0)
  {
  }

  /** Outputs paying other addresses contribute nothing. */
  lemma {:induction false} PaidToOthers(vout: seq<Vout>, address: string)
    requires forall i :: 0 <= i < |vout| ==> vout[i].scriptpubkeyAddress != Some(address)
    ensures PaidTo(vout, address) == 0
  {
    if vout != [] {
      PaidToOthers(vout[1..], address);
    }
  }

  lemma {:induction false} PaidToConcat(a: seq<Vout>, b: seq<Vout>, address: string)
    ensures PaidTo(a + b, address) == PaidTo(a, address) + PaidTo(b, address)
  {
    if a == [] {
      assert a + b == b;
    } else {
      assert (a + b)[1..] == a[1..] + b;
      PaidToConcat(a[1..], b, address);
    }
  }

  lemma {:induction false} SpentFromConcat(a: seq<Vin>, b: seq<Vin>, address: string)
    ensures SpentFrom(a + b, address) == SpentFrom(a, address) + SpentFrom(b, address)
  {
    if a == [] {
      assert a + b == b;
    } else {
      assert (a + b)[1..] == a[1..] + b;
      SpentFromConcat(a[1..], b, address);
    }
  }

  function IndexViewFrom(address: string): AddressTransaction -> Transaction {
    tx => IndexView(tx, address)
  }

  /** `apiTxs.map`: one row per record, in the index's order. */
  function MapIndex(txs: seq<AddressTransaction>, address: string): (rows: seq<Transaction>)
    ensures |rows| == |txs|
    ensures forall i :: 0 <= i < |txs| ==> rows[i] == IndexView(txs[i], address)
  {
    MapSeq(IndexViewFrom(address), txs)
  }
}
