/** The ledger of BitcoinService.swift: an append-only log of transfers, the
    balance rule, the fee rule, the transaction ids, and `mapLedger`, which
    turns the log into one address's history. */
module Ledger {
  import opened Wrappers
  import opened Bytes
  import opened Domain
  import opened Sorting
  import opened Text

  /** One logged transfer. Credits come from the pseudo-address "faucet". */
  datatype LedgerTx = LedgerTx(
    id: string,
    from: string,
    to: string,
    amount: int,
    fee: int,
    timestamp: real,
    confirmed: bool)

  const FaucetAddress := "faucet"

  // ---------------------------------------------------------------------------
  // Balance

  /** Σ amount over the entries paid to the address. */
  function Incoming(ledger: seq<LedgerTx>, address: string): (r: int)
    ensures (forall i :: 0 <= i < |ledger| ==> ledger[i].to != address) ==> r == 0
  {
    if ledger == [] then 0
    else
      var e := ledger[|ledger| - 1];
      Incoming(ledger[..|ledger| - 1], address) + (if e.to == address then e.amount else 0)
  }

  /** Σ (amount + fee) over the entries paid from the address. */
  function Outgoing(ledger: seq<LedgerTx>, address: string): (r: int)
    ensures (forall i :: 0 <= i < |ledger| ==> ledger[i].from != address) ==> r == 0
  {
    if ledger == [] then 0
    else
      var e := ledger[|ledger| - 1];
      Outgoing(ledger[..|ledger| - 1], address) + (if e.from == address then e.amount + e.fee else 0)
  }

  /** `incoming - outgoing`, the balance in local and remote mode. */
  function Balance(ledger: seq<LedgerTx>, address: string): int {
    Incoming(ledger, address) - Outgoing(ledger, address)
  }

  /** What one entry does to an address's balance. */
  function Effect(e: LedgerTx, address: string): int {
    (if e.to == address then e.amount else 0) - (if e.from == address then e.amount + e.fee else 0)
  }

  /** Appending an entry changes each balance by that entry's effect alone. */
  lemma BalanceAppend(ledger: seq<LedgerTx>, e: LedgerTx, address: string)
    ensures Balance(ledger + [e], address) == Balance(ledger, address) + Effect(e, address)
  {
    assert (ledger + [e])[..|ledger|] == ledger;
  }

  /** An address no entry names has balance zero. */
  lemma {:induction false} BalanceUntouched(ledger: seq<LedgerTx>, address: string)
    requires forall i :: 0 <= i < |ledger| ==> ledger[i].from != address && ledger[i].to != address
    ensures Balance(ledger, address) == 0
  {
    if ledger != [] {
      BalanceUntouched(ledger[..|ledger| - 1], address);
    }
  }

  function TotalFees(ledger: seq<LedgerTx>): int {
    if ledger == [] then 0 else TotalFees(ledger[..|ledger| - 1]) + ledger[|ledger| - 1].fee
  }

  predicate Distinct(addresses: seq<string>) {
    forall i, j :: 0 <= i < j < |addresses| ==> addresses[i] != addresses[j]
  }

  /** Σ of the balances of the listed addresses. */
  function BalanceSum(ledger: seq<LedgerTx>, addresses: seq<string>): int {
    if addresses == [] then 0 else Balance(ledger, addresses[0]) + BalanceSum(ledger, addresses[1..])
  }

  function EffectSum(e: LedgerTx, addresses: seq<string>): int {
    if addresses == [] then 0 else Effect(e, addresses[0]) + EffectSum(e, addresses[1..])
  }

  lemma {:induction false} EffectSumDistinct(e: LedgerTx, addresses: seq<string>)
    requires Distinct(addresses)
    ensures EffectSum(e, addresses)
      == (if e.to in addresses then e.amount else 0) - (if e.from in addresses then e.amount + e.fee else 0)
  {
    if addresses != [] {
      assert Distinct(addresses[1..]) by {
        forall i, j | 0 <= i < j < |addresses| - 1 ensures addresses[1..][i] != addresses[1..][j] {
          assert addresses[i + 1] != addresses[j + 1];
        }
      }
      EffectSumDistinct(e, addresses[1..]);
      assert addresses[0] !in addresses[1..] by {
        forall k | 0 <= k < |addresses| - 1 ensures addresses[1..][k] != addresses[0] {
          assert addresses[0] != addresses[k + 1];
        }
      }
      assert addresses == [addresses[0]] + addresses[1..];
    }
  }

  lemma {:induction false} BalanceSumAppend(ledger: seq<LedgerTx>, e: LedgerTx, addresses: seq<string>)
    ensures BalanceSum(ledger + [e], addresses) == BalanceSum(ledger, addresses) + EffectSum(e, addresses)
  {
    if addresses != [] {
      BalanceAppend(ledger, e, addresses[0]);
      BalanceSumAppend(ledger, e, addresses[1..]);
    }
  }

  /** Conservation: over any list of distinct addresses that names both ends
      of every entry (the faucet included), the balances add up to minus the
      fees paid, so transfers create nothing and credits are paid by the
      faucet. */
  lemma {:induction false} Conservation(ledger: seq<LedgerTx>, addresses: seq<string>)
    requires Distinct(addresses)
    requires forall i :: 0 <= i < |ledger| ==> ledger[i].from in addresses && ledger[i].to in addresses
    ensures BalanceSum(ledger, addresses) == -TotalFees(ledger)
  {
    if ledger == [] {
      BalanceSumEmpty(addresses);
    } else {
      var init := ledger[..|ledger| - 1];
      var e := ledger[|ledger| - 1];
      Conservation(init, addresses);
      assert init + [e] == ledger;
      BalanceSumAppend(init, e, addresses);
      EffectSumDistinct(e, addresses);
    }
  }

  lemma {:induction false} BalanceSumEmpty(addresses: seq<string>)
    ensures BalanceSum([], addresses) == 0
  {
    if addresses != [] {
      BalanceSumEmpty(addresses[1..]);
    }
  }

  // ---------------------------------------------------------------------------
  // Fee

  /** Swift's `/` on integers truncates toward zero. */
  function SwiftDiv(a: int, d: int): (q: int)
    requires d > 0
    ensures a >= 0 ==> 0 <= a - q * d < d
    ensures a < 0 ==> -d < a - q * d <= 0
  {
    if a >= 0 then a / d else -((-a) / d)
  }

  /** `max(100, amount / 1000)` */
  function SendFee(amount: int): (fee: int)
    ensures fee >= 100 && fee >= SwiftDiv(amount, 1000)
    ensures fee == 100 || fee == SwiftDiv(amount, 1000)
  {
    var proportional := SwiftDiv(amount, 1000);
    if proportional > 100 then proportional else 100
  }

  /** Below 100000 the fee is the minimum 100; from there on it is a tenth of
      a percent, rounded down. */
  lemma SendFeeThreshold(amount: int)
    requires amount > 0
    ensures amount < 100000 ==> SendFee(amount) == 100
    ensures amount >= 100000 ==> SendFee(amount) == amount / 1000
    ensures SendFee(amount) * 1000 <= amount || SendFee(amount) == 100
  {
  }

  // ---------------------------------------------------------------------------
  // Transaction ids

  /** Upper-case hexadecimal groups joined by dashes. */
  function DashedGroups(a: seq<Byte>, b: seq<Byte>, c: seq<Byte>, d: seq<Byte>, e: seq<Byte>): string {
    HexBytes(a, true) + ("-" + (HexBytes(b, true) + ("-" + (HexBytes(c, true) + ("-"
      + (HexBytes(d, true) + ("-" + HexBytes(e, true))))))))
  }

  /** `UUID().uuidString`: upper-case hexadecimal in groups of 8-4-4-4-12. */
  function UuidString(u: Uuid): string {
    DashedGroups(u[..4], u[4..6], u[6..8], u[8..10], u[10..])
  }

  /** `uuidString.replacingOccurrences(of: "-", with: "").lowercased()
      .padding(toLength: 64, withPad: "0", startingAt: 0)` */
  function TxIdFromUuid(u: Uuid): string {
    PadTo(Lower(Remove(UuidString(u), '-')), 64, '0')
  }

  /** One group and the dash after it: the group's digits stay, the dash goes. */
  lemma RemoveGroupDash(bs: seq<Byte>, rest: string)
    ensures Remove(HexBytes(bs, true) + ("-" + rest), '-') == HexBytes(bs, true) + Remove(rest, '-')
  {
    var h := HexBytes(bs, true);
    HexBytesNoDash(bs, true);
    RemoveAbsent(h, '-');
    RemoveConcat(h, "-" + rest, '-');
    assert ("-" + rest)[1..] == rest;
  }

  lemma RemoveGroupDashes(a: seq<Byte>, b: seq<Byte>, c: seq<Byte>, d: seq<Byte>, e: seq<Byte>)
    ensures Remove(DashedGroups(a, b, c, d, e), '-') == HexBytes(a + (b + (c + (d + e))), true)
  {
    var hb, hc, hd, he := HexBytes(b, true), HexBytes(c, true), HexBytes(d, true), HexBytes(e, true);
    HexBytesNoDash(e, true);
    RemoveAbsent(he, '-');
    RemoveGroupDash(d, he);
    RemoveGroupDash(c, hd + ("-" + he));
    RemoveGroupDash(b, hc + ("-" + (hd + ("-" + he))));
    RemoveGroupDash(a, hb + ("-" + (hc + ("-" + (hd + ("-" + he))))));
    HexBytesConcat(d, e, true);
    HexBytesConcat(c, d + e, true);
    HexBytesConcat(b, c + (d + e), true);
    HexBytesConcat(a, b + (c + (d + e)), true);
  }

  lemma RemoveDashes(u: Uuid)
    ensures Remove(UuidString(u), '-') == HexBytes(u, true)
  {
    var a, b, c, d, e := u[..4], u[4..6], u[6..8], u[8..10], u[10..];
    RemoveGroupDashes(a, b, c, d, e);
    assert a + (b + (c + (d + e))) == u;
  }

  /** A transaction id is 64 characters: the UUID's 16 bytes as 32 lower-case
      hexadecimal digits, then 32 '0's. */
  lemma TxIdShape(u: Uuid)
    ensures |TxIdFromUuid(u)| == 64
    ensures TxIdFromUuid(u)[..32] == HexBytes(u, false)
    ensures forall i :: 32 <= i < 64 ==> TxIdFromUuid(u)[i] == '0'
    ensures forall i :: 0 <= i < 32 ==> IsLowerHexDigit(TxIdFromUuid(u)[i])
  {
    RemoveDashes(u);
    HexBytesLowered(u);
    HexBytesLower(u);
  }

  /** Different UUIDs give different ids. */
  lemma TxIdInjective(u: Uuid, v: Uuid)
    requires TxIdFromUuid(u) == TxIdFromUuid(v)
    ensures u == v
  {
    TxIdShape(u);
    TxIdShape(v);
    HexRoundTrip(u, false);
    HexRoundTrip(v, false);
  }

  // ---------------------------------------------------------------------------
  // The entries the service appends

  /** The entry `sendTransaction` builds: fee by the fee rule, unconfirmed. */
  function SendEntry(from: string, to: string, amount: int, u: Uuid, now: real): LedgerTx {
    LedgerTx(TxIdFromUuid(u), from, to, amount, SendFee(amount), now, false)
  }

  /** The entry `creditFunds` builds: from the faucet, no fee, confirmed. */
  function FaucetEntry(to: string, amount: int, u: Uuid, now: real): LedgerTx {
    LedgerTx(TxIdFromUuid(u), FaucetAddress, to, amount, 0, now, true)
  }

  /** A send moves the amount to the recipient and charges the sender the
      amount plus the fee; every other address keeps its balance. Sending to
      oneself costs the fee alone. */
  lemma SendBalances(ledger: seq<LedgerTx>, from: string, to: string, amount: int, u: Uuid, now: real, other: string)
    requires other != from && other != to
    ensures var l := ledger + [SendEntry(from, to, amount, u, now)];
      && (from != to ==> Balance(l, from) == Balance(ledger, from) - amount - SendFee(amount))
      && (from != to ==> Balance(l, to) == Balance(ledger, to) + amount)
      && (from == to ==> Balance(l, from) == Balance(ledger, from) - SendFee(amount))
      && Balance(l, other) == Balance(ledger, other)
  {
    var e := SendEntry(from, to, amount, u, now);
    BalanceAppend(ledger, e, from);
    BalanceAppend(ledger, e, to);
    BalanceAppend(ledger, e, other);
  }

  /** A credit adds the amount to the recipient, takes it from the faucet and
      leaves every other address alone. */
  lemma CreditBalances(ledger: seq<LedgerTx>, to: string, amount: int, u: Uuid, now: real, other: string)
    requires to != FaucetAddress && other != to && other != FaucetAddress
    ensures var l := ledger + [FaucetEntry(to, amount, u, now)];
      && Balance(l, to) == Balance(ledger, to) + amount
      && Balance(l, FaucetAddress) == Balance(ledger, FaucetAddress) - amount
      && Balance(l, other) == Balance(ledger, other)
  {
    var e := FaucetEntry(to, amount, u, now);
    BalanceAppend(ledger, e, to);
    BalanceAppend(ledger, e, FaucetAddress);
    BalanceAppend(ledger, e, other);
  }

  /** Crediting "ew1" with 100000 on an empty ledger and then sending 30000
      to "ew2" leaves 69900 (the fee is the minimum 100) and 30000. */
  lemma CreditThenSend(u1: Uuid, u2: Uuid, t1: real, t2: real)
    ensures var l := [FaucetEntry("ew1", 100000, u1, t1), SendEntry("ew1", "ew2", 30000, u2, t2)];
      Balance(l, "ew1") == 69900 && Balance(l, "ew2") == 30000
  {
    var c := FaucetEntry("ew1", 100000, u1, t1);
    var s := SendEntry("ew1", "ew2", 30000, u2, t2);
    assert SendFee(30000) == 100;
    BalanceAppend([], c, "ew1");
    BalanceAppend([], c, "ew2");
    assert [c] + [s] == [c, s];
    BalanceAppend([c], s, "ew1");
    BalanceAppend([c], s, "ew2");
  }

  // ---------------------------------------------------------------------------
  // History

  predicate Touches(e: LedgerTx, address: string) {
    e.from == address || e.to == address
  }

  /** `ledger.filter { $0.from == address || $0.to == address }` */
  function Relevant(ledger: seq<LedgerTx>, address: string): (r: seq<LedgerTx>)
    ensures |r| <= |ledger|
  {
    if ledger == [] then []
    else
      var e := ledger[|ledger| - 1];
      Relevant(ledger[..|ledger| - 1], address) + (if Touches(e, address) then [e] else [])
  }

  /** The filter keeps every entry touching the address, as often as it
      occurs, and nothing else. */
  lemma {:induction false} RelevantContents(ledger: seq<LedgerTx>, address: string)
    ensures forall e :: multiset(Relevant(ledger, address))[e] == if Touches(e, address) then multiset(ledger)[e] else 0
  {
    if ledger != [] {
      var init := ledger[..|ledger| - 1];
      RelevantContents(init, address);
      assert ledger == init + [ledger[|ledger| - 1]];
    }
  }

  /** One entry as a history row, seen from `address`: sent iff it left the
      address (so a transfer to oneself is sent), the counterparty is the
      other end, one confirmation and confirmed iff the entry is. */
  function View(e: LedgerTx, address: string): (t: Transaction)
    ensures t.kind == Sent <==> e.from == address
    ensures t.address == if e.from == address then e.to else e.from
    ensures t.confirmations == (if e.confirmed then 1 else 0)
    ensures t.status == Confirmed <==> e.confirmed
    ensures t.status != Failed
    ensures t.id == e.id && t.amount == e.amount && t.fee == e.fee && t.timestamp == e.timestamp
  {
    var outgoing := e.from == address;
    Transaction(
      e.id, e.amount, e.fee, e.timestamp,
      if e.confirmed then 1 else 0,
      if outgoing then Sent else Received,
      if outgoing then e.to else e.from,
      if e.confirmed then Confirmed else Pending)
  }

  function ViewFrom(address: string): LedgerTx -> Transaction {
    e => View(e, address)
  }

  function Stamp(e: LedgerTx): real {
    e.timestamp
  }

  function TxStamp(t: Transaction): real {
    t.timestamp
  }

  /** `mapLedger`: the relevant entries, most recent first, as rows. */
  function MapLedger(ledger: seq<LedgerTx>, address: string): seq<Transaction> {
    MapSeq(ViewFrom(address), SortDesc(Relevant(ledger, address), Stamp))
  }

  /** The history holds exactly the rows of the entries touching the address,
      each once per occurrence. */
  lemma MapLedgerRows(ledger: seq<LedgerTx>, address: string)
    ensures multiset(MapLedger(ledger, address)) == multiset(MapSeq(ViewFrom(address), Relevant(ledger, address)))
    ensures |MapLedger(ledger, address)| == |Relevant(ledger, address)|
  {
    MapSortDesc(ViewFrom(address), Relevant(ledger, address), Stamp);
  }

  /** Every row is the view of an entry of the ledger that touches the
      address. */
  lemma MapLedgerFromLedger(ledger: seq<LedgerTx>, address: string)
    ensures forall i :: 0 <= i < |MapLedger(ledger, address)| ==>
      exists e :: e in ledger && Touches(e, address) && MapLedger(ledger, address)[i] == View(e, address)
  {
    var rel := Relevant(ledger, address);
    var sorted := SortDesc(rel, Stamp);
    var rows := MapLedger(ledger, address);
    SortDescPermutes(rel, Stamp);
    RelevantContents(ledger, address);
    forall i | 0 <= i < |rows|
      ensures exists e :: e in ledger && Touches(e, address) && rows[i] == View(e, address)
    {
      var e := sorted[i];
      assert e in multiset(sorted);
      assert multiset(rel)[e] > 0;
      assert rows[i] == View(e, address);
    }
  }

  /** The rows are newest first. */
  lemma MapLedgerOrdered(ledger: seq<LedgerTx>, address: string)
    ensures NonIncreasing(MapLedger(ledger, address), TxStamp)
  {
    var rel := Relevant(ledger, address);
    var sorted := SortDesc(rel, Stamp);
    var rows := MapLedger(ledger, address);
    SortDescSorted(rel, Stamp);
    forall i, j | 0 <= i < j < |rows| ensures TxStamp(rows[i]) >= TxStamp(rows[j]) {
      assert Stamp(sorted[i]) >= Stamp(sorted[j]);
    }
  }

  /** A row's contribution to a running balance: received adds the amount,
      sent takes the amount and the fee. */
  function Signed(t: Transaction): int {
    if t.kind == Received then t.amount else -(t.amount + t.fee)
  }

  function SignedSum(rows: seq<Transaction>): int {
    if rows == [] then 0 else Signed(rows[0]) + SignedSum(rows[1..])
  }

  lemma {:induction false} SignedSumConcat(a: seq<Transaction>, b: seq<Transaction>)
    ensures SignedSum(a + b) == SignedSum(a) + SignedSum(b)
  {
    if a == [] {
      assert a + b == b;
    } else {
      assert (a + b)[1..] == a[1..] + b;
      SignedSumConcat(a[1..], b);
    }
  }

  lemma {:induction false} SignedSumInsert(f: LedgerTx -> Transaction, x: LedgerTx, s: seq<LedgerTx>)
    ensures SignedSum(MapSeq(f, Insert(x, s, Stamp))) == Signed(f(x)) + SignedSum(MapSeq(f, s))
  {
    if s != [] && Stamp(x) < Stamp(s[0]) {
      SignedSumInsert(f, x, s[1..]);
      assert MapSeq(f, Insert(x, s, Stamp)) == [f(s[0])] + MapSeq(f, Insert(x, s[1..], Stamp));
      assert MapSeq(f, s) == [f(s[0])] + MapSeq(f, s[1..]);
    } else if s != [] {
      assert MapSeq(f, Insert(x, s, Stamp)) == [f(x)] + MapSeq(f, s);
    }
  }

  lemma {:induction false} SignedSumSort(f: LedgerTx -> Transaction, s: seq<LedgerTx>)
    ensures SignedSum(MapSeq(f, SortDesc(s, Stamp))) == SignedSum(MapSeq(f, s))
  {
    if s != [] {
      SignedSumSort(f, s[1..]);
      SignedSumInsert(f, s[0], SortDesc(s[1..], Stamp));
      assert MapSeq(f, s) == [f(s[0])] + MapSeq(f, s[1..]);
    }
  }

  /** The row of one entry that is not a self-transfer carries its effect. */
  lemma SignedSumStep(e: LedgerTx, address: string)
    requires !(e.from == address && e.to == address)
    ensures SignedSum(MapSeq(ViewFrom(address), if Touches(e, address) then [e] else [])) == Effect(e, address)
  {
    if Touches(e, address) {
      assert MapSeq(ViewFrom(address), [e]) == [View(e, address)];
      assert SignedSum([View(e, address)]) == Signed(View(e, address)) + SignedSum([]);
    }
  }

  lemma {:induction false} SignedSumRelevant(ledger: seq<LedgerTx>, address: string)
    requires forall i :: 0 <= i < |ledger| ==> !(ledger[i].from == address && ledger[i].to == address)
    ensures SignedSum(MapSeq(ViewFrom(address), Relevant(ledger, address))) == Balance(ledger, address)
  {
    if ledger != [] {
      var n := |ledger|;
      var init := ledger[..n - 1];
      var e := ledger[n - 1];
      var f := ViewFrom(address);
      assert forall i :: 0 <= i < |init| ==> init[i] == ledger[i];
      SignedSumRelevant(init, address);
      var tail := if Touches(e, address) then [e] else [];
      MapSeqConcat(f, Relevant(init, address), tail);
      SignedSumConcat(MapSeq(f, Relevant(init, address)), MapSeq(f, tail));
      SignedSumStep(e, address);
      assert init + [e] == ledger;
      BalanceAppend(init, e, address);
    }
  }

  /** Without transfers from an address to itself, the history's rows add up
      to the balance. A self-transfer is shown as sent (amount and fee) while
      the balance loses only its fee. */
  lemma HistoryMatchesBalance(ledger: seq<LedgerTx>, address: string)
    requires forall i :: 0 <= i < |ledger| ==> !(ledger[i].from == address && ledger[i].to == address)
    ensures SignedSum(MapLedger(ledger, address)) == Balance(ledger, address)
  {
    SignedSumSort(ViewFrom(address), Relevant(ledger, address));
    SignedSumRelevant(ledger, address);
  }
}
