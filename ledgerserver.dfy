/** ledger-server.js: an in-memory ledger behind `GET /ledger`,
    `POST /tx` and `POST /reset`. A request body is its already-parsed JSON
    fields; the server's clock reading (`Date.now()`, in milliseconds) is a
    parameter. */
module RemoteLedger {
  import opened Js

  /** The fields `POST /tx` destructures from the body. A missing body reads
      as `{}`, every field undefined. */
  datatype Payload = Payload(
    id: JsValue,
    from: JsValue,
    to: JsValue,
    amount: JsValue,
    fee: JsValue,
    timestamp: JsValue,
    confirmed: JsValue)

  const EmptyBody := Payload(Undefined, Undefined, Undefined, Undefined, Undefined, Undefined, Undefined)

  /** One stored entry: the amount and fee were checked to be numbers and
      `confirmed` is coerced to a boolean; the other fields are kept as sent. */
  datatype Entry = Entry(
    id: JsValue,
    from: JsValue,
    to: JsValue,
    amount: real,
    fee: real,
    timestamp: JsValue,
    confirmed: bool)

  const BadRequest := 400
  const Ok := 200

  /** The only check: id, from and to truthy, amount and fee of type number.
      The sign of the amount is not looked at. */
  predicate Valid(p: Payload) {
    Truthy(p.id) && Truthy(p.from) && Truthy(p.to) && p.amount.Num? && p.fee.Num?
  }

  /** The entry a valid payload is stored as at clock reading `nowMs`. */
  function Stored(p: Payload, nowMs: real): (e: Entry)
    requires Valid(p)
    ensures e.id == p.id && e.from == p.from && e.to == p.to
    ensures e.amount == p.amount.n && e.fee == p.fee.n
    ensures Truthy(p.timestamp) ==> e.timestamp == p.timestamp
    ensures !Truthy(p.timestamp) ==> e.timestamp == Num(nowMs / 1000.0)
    ensures e.confirmed <==> Truthy(p.confirmed)
  {
    Entry(p.id, p.from, p.to, p.amount.n, p.fee.n, Or(p.timestamp, Num(nowMs / 1000.0)), Truthy(p.confirmed))
  }

  class LedgerServer {
    /** `let ledger = []`, in arrival order. */
    var ledger: seq<Entry>

    constructor()
      ensures ledger == []
    {
      ledger := [];
    }

    /** `GET /ledger` answers with the whole log, in arrival order. */
    function GetLedger(): (l: seq<Entry>)
      reads this
      ensures l == ledger
    {
      ledger
    }

    /** `POST /tx`: 400 and nothing stored for an invalid payload; otherwise
        200 and exactly one entry appended. */
    method PostTx(body: Payload, nowMs: real) returns (status: int)
      modifies this
      ensures !Valid(body) ==> status == BadRequest && ledger == old(ledger)
      ensures Valid(body) ==> status == Ok && ledger == old(ledger) + [Stored(body, nowMs)]
    {
      if !Truthy(body.id) || !Truthy(body.from) || !Truthy(body.to) || !body.amount.Num? || !body.fee.Num? {
        return BadRequest;
      }
      ledger := ledger + [Stored(body, nowMs)];
      status := Ok;
    }

    /** `POST /reset` empties the log. */
    method Reset()
      modifies this
      ensures ledger == []
    {
      ledger := [];
    }
  }

  /** A request without a body is refused. */
  lemma EmptyBodyRefused()
    ensures !Valid(EmptyBody)
  {
  }

  /** What `POST /tx` refuses: any of the five falsy values as id, sender
      or recipient, and an amount or fee sent as a string, even a numeric
      one such as "100". A number of any sign passes. */
  lemma RefusedPayloads(p: Payload)
    ensures p.id in {Undefined, Null, Bool(false), Num(0.0), Str("")} ==> !Valid(p)
    ensures p.from in {Undefined, Null, Bool(false), Num(0.0), Str("")} ==> !Valid(p)
    ensures p.to in {Undefined, Null, Bool(false), Num(0.0), Str("")} ==> !Valid(p)
    ensures p.amount.Str? || p.fee.Str? ==> !Valid(p)
    ensures Valid(p) ==> forall a: real :: Valid(p.(amount := Num(a)))
  {
  }

  /** Zero and negative amounts and fees pass the check. */
  lemma NonPositiveAmountsAccepted(id: string, from: string, to: string, amount: real, fee: real)
    requires id != "" && from != "" && to != ""
    ensures Valid(Payload(Str(id), Str(from), Str(to), Num(amount), Num(fee), Undefined, Undefined))
  {
  }

  /** A timestamp of 0 is falsy and is replaced by the server's clock in
      seconds; a non-zero one is kept. */
  lemma TimestampDefault(p: Payload, nowMs: real, t: real)
    requires Valid(p)
    ensures p.timestamp == Num(0.0) ==> Stored(p, nowMs).timestamp == Num(nowMs / 1000.0)
    ensures p.timestamp == Num(t) && t != 0.0 ==> Stored(p, nowMs).timestamp == Num(t)
  {
  }
}
