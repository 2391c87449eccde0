/** The records the wallet exposes to its callers: the active wallet and the
    transaction view. Both are values; a change to a wallet's balance or label
    makes a new record in which the other fields are those of the old one. */
module Domain {
  import opened Bytes

  datatype TransactionType = Sent | Received

  datatype TransactionStatus = Pending | Confirmed | Failed

  /** One row of the history: `address` is the counterparty for ledger entries
      and the queried address for chain-index transactions. */
  datatype Transaction = Transaction(
    id: string,
    amount: int,
    fee: int,
    timestamp: real,
    confirmations: int,
    kind: TransactionType,
    address: string,
    status: TransactionStatus)

  /** `publicKey` holds the key bytes the coordinator derives; `labelText` is
      the `label` field (`label` is a keyword in Dafny). */
  datatype Wallet = Wallet(
    id: Uuid,
    address: string,
    publicKey: seq<Byte>,
    createdAt: real,
    balance: int,
    labelText: string)

  const DefaultLabel := "My Wallet"

  /** The initializer: a new wallet has balance zero and, unless told
      otherwise, the default label. `id` and `createdAt` are the fresh UUID and
      the clock reading the initializer takes. */
  function NewWallet(id: Uuid, address: string, publicKey: seq<Byte>, createdAt: real, labelText: string := DefaultLabel): (w: Wallet)
    ensures w.balance == 0
    ensures w.id == id && w.address == address && w.publicKey == publicKey && w.createdAt == createdAt
    ensures w.labelText == labelText
  {
    Wallet(id, address, publicKey, createdAt, 0, labelText)
  }

  /** The one field update the coordinator performs (`balance` is a `var`);
      the identity fields are `let` and stay as they were. */
  function WithBalance(w: Wallet, balance: int): (w': Wallet)
    ensures w'.balance == balance
    ensures w'.id == w.id && w'.address == w.address && w'.publicKey == w.publicKey && w'.createdAt == w.createdAt
    ensures w'.labelText == w.labelText
  {
    w.(balance := balance)
  }

}
