# ElectroWallet core, modelled in Dafny

ElectroWallet is a toy Bitcoin-testnet wallet. This project models its core
and proves properties of the model:

- **Key pipeline** (`CryptoService`). A BIP-39-style mnemonic from random
  entropy; the seed by PBKDF2; the simplified private and public keys and
  signature, which are SHA-256 digests; and a Base58 address with a version
  byte and a checksum.
- **Ledger engine** (`BitcoinService`). Three modes:
  - `.local`: an append-only log kept on the device;
  - `.remote`: the same log behind a ledger server;
  - `.off`: read-only balances and histories from the public chain index.

  The balance rule is incoming minus outgoing-plus-fees. The fee rule is
  `max(100, amount / 1000)`. Transaction ids are built from a UUID, and
  `mapLedger` turns the log into one address's history.
- **Coordinator** (`WalletManager`). It creates and restores wallets,
  sends, credits, refreshes and deletes, over a keychain and a stored
  wallet record.
- **Browser twin** (`pwa/app.js`). The same ledger rules in JavaScript,
  with the page state and its `localStorage` entries.
- **Ledger server** (`ledger-server.js`). One validation rule and an
  in-memory log.
- **Domain records** (`Wallet.swift`).

## How things are modelled

State the source updates in place becomes a `class`:

- `LedgerService.BitcoinService`: the ledger mode and the stored
  `ledger_v1` entry.
- `Coordinator.WalletManager`: the published fields, the keychain as two
  maps keyed by address, and the saved wallet record.
- `Pwa.PwaApp`: the page `state` and the three `localStorage` entries.
- `RemoteLedger.LedgerServer`: the log.

Its methods state the whole new state. Pure computations are functions,
with lemmas relating them. Loops in the source are methods with loop
invariants, each proved equal to a specification function:

- the bit packing, the 11-bit chunk loop and the index loop of
  `entropyToMnemonic`;
- the digit loop and the leading-zero loop of `base58Encode`.

Everything outside the program's own logic is a parameter:

- SHA-256 and PBKDF2 (module `Primitives`, giving only the output lengths
  the code relies on);
- the word list, random bytes, UUIDs and clock readings;
- every HTTP response or POST outcome, and the decoded `UserDefaults` and
  `localStorage` entries.

Numbers are modelled as follows:

- Swift `Int64` amounts are `int`.
- Swift's truncating `/` is written out (`Ledger.SwiftDiv`).
- `UInt64` wrap-around in `base58Encode` is written out (`Base58.Fold64`).
- JavaScript numbers and Swift `TimeInterval` are `real`.

The model follows the code on these points, where a reader might expect
otherwise:

- In `.off` mode, sending and crediting throw `insufficientFunds`.
- In remote mode, a non-2xx response is thrown; only an undecodable body
  becomes the empty ledger.
- `validateMnemonic` splits on single spaces.
- In `.off` mode, a history row's `address` is the queried address.
- `Wallet.publicKey` is declared `String`
  (ElectroWallet/Models/Wallet.swift:13), but the coordinator passes the
  derived key bytes. The model keeps bytes.

## Model

| member | source | states |
|---|---|---|
| Mnemonic.Split | ElectroWallet/Services/CryptoService.swift:36 | splitting on single spaces yields at least one piece |
| Mnemonic.SplitCount | ElectroWallet/Services/CryptoService.swift:36 | the number of pieces is the number of spaces plus one |
| Mnemonic.ValidateMnemonic | ElectroWallet/Services/CryptoService.swift:35-38 | true exactly when the phrase holds 11 or 23 single spaces (12 or 24 pieces); words and checksum are not checked |
| Mnemonic.SplitJoin | ElectroWallet/Services/CryptoService.swift:71 | splitting a joined phrase whose words hold no space gives the words back |
| Mnemonic.ByteBits | ElectroWallet/Services/CryptoService.swift:42-44 | each byte gives 8 bits |
| Mnemonic.ByteBitsValue | ElectroWallet/Services/CryptoService.swift:42-44 | the 8 bits, most significant first, spell the byte back |
| Mnemonic.BytesBits | ElectroWallet/Services/CryptoService.swift:42-44 | the flattened bits are 8 per byte |
| Mnemonic.BytesBitsAt | ElectroWallet/Services/CryptoService.swift:42-44 | bit 8i+k of the flattened string is bit k of byte i |
| Mnemonic.Prefix | ElectroWallet/Services/CryptoService.swift:53 | `prefix(k)` keeps min(k, n) elements, unchanged |
| Mnemonic.EntropyBitsLayout | ElectroWallet/Services/CryptoService.swift:42-53 | the packed bits are the entropy's bits followed by the first entropy.count/4 bits of its hash, with the length that implies |
| Mnemonic.ChecksumBits | ElectroWallet/Services/CryptoService.swift:46-53 | the checksum is the first entropy.count/4 bits of the hash (at most its 256), bit for bit |
| Mnemonic.EntropyBits | ElectroWallet/Services/CryptoService.swift:42-53 | the bits before the word loop, laid out as EntropyBitsLayout states |
| Mnemonic.PackBits | ElectroWallet/Services/CryptoService.swift:42-53 | the bits the method builds are exactly that layout |
| Mnemonic.BitsValueBound | ElectroWallet/Services/CryptoService.swift:60-66 | a chunk of n bits has a value below 2^n, so a full 11-bit chunk indexes a 2048-word list |
| Mnemonic.ChunkIndex | ElectroWallet/Services/CryptoService.swift:60-65 | the or-of-shifts loop computes the chunk's big-endian value |
| Mnemonic.WordsFromStep | ElectroWallet/Services/CryptoService.swift:57-69 | one stride: the chunk's word (if its value is in range), then the words of the rest |
| Mnemonic.WordsFrom | ElectroWallet/Services/CryptoService.swift:56-69 | every word comes from the word list, at most one per 11-bit stride, none past the end of the bits |
| Mnemonic.ChunkWords | ElectroWallet/Services/CryptoService.swift:57-69 | the stride loop produces the word sequence of the specification, short last chunk and out-of-range values included |
| Mnemonic.WordsFromFull | ElectroWallet/Services/CryptoService.swift:57-69 | when the bits fill whole chunks, there is one word per chunk and word k is the list entry chunk k names |
| Mnemonic.MnemonicShape | ElectroWallet/Services/CryptoService.swift:40-72 | 16 or 32 bytes of entropy give 132 or 264 bits and exactly 12 or 24 words, joined by single spaces |
| Mnemonic.MnemonicValidates | ElectroWallet/Services/CryptoService.swift:40-72 | such a phrase passes `validateMnemonic` when no listed word holds a space |
| Mnemonic.EntropyToMnemonic | ElectroWallet/Services/CryptoService.swift:40-72 | the phrase is the joined words of the packed entropy and checksum bits |
| Mnemonic.GenerateMnemonic | ElectroWallet/Services/CryptoService.swift:19-33 | a failed random draw throws randomGenerationFailed; otherwise the phrase is the mnemonic of the drawn bytes, valid with strength*3/32 words for a full 128- or 256-bit draw |
| Mnemonic.MnemonicOf | ElectroWallet/Services/CryptoService.swift:40-72 | the phrase `entropyToMnemonic` returns: the joined words of the 11-bit chunks of entropy and checksum bits; its shape is MnemonicShape and MnemonicValidates |
| KeyDerivation.DerivationPathUtf8 | ElectroWallet/ViewModels/WalletManager.swift:50 | the path m/84'/1'/0'/0/0 is encoded as its 15 ASCII bytes |
| KeyDerivation.SeedSalt | ElectroWallet/Services/CryptoService.swift:78 | the salt is the UTF-8 bytes of "mnemonic" followed by the passphrase's bytes |
| KeyDerivation.SaltInjective | ElectroWallet/Services/CryptoService.swift:78 | different passphrases give different salts |
| KeyDerivation.MnemonicToSeed | ElectroWallet/Services/CryptoService.swift:76-81 | PBKDF2 over the phrase's bytes, 2048 iterations, 64 bytes; the seed is 64 bytes; a primitive failure is keyDerivationFailed, and only then |
| KeyDerivation.DistinctPathsNeedCollision | ElectroWallet/Services/CryptoService.swift:83-89 | from one seed, two paths give one private key only through a SHA-256 collision |
| KeyDerivation.DistinctSeedsNeedCollision | ElectroWallet/Services/CryptoService.swift:83-89 | two seeds of equal length give one private key on one path only through a collision |
| KeyDerivation.DistinctKeysNeedCollision | ElectroWallet/Services/CryptoService.swift:91-95 | two private keys share a public key only through a collision |
| KeyDerivation.DistinctMessagesNeedCollision | ElectroWallet/Services/CryptoService.swift:121-125 | under one key, two messages share a signature only through a collision |
| KeyDerivation.DistinctSignersNeedCollision | ElectroWallet/Services/CryptoService.swift:121-125 | one message under two keys of equal length gives one signature only through a collision |
| KeyDerivation.DerivePrivateKey | ElectroWallet/Services/CryptoService.swift:83-89 | the private key is SHA-256 of the seed followed by the path's UTF-8 bytes; only a collision lets two paths or two equal-length seeds share it (DistinctPathsNeedCollision, DistinctSeedsNeedCollision) |
| KeyDerivation.DerivePublicKey | ElectroWallet/Services/CryptoService.swift:91-95 | the public key is SHA-256 of the private key; only a collision lets two keys share it (DistinctKeysNeedCollision) |
| KeyDerivation.SignTransaction | ElectroWallet/Services/CryptoService.swift:121-125 | the signature is SHA-256 of the data followed by the key; only a collision lets two messages or two signers share it (DistinctMessagesNeedCollision, DistinctSignersNeedCollision) |
| Utf8.EncodeChar | ElectroWallet/Services/CryptoService.swift:77 | one to four bytes per scalar value, one exactly for ASCII |
| Utf8.DecodeEncode | ElectroWallet/Services/CryptoService.swift:77 | decoding the UTF-8 bytes gives the string back |
| Utf8.EncodeInjective | ElectroWallet/Services/CryptoService.swift:77 | different strings have different bytes |
| Utf8.EncodeConcat | ElectroWallet/Services/CryptoService.swift:78 | the encoding of a concatenation is the concatenation of the encodings |
| Utf8.EncodeAscii | ElectroWallet/Services/CryptoService.swift:85 | ASCII text is one byte per character, its code |
| Address.Checksum | ElectroWallet/Services/CryptoService.swift:112-113 | the checksum is 4 bytes |
| Address.AddressPayload | ElectroWallet/Services/CryptoService.swift:104-113 | the version byte, the first 20 bytes of SHA-256 of the key and the checksum; its layout is PayloadLayout |
| Address.PayloadLayout | ElectroWallet/Services/CryptoService.swift:104-113 | the payload is 25 bytes: the version (0x6F testnet, 0x00 mainnet), the first 20 hash bytes of the key, then the checksum of those 21 |
| Address.BuildPayload | ElectroWallet/Services/CryptoService.swift:104-113 | the imperative payload construction yields that payload |
| Address.PublicKeyToAddress | ElectroWallet/Services/CryptoService.swift:99-117 | the address is the as-written `base58Encode` of the payload |
| Address.TestnetAddressShape | ElectroWallet/Services/CryptoService.swift:99-117 | as written, a testnet address has no leading '1', at most 11 alphabet characters, and is the base-58 form of the payload's last 8 bytes |
| Address.MainnetAddressLeadingOne | ElectroWallet/Services/CryptoService.swift:108 | a mainnet address starts with '1' because of the zero version byte |
| Address.TestnetAddressOnlyTail | ElectroWallet/Services/CryptoService.swift:158 | as written, two keys whose payloads agree in their last 8 bytes get the same address |
| Address.PublicKeyToFullAddress | ElectroWallet/Services/CryptoService.swift:99-117 | with the corrected encoder, the address is the full Base58 form of the payload |
| Address.FullAddressDecodes | ElectroWallet/Services/CryptoService.swift:99-117 | a full address decodes to its payload, with a valid checksum, the version byte and the key's hash bytes |
| Address.FullAddressDistinct | ElectroWallet/Services/CryptoService.swift:99-117 | keys with different truncated hashes get different full addresses |
| Base58.AlphabetDigits | ElectroWallet/Services/CryptoService.swift:157 | the alphabet has 58 characters, digit d at position d |
| Base58.AlphabetIncreasing | ElectroWallet/Services/CryptoService.swift:157 | the alphabet is strictly increasing, so no character repeats |
| Base58.DigitValueOf | ElectroWallet/Services/CryptoService.swift:157 | the digit lookup finds exactly the alphabet's characters, at their positions |
| Base58.Fold64Value | ElectroWallet/Services/CryptoService.swift:158 | the `UInt64` fold is the big-endian value of the bytes modulo 2^64 |
| Base58.Fold64 | ElectroWallet/Services/CryptoService.swift:158 | the `UInt64` reduce stays below 2^64; Fold64Value gives its value |
| Base58.Fold64LastEight | ElectroWallet/Services/CryptoService.swift:158 | of 8 or more bytes, only the last 8 reach the digit loop |
| Base58.Fold64Short | ElectroWallet/Services/CryptoService.swift:158 | up to 8 bytes are folded exactly |
| Base58.Digits58 | ElectroWallet/Services/CryptoService.swift:161-165 | the digit string is empty exactly for 0 |
| Base58.Value58Digits | ElectroWallet/Services/CryptoService.swift:161-165 | reading the digits back in base 58 gives the number |
| Base58.DigitsInAlphabet | ElectroWallet/Services/CryptoService.swift:161-165 | every digit is an alphabet character |
| Base58.DigitsNoLeadingOne | ElectroWallet/Services/CryptoService.swift:161-165 | the digits of a positive number do not start with '1' |
| Base58.DigitsLength64 | ElectroWallet/Services/CryptoService.swift:158-165 | a 64-bit value has at most 11 digits |
| Base58.DigitLoop | ElectroWallet/Services/CryptoService.swift:161-165 | the divide-and-prepend loop produces the digits of its input |
| Base58.LeadingZeroSplit | ElectroWallet/Services/CryptoService.swift:168-174 | the input is its leading zero bytes followed by a part that starts with a nonzero byte |
| Base58.PrependOnes | ElectroWallet/Services/CryptoService.swift:168-174 | the leading-zero loop prepends one '1' per leading zero byte and stops at the first nonzero one |
| Base58.Base58Encode | ElectroWallet/Services/CryptoService.swift:156-177 | the method yields one '1' per leading zero byte, then the digits of the 64-bit fold |
| Base58.EncodeAsWritten | ElectroWallet/Services/CryptoService.swift:156-177 | the as-written output: one '1' per leading zero byte, then the digits of the 64-bit fold; its properties are the EncodeAsWritten lemmas |
| Base58.EncodeAsWrittenAlphabet | ElectroWallet/Services/CryptoService.swift:156-177 | the output uses only the alphabet |
| Base58.EncodeAsWrittenLeadingOnes | ElectroWallet/Services/CryptoService.swift:168-174 | the number of leading '1's is the number of leading zero bytes |
| Base58.EncodeAsWrittenDigits | ElectroWallet/Services/CryptoService.swift:158-165 | the digit part is at most 11 characters, empty exactly when the fold is 0 |
| Base58.EncodeAsWrittenLastEight | ElectroWallet/Services/CryptoService.swift:158 | inputs with equal leading zero counts and the same last 8 bytes encode alike |
| Base58.EncodeAsWrittenCollides | ElectroWallet/Services/CryptoService.swift:158 | two different 9-byte inputs both encode to the empty string |
| Base58.FoldFull | ElectroWallet/Services/CryptoService.swift:158 | the corrected fold on an unbounded integer computes the big-endian value |
| Base58.Base58EncodeFull | ElectroWallet/Services/CryptoService.swift:156-177 | the corrected encoder yields the leading '1's and the digits of the whole value |
| Base58.DecodeEncodeFull | ElectroWallet/Services/CryptoService.swift:156-177 | decoding undoes the corrected encoder |
| Base58.EncodeFullInjective | ElectroWallet/Services/CryptoService.swift:156-177 | different inputs have different corrected encodings |
| Base58.EncodersAgreeShort | ElectroWallet/Services/CryptoService.swift:158 | up to 8 bytes the two encoders agree |
| Bytes.HexRoundTrip | pwa/app.js:38 | two hex digits per byte decode back to the bytes |
| Bytes.HexBytesLower | pwa/app.js:38 | lower-case hex text holds only lower-case hex digits |
| Text.Lower | ElectroWallet/Services/BitcoinService.swift:89 | lower-casing keeps the length and maps each character |
| Text.Remove | ElectroWallet/Services/BitcoinService.swift:89 | removing a character leaves none of it and never lengthens |
| Text.PadTo | ElectroWallet/Services/BitcoinService.swift:89 | padding gives exactly n characters: the text, cut or filled with the pad |
| Text.HexBytesLowered | ElectroWallet/Services/BitcoinService.swift:89 | lower-casing upper-case hex text gives the lower-case hex text |
| Ledger.BalanceAppend | ElectroWallet/Services/BitcoinService.swift:34-36 | appending an entry changes each balance by that entry's effect alone |
| Ledger.Balance | ElectroWallet/Services/BitcoinService.swift:34-36 | incoming amounts less outgoing amounts and fees; additive per entry (BalanceAppend) and conserved (Conservation) |
| Ledger.Incoming | ElectroWallet/Services/BitcoinService.swift:34 | the incoming sum; 0 when no entry pays the address |
| Ledger.Outgoing | ElectroWallet/Services/BitcoinService.swift:35 | the outgoing sum of amounts and fees; 0 when no entry pays from the address |
| Ledger.BalanceUntouched | ElectroWallet/Services/BitcoinService.swift:34-36 | an address no entry names has balance 0 |
| Ledger.Conservation | ElectroWallet/Services/BitcoinService.swift:34-36 | over distinct addresses naming both ends of every entry, the balances add up to minus the fees paid |
| Ledger.SendFee | ElectroWallet/Services/BitcoinService.swift:92 | the fee is at least 100 and at least amount/1000 (truncated), and is one of the two |
| Ledger.SwiftDiv | ElectroWallet/Services/BitcoinService.swift:92 | Swift's integer `/`: the remainder a - q*d has the sign of a and is smaller than d in size, so the quotient truncates toward zero |
| Ledger.SendFeeThreshold | ElectroWallet/Services/BitcoinService.swift:92 | below 100000 the fee is 100; from 100000 on it is amount/1000 |
| Ledger.RemoveDashes | ElectroWallet/Services/BitcoinService.swift:89 | removing the dashes of a UUID string leaves its 32 upper-case hex digits |
| Ledger.TxIdShape | ElectroWallet/Services/BitcoinService.swift:89 | a transaction id is 64 characters: the UUID's 32 lower-case hex digits, then 32 '0's |
| Ledger.TxIdInjective | ElectroWallet/Services/BitcoinService.swift:89 | different UUIDs give different ids |
| Ledger.TxIdFromUuid | ElectroWallet/Services/BitcoinService.swift:89 | the id built from a UUID string; its shape is TxIdShape and it is injective (TxIdInjective) |
| Ledger.SendEntry | ElectroWallet/Services/BitcoinService.swift:89-94 | the entry `sendTransaction` logs: the fee rule's fee, unconfirmed; its effect on balances is SendBalances |
| Ledger.FaucetEntry | ElectroWallet/Services/BitcoinService.swift:116-121 | the entry `creditFunds` logs: from the faucet, no fee, confirmed; its effect is CreditBalances |
| Ledger.SendBalances | ElectroWallet/Services/BitcoinService.swift:89-94 | a send takes amount plus fee from the sender and gives the amount to the recipient; a self-send costs the fee; others are unchanged |
| Ledger.CreditBalances | ElectroWallet/Services/BitcoinService.swift:116-121 | a credit adds the amount to the recipient and takes it from the faucet; others are unchanged |
| Ledger.CreditThenSend | ElectroWallet/Services/BitcoinService.swift:84-121 | a 100000 credit then a 30000 send leaves the balances 69900 and 30000 |
| Ledger.Relevant | ElectroWallet/Services/BitcoinService.swift:187 | the filter never lengthens the ledger |
| Ledger.RelevantContents | ElectroWallet/Services/BitcoinService.swift:187 | the filter keeps each entry touching the address as often as it occurs, and nothing else |
| Ledger.View | ElectroWallet/Services/BitcoinService.swift:189-201 | a row is sent exactly when the entry leaves the address; the counterparty is the other end; 1 confirmation and confirmed exactly when the entry is; other fields are copied |
| Ledger.MapLedger | ElectroWallet/Services/BitcoinService.swift:186-203 | the relevant entries, newest first, as rows; its contents are MapLedgerRows and MapLedgerFromLedger, its order MapLedgerOrdered |
| Ledger.MapLedgerRows | ElectroWallet/Services/BitcoinService.swift:186-203 | the history holds exactly the rows of the relevant entries, as a multiset |
| Ledger.MapLedgerFromLedger | ElectroWallet/Services/BitcoinService.swift:186-203 | every row is the view of a ledger entry touching the address |
| Ledger.MapLedgerOrdered | ElectroWallet/Services/BitcoinService.swift:188 | the rows are newest first |
| Ledger.HistoryMatchesBalance | ElectroWallet/Services/BitcoinService.swift:186-203 | without self-transfers, the rows' signed amounts add up to the balance |
| Sorting.SortDescPermutes | ElectroWallet/Services/BitcoinService.swift:188 | the sort returns a permutation of its input |
| Sorting.SortDesc | ElectroWallet/Services/BitcoinService.swift:188 | the sort keeps the length; SortDescPermutes, SortDescSorted and SortDescOfSorted give a stable descending permutation |
| Sorting.SortDescSorted | ElectroWallet/Services/BitcoinService.swift:188 | the sorted keys never increase |
| Sorting.SortDescOfSorted | pwa/app.js:75 | input already newest first comes back unchanged, so ties keep their order |
| Sorting.MapSortCommutes | pwa/app.js:75 | converting then sorting equals sorting then converting, when the conversion keeps the key |
| ChainIndex.IndexBalanceIgnoresMempool | ElectroWallet/Services/BitcoinService.swift:46 | unconfirmed statistics never enter the balance |
| ChainIndex.IndexBalance | ElectroWallet/Services/BitcoinService.swift:46 | confirmed funded minus spent; the mempool is ignored (IndexBalanceIgnoresMempool) |
| ChainIndex.IndexViewSpec | ElectroWallet/Services/BitcoinService.swift:63-77 | received exactly when the net is non-negative, the amount its magnitude, the queried address, confirmations at least 1 (the block height when positive) when confirmed and 0 otherwise |
| ChainIndex.IndexView | ElectroWallet/Services/BitcoinService.swift:63-77 | one index record as a row, whose fields IndexViewSpec states |
| ChainIndex.PaidToOthers | ElectroWallet/Services/BitcoinService.swift:64 | outputs paying other addresses contribute nothing |
| ChainIndex.PaidTo | ElectroWallet/Services/BitcoinService.swift:64 | the received sum; 0 when no output pays the address |
| ChainIndex.SpentFrom | ElectroWallet/Services/BitcoinService.swift:65 | the sent sum; 0 when no input spends a prevout of the address or has none |
| ChainIndex.Confirmations | ElectroWallet/Services/BitcoinService.swift:73 | 0 exactly when unconfirmed; otherwise at least 1 and at least the block height |
| ChainIndex.PaidToConcat | ElectroWallet/Services/BitcoinService.swift:64 | the received sum is additive over outputs |
| ChainIndex.SpentFromConcat | ElectroWallet/Services/BitcoinService.swift:65 | the sent sum is additive over inputs |
| ChainIndex.MapIndex | ElectroWallet/Services/BitcoinService.swift:63-78 | one row per index record, in the index's order |
| LedgerService.FetchRemoteLedger | ElectroWallet/Services/BitcoinService.swift:144-148 | a failed fetch is a network error; an undecodable body is the empty ledger |
| LedgerService.FetchDecoded | ElectroWallet/Services/BitcoinService.swift:44-45 | a failed fetch is a network error; a body that does not decode is a decoding error |
| LedgerService.BitcoinService.constructor | ElectroWallet/Services/BitcoinService.swift:21 | the service starts in local mode |
| LedgerService.BitcoinService.LoadLedger | ElectroWallet/Services/BitcoinService.swift:175-178 | the stored entries, or none when absent or undecodable |
| LedgerService.BitcoinService.SetLedgerMode | ElectroWallet/Services/BitcoinService.swift:21 | only the mode changes |
| LedgerService.BitcoinService.GetBalance | ElectroWallet/Services/BitcoinService.swift:30-48 | local and remote use the ledger rule on the stored or fetched log; off uses funded minus spent; only transport and decoding failures |
| LedgerService.BitcoinService.GetTransactions | ElectroWallet/Services/BitcoinService.swift:51-80 | local and remote use `mapLedger`; off maps the index records in order; only transport and decoding failures |
| LedgerService.BitcoinService.SendTransaction | ElectroWallet/Services/BitcoinService.swift:83-108 | a non-positive amount or off mode throws insufficientFunds and changes nothing; locally exactly one entry is appended; remotely that entry is posted and a refusal is a network error |
| LedgerService.BitcoinService.CreditFunds | ElectroWallet/Services/BitcoinService.swift:112-132 | the same for a fee-free, confirmed entry from the faucet |
| Domain.NewWallet | ElectroWallet/Models/Wallet.swift:18-24 | a new wallet has balance 0, the default label unless given, and the given identity fields |
| Domain.WithBalance | ElectroWallet/ViewModels/WalletManager.swift:128 | a balance update changes the balance only |
| Js.Or | ledger-server.js:26 | `a \|\| b` is a when a is truthy, else b |
| Js.OrTruthy | ledger-server.js:26 | `a \|\| b` is truthy exactly when one operand is |
| Js.FalsyValues | ledger-server.js:23 | the falsy values are undefined, null, false, 0 and "" |
| RemoteLedger.Stored | ledger-server.js:26 | an entry keeps id, from, to, amount and fee; the timestamp is the given one if truthy, else the clock in seconds; confirmed is coerced |
| RemoteLedger.LedgerServer.constructor | ledger-server.js:13 | the log starts empty |
| RemoteLedger.LedgerServer.GetLedger | ledger-server.js:16-18 | GET answers with the whole log |
| RemoteLedger.LedgerServer.PostTx | ledger-server.js:21-28 | an invalid payload is 400 and stores nothing; a valid one is 200 and appends exactly its entry |
| RemoteLedger.LedgerServer.Reset | ledger-server.js:31-34 | reset empties the log |
| RemoteLedger.EmptyBodyRefused | ledger-server.js:22-25 | a request without a body is refused |
| RemoteLedger.Valid | ledger-server.js:22-25 | the 400 check; EmptyBodyRefused, RefusedPayloads and NonPositiveAmountsAccepted state what it refuses and what it lets through |
| RemoteLedger.RefusedPayloads | ledger-server.js:23 | a falsy id or recipient is refused, so is an amount or fee sent as a string (numeric or not); a valid payload stays valid with an amount of any sign |
| RemoteLedger.NonPositiveAmountsAccepted | ledger-server.js:23 | zero and negative amounts and fees pass the check |
| RemoteLedger.TimestampDefault | ledger-server.js:26 | a 0 timestamp is replaced by the clock; a non-zero one is kept |
| Pwa.ComputeBalanceAppend | pwa/app.js:66-70 | appending an entry changes each balance by its effect alone |
| Pwa.ComputeBalance | pwa/app.js:66-70 | incoming less outgoing and fees; additive per entry (ComputeBalanceAppend) and equal to the Swift balance (BalanceMatchesSwift) |
| Pwa.Incoming | pwa/app.js:67 | the incoming sum; 0 when no entry pays the address |
| Pwa.Outgoing | pwa/app.js:68 | the outgoing sum of amounts and fees; 0 when no entry pays from the address |
| Pwa.RelevantContents | pwa/app.js:74 | the filter keeps each touching entry as often as it occurs, and nothing else |
| Pwa.Relevant | pwa/app.js:74 | the filter never lengthens the ledger; RelevantContents gives its contents |
| Pwa.RowOf | pwa/app.js:76-86 | Sent exactly when the entry leaves the address; the counterparty is the other end; confirmed is the truthiness of the stored flag |
| Pwa.MapLedgerRows | pwa/app.js:72-88 | the rows are exactly those of the relevant entries, as a multiset |
| Pwa.MapLedger | pwa/app.js:72-88 | the relevant entries, newest first, as rows; equal to the Swift history (HistoryMatchesSwift) |
| Pwa.MapLedgerFromLedger | pwa/app.js:72-88 | every row comes from a ledger entry touching the address |
| Pwa.MapLedgerOrdered | pwa/app.js:75 | the rows are newest first |
| Pwa.MapLedgerStable | pwa/app.js:75 | relevant entries already newest first are shown in ledger order |
| Pwa.RandomHex | pwa/app.js:36-39 | two lower-case hex digits per random byte; the text decodes back to the bytes |
| Pwa.DefaultFeeSpec | pwa/app.js:157 | the default fee is the larger of 100 and floor(amount/1000) |
| Pwa.DefaultFee | pwa/app.js:157 | `Math.max(100, Math.floor(amount / 1000))`; bounds in DefaultFeeSpec, equal to the Swift fee on integers (DefaultFeeMatchesSwift) |
| Pwa.DefaultFeeMatchesSwift | pwa/app.js:157 | on whole amounts, the browser's fee equals the Swift fee, negative amounts included |
| Pwa.BuildTx | pwa/app.js:154-159 | a 64-digit id from the 32 random bytes; the clock in whole seconds; the given or default fee; the given amount and confirmed flag |
| Pwa.BalanceMatchesSwift | pwa/app.js:66-70 | on the same entries, the browser's balance equals the Swift balance |
| Pwa.RelevantMatchesSwift | pwa/app.js:74 | on the same entries, the two filters agree |
| Pwa.RowMatchesSwift | pwa/app.js:76-86 | one entry's browser row is its Swift row |
| Pwa.HistoryMatchesSwift | pwa/app.js:72-88 | on the same entries, the two histories agree row for row, in order |
| Pwa.DefaultAddress | pwa/app.js:45 | a fresh wallet name is "ew-" followed by 20 lower-case hex digits |
| Pwa.PwaApp.constructor | pwa/app.js:1-6 | the initial state is no wallet, local mode, no URL and an empty ledger |
| Pwa.PwaApp.LoadState | pwa/app.js:41-52 | the stored wallet or a fresh name, saved back; the stored ledger or none; URL and mode only from a record with a URL, the mode defaulting to local |
| Pwa.PwaApp.AddLocalTx | pwa/app.js:149-152 | exactly one entry is appended and the ledger saved |
| Pwa.PwaApp.SelectMode | pwa/app.js:195-197 | the mode is taken and the record saved |
| Pwa.PwaApp.SaveRemote | pwa/app.js:202-206 | the URL is taken, the mode becomes remote and the record is saved |
| Pwa.PwaApp.LedgerShown | pwa/app.js:132-141 | local mode shows the local ledger; otherwise it is an error without a URL, an error for a response that is not ok, else the fetched ledger |
| Pwa.PwaApp.Refresh | pwa/app.js:132-147 | the screen shows the balance and the rows of the ledger shown, with the row count |
| Pwa.PwaApp.HandleSend | pwa/app.js:161-171 | no recipient or a non-positive amount is refused with nothing changed; local mode appends the built entry; remote mode posts it, refused without a URL or when the post is rejected |
| Pwa.PwaApp.HandleCredit | pwa/app.js:173-183 | the same for a confirmed, fee-free entry from the faucet |
| Pwa.PwaApp.SubmitTx | pwa/app.js:164-169 | locally append; otherwise report a missing URL or the post's outcome |
| Pwa.LocalSendShownBalance | pwa/app.js:161-165 | after a local send to another address, the sender's balance drops by the amount and the default fee |
| Pwa.CreditShownBalance | pwa/app.js:173-177 | a credit raises the wallet's balance by exactly its amount |
| Coordinator.DeriveKeys | ElectroWallet/ViewModels/WalletManager.swift:49-52 | derivation fails exactly when PBKDF2 does, with keyDerivationFailed; the keys are 32 bytes; the address is the as-written `publicKeyToAddress` (64-bit `base58Encode`) of the testnet payload of the public key |
| Coordinator.ChoosePhrase | ElectroWallet/ViewModels/WalletManager.swift:41-46 | the supplied phrase, or the mnemonic of the drawn entropy, or randomGenerationFailed |
| Coordinator.PhraseFor | ElectroWallet/ViewModels/WalletManager.swift:41-46 | fails, with randomGenerationFailed, exactly when no phrase is supplied and no entropy is drawn; a supplied phrase is used verbatim |
| Coordinator.CreationFor | ElectroWallet/ViewModels/WalletManager.swift:41-52 | a success holds the phrase PhraseFor gives and the keys DeriveKeys derives from it; the only other failure is keyDerivationFailed |
| Coordinator.Derive | ElectroWallet/ViewModels/WalletManager.swift:49-52 | the seed, key and `publicKeyToAddress` steps, in order, compute that key material |
| Coordinator.Create | ElectroWallet/ViewModels/WalletManager.swift:41-52 | phrase then keys, failing at the first failure |
| Coordinator.CreationPhrase | ElectroWallet/ViewModels/WalletManager.swift:41-49 | a supplied phrase is used verbatim; a generated one is the mnemonic of the entropy; the stored keys are the phrase's derivation |
| Coordinator.ConsistentStore | ElectroWallet/ViewModels/WalletManager.swift:55-56 | storing a phrase and its key under the address it derives keeps the keychain consistent |
| Coordinator.ConsistentRemove | ElectroWallet/ViewModels/WalletManager.swift:178-179 | removing an address from both maps keeps the keychain consistent |
| Coordinator.CreateKeepsConsistent | ElectroWallet/ViewModels/WalletManager.swift:37-66 | what `createWallet` stores keeps every phrase deriving the address and key it is stored under |
| Coordinator.DerivedAddressShape | ElectroWallet/ViewModels/WalletManager.swift:52 | a derived address is at most 11 alphabet characters with no leading '1': the base-58 digits of the last 8 bytes of the key's testnet payload |
| Coordinator.SharedTailOverwrites | ElectroWallet/ViewModels/WalletManager.swift:52-56 | two phrases whose payloads share their last 8 bytes get one address, and storing the second after the first leaves only the second's key and phrase under it |
| Coordinator.WalletManager.constructor | ElectroWallet/ViewModels/WalletManager.swift:14-17 | no current wallet, empty history, not loading, no error |
| Coordinator.WalletManager.HasWallet | ElectroWallet/ViewModels/WalletManager.swift:25-27 | true exactly when there is a current wallet |
| Coordinator.WalletManager.Initialize | ElectroWallet/ViewModels/WalletManager.swift:165-173 | a stored record becomes the current wallet; otherwise nothing changes. The refresh `loadWallet` spawns in a `Task` is a separate RefreshWalletData call |
| Coordinator.WalletManager.CreateWallet | ElectroWallet/ViewModels/WalletManager.swift:37-66 | a failure is thrown with nothing stored; on success the key and phrase go under the derived address and the new wallet is current and saved; not loading afterwards |
| Coordinator.WalletManager.Finish | ElectroWallet/ViewModels/WalletManager.swift:55-65 | the end of creation: a failure changes nothing, a success installs |
| Coordinator.WalletManager.Install | ElectroWallet/ViewModels/WalletManager.swift:55-63 | key and phrase stored under the address; the new wallet current and saved |
| Coordinator.WalletManager.RestoreWallet | ElectroWallet/ViewModels/WalletManager.swift:68-70 | creation with the phrase supplied, unvalidated |
| Coordinator.WalletManager.RefreshWalletData | ElectroWallet/ViewModels/WalletManager.swift:121-142 | the new state is the refresh of the old one against the responses |
| Coordinator.WalletManager.SendBitcoin | ElectroWallet/ViewModels/WalletManager.swift:74-119 | no wallet or no key is an error with nothing changed; otherwise the service's outcome; on success the wallet state is the refresh of the state before the send against the ledger as it now stands, for the sending wallet's address; the keychain is unchanged |
| Coordinator.WalletManager.AddFunds | ElectroWallet/ViewModels/WalletManager.swift:145-155 | no wallet changes nothing; a refused credit lands in errorMessage; after an accepted one the wallet state is the refresh of the state before the credit against the ledger as it now stands |
| Coordinator.WalletManager.DeleteWallet | ElectroWallet/ViewModels/WalletManager.swift:175-187 | no wallet changes nothing; otherwise key and phrase under its address and the saved record are removed, and wallet and history cleared |
| Coordinator.RefreshKeepsIdentity | ElectroWallet/ViewModels/WalletManager.swift:128 | a refresh keeps the wallet's id, address, key, creation time and label |
| Coordinator.RefreshEffect | ElectroWallet/ViewModels/WalletManager.swift:121-142 | the balance is written before the history; the history is replaced only when both calls succeed; the first failure is reported |
| Coordinator.Refreshed | ElectroWallet/ViewModels/WalletManager.swift:121-142 | the state after a refresh against the two answers; its order of writes is RefreshEffect, its idempotence RefreshIdempotent |
| Coordinator.RefreshIdempotent | ElectroWallet/ViewModels/WalletManager.swift:121-142 | refreshing twice against the same answers is refreshing once |
| Coordinator.LocalSendShownBalance | ElectroWallet/ViewModels/WalletManager.swift:88-116 | after a local send to another address and its refresh, the shown balance is the old one less the amount and the fee |
| Coordinator.LocalRefreshConsistent | ElectroWallet/ViewModels/WalletManager.swift:126-135 | in local mode without self-transfers, the shown history adds up to the shown balance |

## Left out

- Networking is not modelled: `URLSession`, `fetch`, URL building and express
  routing. Each response, status and POST outcome is a parameter. Latency
  (`Task.sleep`), `async`/`await` and the main-actor hops are not
  modelled: every call runs to completion before the next.
- Persistence is not modelled: `UserDefaults`, `localStorage` and JSON
  encoding and decoding. A stored entry is its decoded value, or None when it
  is absent or does not decode. A failed `saveLedger`/`saveWallet`
  encoding (silently skipped in the source) is not modelled.
- The keychain is two maps. Its own errors (a throwing save, get or delete)
  are not modelled, because that service is not part of this model.
- SHA-256, PBKDF2 (HMAC-SHA512), secp256k1 and the BIP-39 word list are
  parameters, given only their output lengths. Nothing about their security
  is claimed. The collision lemmas state what follows from a collision-free
  hash.
- Mnemonic.GenerateMnemonic takes a random buffer of any length. Its
  validity promise is stated only for a full 16- or 32-byte draw.
- Coordinator.WalletManager.CreateWallet, Finish, Install and RestoreWallet
  do not carry the consistency invariant of the keychain in their ensures.
  It is proved separately, for what they store, by CreateKeepsConsistent
  and ConsistentRemove.
- Error text: `errorMessage` holds the error itself, not its
  `localizedDescription`. The PWA's status line, `setStatus`, `render`
  and the DOM writes of `renderLedger` are left out; the model keeps the
  screen's balance, rows and count.
- Floating point is not modelled: `balanceInBTC`, `amountInBTC` and
  `feeInBTC`. JavaScript numbers are exact reals, so NaN, the infinities
  and rounding are left out, and so are `Number(...)` of text and
  `toLocaleString`.
- JavaScript values: PWA ledger entries are assumed to have string
  addresses and numeric amounts, fees and timestamps. The stored wallet is
  its address. A remote ledger whose JSON is not such a list is not
  modelled, and neither is `res.json()` throwing.
- Sorting: Swift's `sorted` is not guaranteed stable; both sorts are
  modelled by one stable insertion sort. Order among entries with equal
  timestamps is therefore exact for JavaScript only.
- In `sendBitcoin`, the optimistic pending row for `.off` mode is not
  modelled, because `sendTransaction` always throws in that mode.
  Coordinator.WalletManager.SendBitcoin's ensures states that in that mode
  the send fails with the state unchanged.
- Pwa.PwaApp.HandleSend, HandleCredit and Refresh require a loaded wallet,
  as every handler runs after `loadState`.
- `Int64` overflow traps are not modelled: amounts, fees and sums are
  unbounded integers.
- `UTXO` (ElectroWallet/Models/Wallet.swift:61-68) is declared but used by
  no core operation.
- String equality: Swift's `String ==` is Unicode canonical equivalence,
  while the model compares scalar sequences, as JavaScript's `===` compares
  code units. Addresses that are canonically equivalent but not identical
  (a U+212A KELVIN SIGN for "K", say) match in Swift but not in the model, so
  Ledger.Balance, Ledger.MapLedger and ChainIndex.IndexView follow Swift only
  on addresses without such pairs, and Pwa.BalanceMatchesSwift and
  Pwa.HistoryMatchesSwift compare the two programs only on those inputs.
- The clipboard button and the views are not modelled.

## Findings

| source | as written | input that shows it | evidently intended | confidence | as-written member | corrected member |
|---|---|---|---|---|---|---|
| ElectroWallet/Services/CryptoService.swift:158 | `data.reduce(0) { $0 << 8 \| UInt64($1) }` folds into a `UInt64`, whose `<<` drops the bits shifted out, so only the last 8 bytes reach the digit loop and every 25-byte address payload maps to at most 11 digits | `[1,0,0,0,0,0,0,0,0]` and `[2,0,0,0,0,0,0,0,0]` both encode to the empty string; two keys whose payloads share their last 8 bytes get one address, and the second `createWallet` stores its key and phrase over the first's | Base58 of the big-endian value of all the bytes, which a decoder can undo | not executed | Base58.EncodeAsWrittenCollides | Base58.DecodeEncodeFull |

The coordinator keeps the as-written encoder, since that is what
`createWallet` and `restoreWallet` run (Coordinator.DerivedAddressShape,
Coordinator.SharedTailOverwrites); the corrected encoder stands beside it as
Base58.Base58EncodeFull and Address.PublicKeyToFullAddress.
