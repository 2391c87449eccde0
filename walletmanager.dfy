/** `WalletManager`: the state the screens observe (the current wallet, its
    history, the loading flag and the last error) and the operations that
    change it. The keychain is two maps keyed by address, one for private
    keys and one for recovery phrases; the `currentWallet` entry of
    `UserDefaults` is `savedWallet`. The random bytes, UUIDs and clock
    readings each call takes, and the responses of the network calls it
    makes, are parameters. Every call runs to completion before the next
    begins. */
module Coordinator {
  import opened Wrappers
  import opened Bytes
  import opened Errors
  import opened Domain
  import opened Primitives
  import opened Mnemonic
  import opened KeyDerivation
  import opened Base58
  import opened Address
  import opened Ledger
  import opened ChainIndex
  import opened LedgerService

  /** The keys and address `createWallet` derives from a phrase. */
  datatype KeyMaterial = KeyMaterial(privateKey: seq<Byte>, publicKey: seq<Byte>, address: string)

  /** The phrase `createWallet` works from, with the keys derived from it. */
  datatype Creation = Creation(phrase: string, keys: KeyMaterial)

  /** The fields a refresh reads and writes. */
  datatype Snapshot = Snapshot(
    currentWallet: Option<Wallet>,
    transactions: seq<Transaction>,
    errorMessage: Option<Error>,
    savedWallet: Option<Wallet>)

  /** The responses of the four GETs one refresh may make, in order: the
      ledger read for the balance and the address record (one of the two,
      by mode), then the ledger read for the history and the address's
      records. */
  datatype Responses = Responses(
    balanceLedger: Fetched<seq<LedgerTx>>,
    addressInfo: Fetched<AddressInfo>,
    historyLedger: Fetched<seq<LedgerTx>>,
    addressTxs: Fetched<seq<AddressTransaction>>)

  /** `mnemonicToSeed` with the empty passphrase, then the private key for the
      fixed path, its public key, and the testnet address `publicKeyToAddress`
      gives that key, through the 64-bit `base58Encode`. */
  function DeriveKeys(phrase: string, pbkdf2: Pbkdf2, sha: Sha256): (r: Result<KeyMaterial, CryptoError>)
    ensures r.Failure? <==> MnemonicToSeed(phrase, "", pbkdf2).Failure?
    ensures r.Failure? ==> r.error == KeyDerivationFailed
    ensures r.Success? ==> |r.value.privateKey| == 32 && |r.value.publicKey| == 32
    ensures r.Success? ==> r.value.address == EncodeAsWritten(AddressPayload(r.value.publicKey, true, sha))
  {
    match MnemonicToSeed(phrase, "", pbkdf2)
    case Failure(e) => Failure(e)
    case Success(seed) =>
      var privateKey := DerivePrivateKey(seed, DerivationPath, sha);
      var publicKey := DerivePublicKey(privateKey, sha);
      Success(KeyMaterial(privateKey, publicKey, EncodeAsWritten(AddressPayload(publicKey, true, sha))))
  }

  /** The phrase `createWallet` works from: the one supplied, or the
      mnemonic of the entropy drawn at the default strength. */
  function PhraseFor(mnemonic: Option<string>, random: Option<seq<Byte>>, sha: Sha256, wordList: WordList): (r: Result<string, CryptoError>)
    ensures r.Failure? <==> mnemonic.None? && random.None?
    ensures r.Failure? ==> r.error == RandomGenerationFailed
    ensures mnemonic.Some? ==> r.Success? && r.value == mnemonic.value
  {
    match mnemonic
    case Some(m) => Success(m)
    case None =>
      match random
      case None => Failure(RandomGenerationFailed)
      case Some(entropy) => Success(MnemonicOf(entropy, sha, wordList))
  }

  /** The phrase, then the keys derived from it. */
  function CreationFor(mnemonic: Option<string>, random: Option<seq<Byte>>, pbkdf2: Pbkdf2, sha: Sha256, wordList: WordList): (r: Result<Creation, CryptoError>)
    ensures r.Success? ==> PhraseFor(mnemonic, random, sha, wordList) == Success(r.value.phrase)
    ensures r.Success? ==> DeriveKeys(r.value.phrase, pbkdf2, sha) == Success(r.value.keys)
    ensures r.Failure? && r.error != RandomGenerationFailed ==> r.error == KeyDerivationFailed
  {
    match PhraseFor(mnemonic, random, sha, wordList)
    case Failure(e) => Failure(e)
    case Success(p) =>
      match DeriveKeys(p, pbkdf2, sha)
      case Failure(e) => Failure(e)
      case Success(keys) => Success(Creation(p, keys))
  }

  /** The phrase step of `createWallet`: the supplied phrase, or a freshly
      generated one. */
  method ChoosePhrase(mnemonic: Option<string>, random: Option<seq<Byte>>, sha: Sha256, wordList: WordList)
    returns (phrase: Result<string, CryptoError>)
    ensures phrase == PhraseFor(mnemonic, random, sha, wordList)
  {
    if mnemonic.Some? {
      phrase := Success(mnemonic.value);
    } else {
      phrase := GenerateMnemonic(DefaultStrength, random, sha, wordList);
    }
  }

  /** The steps of `createWallet` before anything is stored: the phrase,
      then the keys derived from it. */
  method Create(mnemonic: Option<string>, random: Option<seq<Byte>>, pbkdf2: Pbkdf2, sha: Sha256, wordList: WordList)
    returns (c: Result<Creation, CryptoError>)
    ensures c == CreationFor(mnemonic, random, pbkdf2, sha, wordList)
  {
    var phrase := ChoosePhrase(mnemonic, random, sha, wordList);
    if phrase.Failure? {
      return Failure(phrase.error);
    }
    var keys := Derive(phrase.value, pbkdf2, sha);
    if keys.Failure? {
      return Failure(keys.error);
    }
    c := Success(Creation(phrase.value, keys.value));
  }

  /** The derivation steps of `createWallet`, in order. */
  method Derive(phrase: string, pbkdf2: Pbkdf2, sha: Sha256) returns (r: Result<KeyMaterial, CryptoError>)
    ensures r == DeriveKeys(phrase, pbkdf2, sha)
  {
    var seed := MnemonicToSeed(phrase, "", pbkdf2);
    if seed.Failure? {
      return Failure(seed.error);
    }
    var privateKey := DerivePrivateKey(seed.value, DerivationPath, sha);
    var publicKey := DerivePublicKey(privateKey, sha);
    var address := PublicKeyToAddress(publicKey, true, sha);
    r := Success(KeyMaterial(privateKey, publicKey, address));
  }

  /** `refreshWalletData` given the outcomes of its two service calls: the
      balance is written (and the wallet saved) before the history is
      asked for, so a failing history keeps the new balance; either failure
      lands in `errorMessage`, which a success never clears. */
  function Refreshed(s: Snapshot, balance: Result<int, Error>, history: Result<seq<Transaction>, Error>): Snapshot {
    if s.currentWallet.None? then s
    else match balance
      case Failure(e) => s.(errorMessage := Some(e))
      case Success(b) =>
        var w := Some(WithBalance(s.currentWallet.value, b));
        var s' := s.(currentWallet := w, savedWallet := w);
        match history
        case Failure(e) => s'.(errorMessage := Some(e))
        case Success(rows) => s'.(transactions := rows)
  }

  /** The phrase derives exactly this address and this private key. */
  predicate Derives(phrase: string, address: string, privateKey: seq<Byte>, pbkdf2: Pbkdf2, sha: Sha256) {
    var d := DeriveKeys(phrase, pbkdf2, sha);
    d.Success? && d.value.address == address && d.value.privateKey == privateKey
  }

  /** Under every address the keychain holds both a key and a phrase, and
      the phrase derives exactly that address and that key. */
  predicate Consistent(privateKeys: map<string, seq<Byte>>, mnemonics: map<string, string>, pbkdf2: Pbkdf2, sha: Sha256) {
    && privateKeys.Keys == mnemonics.Keys
    && forall a :: a in mnemonics ==> Derives(mnemonics[a], a, privateKeys[a], pbkdf2, sha)
  }

  /** Storing a phrase with the key and under the address it derives keeps
      the keychain consistent. */
  lemma ConsistentStore(privateKeys: map<string, seq<Byte>>, mnemonics: map<string, string>, pbkdf2: Pbkdf2, sha: Sha256,
                        phrase: string, k: KeyMaterial)
    requires Consistent(privateKeys, mnemonics, pbkdf2, sha)
    requires DeriveKeys(phrase, pbkdf2, sha) == Success(k)
    ensures Consistent(privateKeys[k.address := k.privateKey], mnemonics[k.address := phrase], pbkdf2, sha)
  {
    var keys', phrases' := privateKeys[k.address := k.privateKey], mnemonics[k.address := phrase];
    assert keys'.Keys == phrases'.Keys;
    forall a | a in phrases'
      ensures Derives(phrases'[a], a, keys'[a], pbkdf2, sha)
    {
      StoreAt(privateKeys, mnemonics, pbkdf2, sha, phrase, k, a);
    }
  }

  lemma StoreAt(privateKeys: map<string, seq<Byte>>, mnemonics: map<string, string>, pbkdf2: Pbkdf2, sha: Sha256,
                phrase: string, k: KeyMaterial, a: string)
    requires Consistent(privateKeys, mnemonics, pbkdf2, sha)
    requires DeriveKeys(phrase, pbkdf2, sha) == Success(k)
    requires a in mnemonics || a == k.address
    ensures Derives(mnemonics[k.address := phrase][a], a, privateKeys[k.address := k.privateKey][a], pbkdf2, sha)
  {
    if a != k.address {
      assert Derives(mnemonics[a], a, privateKeys[a], pbkdf2, sha);
    }
  }

  /** Removing an address from both maps keeps the keychain consistent. */
  lemma ConsistentRemove(privateKeys: map<string, seq<Byte>>, mnemonics: map<string, string>, pbkdf2: Pbkdf2, sha: Sha256, address: string)
    requires Consistent(privateKeys, mnemonics, pbkdf2, sha)
    ensures Consistent(privateKeys - {address}, mnemonics - {address}, pbkdf2, sha)
  {
    var keys', phrases' := privateKeys - {address}, mnemonics - {address};
    assert keys'.Keys == mnemonics.Keys - {address} == phrases'.Keys;
    forall a | a in phrases'
      ensures Derives(phrases'[a], a, keys'[a], pbkdf2, sha)
    {
      assert phrases'[a] == mnemonics[a] && keys'[a] == privateKeys[a];
    }
  }

  /** What `createWallet` (and so `restoreWallet`) stores keeps the keychain
      consistent: the phrase and key go under the address the phrase
      derives. */
  lemma CreateKeepsConsistent(privateKeys: map<string, seq<Byte>>, mnemonics: map<string, string>,
                              mnemonic: Option<string>, random: Option<seq<Byte>>, pbkdf2: Pbkdf2, sha: Sha256, wordList: WordList)
    requires Consistent(privateKeys, mnemonics, pbkdf2, sha)
    requires CreationFor(mnemonic, random, pbkdf2, sha, wordList).Success?
    ensures var c := CreationFor(mnemonic, random, pbkdf2, sha, wordList).value;
      Consistent(privateKeys[c.keys.address := c.keys.privateKey], mnemonics[c.keys.address := c.phrase], pbkdf2, sha)
  {
    var c := CreationFor(mnemonic, random, pbkdf2, sha, wordList).value;
    CreationPhrase(mnemonic, random, pbkdf2, sha, wordList);
    ConsistentStore(privateKeys, mnemonics, pbkdf2, sha, c.phrase, c.keys);
  }

  class WalletManager {
    var currentWallet: Option<Wallet>
    var transactions: seq<Transaction>
    var isLoading: bool
    var errorMessage: Option<Error>
    /** The keychain: private keys and recovery phrases by address. */
    var privateKeys: map<string, seq<Byte>>
    var mnemonics: map<string, string>
    /** The stored wallet record: None when absent or undecodable. */
    var savedWallet: Option<Wallet>

    const service: BitcoinService
    const sha: Sha256
    const pbkdf2: Pbkdf2
    const wordList: WordList

    /** The shared instance starts with no wallet in memory over whatever
        the keychain and the stored record hold. */
    constructor(service: BitcoinService, sha: Sha256, pbkdf2: Pbkdf2, wordList: WordList,
                privateKeys: map<string, seq<Byte>>, mnemonics: map<string, string>, savedWallet: Option<Wallet>)
      ensures this.service == service && this.sha == sha && this.pbkdf2 == pbkdf2 && this.wordList == wordList
      ensures currentWallet == None && transactions == [] && !isLoading && errorMessage == None
      ensures this.privateKeys == privateKeys && this.mnemonics == mnemonics && this.savedWallet == savedWallet
    {
      this.service := service;
      this.sha := sha;
      this.pbkdf2 := pbkdf2;
      this.wordList := wordList;
      currentWallet := None;
      transactions := [];
      isLoading := false;
      errorMessage := None;
      this.privateKeys := privateKeys;
      this.mnemonics := mnemonics;
      this.savedWallet := savedWallet;
    }

    function State(): Snapshot
      reads this
    {
      Snapshot(currentWallet, transactions, errorMessage, savedWallet)
    }

    /** `hasWallet` */
    function HasWallet(): (b: bool)
      reads this
      ensures b <==> currentWallet != None
    {
      currentWallet.Some?
    }

    /** The refresh this state and the given responses lead to. */
    function RefreshOutcome(net: Responses): Snapshot
      reads this, service
    {
      match currentWallet
      case None => State()
      case Some(w) =>
        Refreshed(State(),
          service.GetBalance(w.address, net.balanceLedger, net.addressInfo),
          service.GetTransactions(w.address, net.historyLedger, net.addressTxs))
    }

    /** `initialize` (`loadWallet`): a stored record becomes the current
        wallet; without one nothing changes. The refresh it spawns is a
        separate `RefreshWalletData` call. */
    method Initialize()
      modifies this
      ensures currentWallet == (if old(savedWallet).Some? then old(savedWallet) else old(currentWallet))
      ensures transactions == old(transactions) && errorMessage == old(errorMessage) && isLoading == old(isLoading)
      ensures savedWallet == old(savedWallet) && privateKeys == old(privateKeys) && mnemonics == old(mnemonics)
    {
      if savedWallet.Some? {
        currentWallet := savedWallet;
      }
    }

    /** `createWallet`: the key and phrase are stored under the derived
        address and a new wallet with that address becomes current and is
        saved. A failure to generate or derive is thrown before anything is
        stored. `random` is what the random source gave for the 16 bytes
        requested (the model takes a buffer of any length), or None when it
        failed; `walletId` and `now` are the new wallet's UUID and clock
        reading. */
    method CreateWallet(mnemonic: Option<string>, random: Option<seq<Byte>>, walletId: Uuid, now: real)
      returns (r: Result<Wallet, Error>)
      modifies this
      ensures !isLoading
      ensures transactions == old(transactions) && errorMessage == old(errorMessage)
      ensures var c := CreationFor(mnemonic, random, pbkdf2, sha, wordList);
        && (c.Failure? ==>
              && r == Failure(Crypto(c.error))
              && currentWallet == old(currentWallet) && savedWallet == old(savedWallet)
              && privateKeys == old(privateKeys) && mnemonics == old(mnemonics))
        && (c.Success? ==>
              var k := c.value.keys;
              && r == Success(NewWallet(walletId, k.address, k.publicKey, now))
              && currentWallet == Some(r.value) && savedWallet == Some(r.value)
              && privateKeys == old(privateKeys)[k.address := k.privateKey]
              && mnemonics == old(mnemonics)[k.address := c.value.phrase])
    {
      isLoading := true;
      var c := Create(mnemonic, random, pbkdf2, sha, wordList);
      r := Finish(c, walletId, now);
      isLoading := false;
    }

    /** The end of `createWallet` once the phrase and keys are known: a
        failure is thrown with nothing stored, a success installed. */
    method Finish(c: Result<Creation, CryptoError>, walletId: Uuid, now: real) returns (r: Result<Wallet, Error>)
      modifies this
      ensures transactions == old(transactions) && errorMessage == old(errorMessage) && isLoading == old(isLoading)
      ensures c.Failure? ==>
        && r == Failure(Crypto(c.error))
        && currentWallet == old(currentWallet) && savedWallet == old(savedWallet)
        && privateKeys == old(privateKeys) && mnemonics == old(mnemonics)
      ensures c.Success? ==>
        var k := c.value.keys;
        && r == Success(NewWallet(walletId, k.address, k.publicKey, now))
        && currentWallet == Some(r.value) && savedWallet == Some(r.value)
        && privateKeys == old(privateKeys)[k.address := k.privateKey]
        && mnemonics == old(mnemonics)[k.address := c.value.phrase]
    {
      if c.Failure? {
        return Failure(Crypto(c.error));
      }
      r := Install(c.value.phrase, c.value.keys, walletId, now);
    }

    /** The storing half of `createWallet`: key and phrase into the keychain
        under the address, the new wallet current and saved. */
    method Install(phrase: string, k: KeyMaterial, walletId: Uuid, now: real) returns (r: Result<Wallet, Error>)
      modifies this
      ensures r == Success(NewWallet(walletId, k.address, k.publicKey, now))
      ensures currentWallet == Some(r.value) && savedWallet == Some(r.value)
      ensures privateKeys == old(privateKeys)[k.address := k.privateKey]
      ensures mnemonics == old(mnemonics)[k.address := phrase]
      ensures transactions == old(transactions) && errorMessage == old(errorMessage) && isLoading == old(isLoading)
    {
      privateKeys := privateKeys[k.address := k.privateKey];
      mnemonics := mnemonics[k.address := phrase];
      var wallet := NewWallet(walletId, k.address, k.publicKey, now);
      currentWallet := Some(wallet);
      savedWallet := Some(wallet);
      r := Success(wallet);
    }

    /** `restoreWallet` is `createWallet` with the phrase supplied; the phrase
        is not validated first. */
    method RestoreWallet(mnemonic: string, walletId: Uuid, now: real) returns (r: Result<Wallet, Error>)
      modifies this
      ensures !isLoading
      ensures transactions == old(transactions) && errorMessage == old(errorMessage)
      ensures var d := DeriveKeys(mnemonic, pbkdf2, sha);
        && (d.Failure? ==>
              && r == Failure(Crypto(KeyDerivationFailed))
              && currentWallet == old(currentWallet) && savedWallet == old(savedWallet)
              && privateKeys == old(privateKeys) && mnemonics == old(mnemonics))
        && (d.Success? ==>
              && r == Success(NewWallet(walletId, d.value.address, d.value.publicKey, now))
              && currentWallet == Some(r.value) && savedWallet == Some(r.value)
              && privateKeys == old(privateKeys)[d.value.address := d.value.privateKey]
              && mnemonics == old(mnemonics)[d.value.address := mnemonic])
    {
      r := CreateWallet(Some(mnemonic), None, walletId, now);
    }

    /** `refreshWalletData`: see `Refreshed`. */
    method RefreshWalletData(net: Responses)
      modifies this
      ensures State() == old(RefreshOutcome(net))
      ensures isLoading == old(isLoading) && privateKeys == old(privateKeys) && mnemonics == old(mnemonics)
    {
      if currentWallet.None? {
        return;
      }
      var wallet := currentWallet.value;
      var balance := service.GetBalance(wallet.address, net.balanceLedger, net.addressInfo);
      if balance.Failure? {
        errorMessage := Some(balance.error);
        return;
      }
      currentWallet := Some(WithBalance(currentWallet.value, balance.value));
      savedWallet := currentWallet;
      var fetched := service.GetTransactions(wallet.address, net.historyLedger, net.addressTxs);
      if fetched.Failure? {
        errorMessage := Some(fetched.error);
        return;
      }
      transactions := fetched.value;
    }

    /** `sendBitcoin`: without a wallet nothing happens; without a key for
        its address the ledger is not touched; otherwise the service's
        outcome is returned and, on success, followed by a refresh. The
        optimistic pending row for the read-only mode is never reached,
        since that mode refuses every send. */
    method SendBitcoin(to: string, amount: int, u: Uuid, now: real, postAccepted: bool, net: Responses)
      returns (r: Result<string, Error>)
      modifies this, service
      ensures old(currentWallet).None? ==>
        r == Failure(Error.Wallet(NoWallet)) && unchanged(this) && unchanged(service)
      ensures old(currentWallet).Some? ==> !isLoading
      ensures privateKeys == old(privateKeys) && mnemonics == old(mnemonics)
      ensures service.ledgerMode == old(service.ledgerMode)
      ensures old(currentWallet).Some? && old(currentWallet).value.address !in old(privateKeys) ==>
        && r == Failure(Error.Wallet(PrivateKeyNotFound))
        && unchanged(service) && State() == old(State())
      ensures old(currentWallet).Some? && old(currentWallet).value.address in old(privateKeys) ==>
        var from := old(currentWallet).value.address;
        && (amount <= 0 || old(service.ledgerMode).Off? ==>
              && r == Failure(Error.Wallet(InsufficientFunds))
              && service.storedLedger == old(service.storedLedger) && State() == old(State()))
        && (amount > 0 && old(service.ledgerMode).Local? ==>
              && r == Success(TxIdFromUuid(u))
              && service.storedLedger == Some(old(service.LoadLedger()) + [SendEntry(from, to, amount, u, now)]))
        && (amount > 0 && old(service.ledgerMode).Remote? ==>
              && service.storedLedger == old(service.storedLedger)
              && r == (if postAccepted then Success(TxIdFromUuid(u)) else Failure(Network)))
        && (r.Failure? ==> State() == old(State()))
        && (r.Success? ==> State() == Refreshed(old(State()),
              service.GetBalance(from, net.balanceLedger, net.addressInfo),
              service.GetTransactions(from, net.historyLedger, net.addressTxs)))
    {
      if currentWallet.None? {
        return Failure(Error.Wallet(NoWallet));
      }
      var wallet := currentWallet.value;
      isLoading := true;
      if wallet.address !in privateKeys {
        isLoading := false;
        return Failure(Error.Wallet(PrivateKeyNotFound));
      }
      var privateKey := privateKeys[wallet.address];
      var posted;
      r, posted := service.SendTransaction(wallet.address, to, amount, privateKey, u, now, postAccepted);
      if r.Failure? {
        isLoading := false;
        return;
      }
      if service.ledgerMode.Off? {
        assert false;
      }
      isLoading := false;
      RefreshWalletData(net);
    }

    /** `addFunds`: without a wallet nothing happens; a refused credit is
        reported in `errorMessage`, not thrown; an accepted one is followed
        by a refresh. */
    method AddFunds(amount: int, u: Uuid, now: real, postAccepted: bool, net: Responses)
      modifies this, service
      ensures old(currentWallet).None? ==> unchanged(this) && unchanged(service)
      ensures isLoading == old(isLoading) && privateKeys == old(privateKeys) && mnemonics == old(mnemonics)
      ensures service.ledgerMode == old(service.ledgerMode)
      ensures old(currentWallet).Some? ==>
        var to := old(currentWallet).value.address;
        && (amount <= 0 || old(service.ledgerMode).Off? ==>
              && service.storedLedger == old(service.storedLedger)
              && State() == old(State()).(errorMessage := Some(Error.Wallet(InsufficientFunds))))
        && (amount > 0 && old(service.ledgerMode).Local? ==>
              && service.storedLedger == Some(old(service.LoadLedger()) + [FaucetEntry(to, amount, u, now)])
              && State() == Refreshed(old(State()),
                   service.GetBalance(to, net.balanceLedger, net.addressInfo),
                   service.GetTransactions(to, net.historyLedger, net.addressTxs)))
        && (amount > 0 && old(service.ledgerMode).Remote? ==>
              && service.storedLedger == old(service.storedLedger)
              && State() == (if postAccepted
                             then Refreshed(old(State()),
                               service.GetBalance(to, net.balanceLedger, net.addressInfo),
                               service.GetTransactions(to, net.historyLedger, net.addressTxs))
                             else old(State()).(errorMessage := Some(Network))))
    {
      if currentWallet.None? {
        return;
      }
      var wallet := currentWallet.value;
      var credited, posted := service.CreditFunds(wallet.address, amount, u, now, postAccepted);
      if credited.Failure? {
        errorMessage := Some(credited.error);
        return;
      }
      RefreshWalletData(net);
    }

    /** `deleteWallet`: without a wallet nothing happens; otherwise the key
        and phrase stored under its address and the saved record are
        removed, and the wallet and its history cleared. */
    method DeleteWallet()
      modifies this
      ensures old(currentWallet).None? ==> unchanged(this)
      ensures old(currentWallet).Some? ==>
        var a := old(currentWallet).value.address;
        && privateKeys == old(privateKeys) - {a} && mnemonics == old(mnemonics) - {a}
        && savedWallet == None && currentWallet == None && transactions == []
        && errorMessage == old(errorMessage) && isLoading == old(isLoading)
    {
      if currentWallet.None? {
        return;
      }
      var address := currentWallet.value.address;
      privateKeys := privateKeys - {address};
      mnemonics := mnemonics - {address};
      savedWallet := None;
      currentWallet := None;
      transactions := [];
    }
  }

  // ---------------------------------------------------------------------------
  // Properties of the refresh and of derivation

  /** A refresh touches the wallet's balance only: its id, address, key,
      creation time and label stay, and "having a wallet" does not change. */
  lemma RefreshKeepsIdentity(s: Snapshot, balance: Result<int, Error>, history: Result<seq<Transaction>, Error>)
    ensures var t := Refreshed(s, balance, history);
      && (t.currentWallet.Some? <==> s.currentWallet.Some?)
      && (s.currentWallet.Some? ==>
            var (w, w') := (s.currentWallet.value, t.currentWallet.value);
            && w'.id == w.id && w'.address == w.address && w'.publicKey == w.publicKey
            && w'.createdAt == w.createdAt && w'.labelText == w.labelText)
  {
  }

  /** Writes of a refresh: with a wallet and a balance the balance is stored
      and saved; the history replaces the old one wholesale only when both
      calls succeed; the first failure is the error reported. Without a
      wallet nothing changes. */
  lemma RefreshEffect(s: Snapshot, balance: Result<int, Error>, history: Result<seq<Transaction>, Error>)
    ensures var t := Refreshed(s, balance, history);
      && (s.currentWallet.None? ==> t == s)
      && (s.currentWallet.Some? && balance.Success? ==>
            t.currentWallet.value.balance == balance.value && t.savedWallet == t.currentWallet)
      && (s.currentWallet.Some? && balance.Failure? ==>
            t.currentWallet == s.currentWallet && t.savedWallet == s.savedWallet)
      && t.transactions == (if s.currentWallet.Some? && balance.Success? && history.Success? then history.value else s.transactions)
      && t.errorMessage ==
           (if s.currentWallet.None? then s.errorMessage
            else if balance.Failure? then Some(balance.error)
            else if history.Failure? then Some(history.error)
            else s.errorMessage)
  {
  }

  /** Refreshing twice against the same answers is refreshing once. */
  lemma RefreshIdempotent(s: Snapshot, balance: Result<int, Error>, history: Result<seq<Transaction>, Error>)
    ensures Refreshed(Refreshed(s, balance, history), balance, history) == Refreshed(s, balance, history)
  {
  }

  /** After a local send and its refresh, the sender's shown balance is its
      old ledger balance less the amount and the fee, when it did not send
      to itself. */
  lemma LocalSendShownBalance(s: Snapshot, ledger: seq<LedgerTx>, to: string, amount: int, u: Uuid, now: real,
                              history: Result<seq<Transaction>, Error>)
    requires s.currentWallet.Some? && s.currentWallet.value.address != to
    ensures var from := s.currentWallet.value.address;
      var t := Refreshed(s, Success(Balance(ledger + [SendEntry(from, to, amount, u, now)], from)), history);
      t.currentWallet.value.balance == Balance(ledger, from) - amount - SendFee(amount)
  {
    var from := s.currentWallet.value.address;
    BalanceAppend(ledger, SendEntry(from, to, amount, u, now), from);
  }

  /** In local mode, when no entry is a self-transfer, the history a refresh
      shows adds up (received amounts less sent amounts and fees) to the
      balance it shows. */
  lemma LocalRefreshConsistent(s: Snapshot, ledger: seq<LedgerTx>)
    requires s.currentWallet.Some?
    requires forall i :: 0 <= i < |ledger| ==> !(ledger[i].from == s.currentWallet.value.address && ledger[i].to == s.currentWallet.value.address)
    ensures var a := s.currentWallet.value.address;
      var t := Refreshed(s, Success(Balance(ledger, a)), Success(MapLedger(ledger, a)));
      SignedSum(t.transactions) == t.currentWallet.value.balance
  {
    HistoryMatchesBalance(ledger, s.currentWallet.value.address);
  }

  /** Every address the coordinator derives is at most 11 alphabet
      characters with no leading '1': the base-58 form of the last 8 bytes of
      the testnet payload of the derived public key, that is the hash's last 4
      bytes and the checksum. Nothing else of the key reaches the address. */
  lemma DerivedAddressShape(phrase: string, pbkdf2: Pbkdf2, sha: Sha256)
    requires DeriveKeys(phrase, pbkdf2, sha).Success?
    ensures var k := DeriveKeys(phrase, pbkdf2, sha).value;
      && k.address == Digits58(BigEndian(AddressPayload(k.publicKey, true, sha)[17..]))
      && |k.address| <= 11
      && LeadingOnes(k.address) == 0
      && (forall i :: 0 <= i < |k.address| ==> k.address[i] in Alphabet)
  {
    var k := DeriveKeys(phrase, pbkdf2, sha).value;
    TestnetAddressShape(k.publicKey, sha);
  }

  /** Two phrases whose derived payloads agree in their last 8 bytes get one
      address, so the second `createWallet` stores its key and phrase over
      the first wallet's: the keychain ends as if only the second had been
      stored. */
  lemma SharedTailOverwrites(privateKeys: map<string, seq<Byte>>, mnemonics: map<string, string>,
                             phrase1: string, phrase2: string, pbkdf2: Pbkdf2, sha: Sha256)
    requires DeriveKeys(phrase1, pbkdf2, sha).Success? && DeriveKeys(phrase2, pbkdf2, sha).Success?
    requires AddressPayload(DeriveKeys(phrase1, pbkdf2, sha).value.publicKey, true, sha)[17..]
          == AddressPayload(DeriveKeys(phrase2, pbkdf2, sha).value.publicKey, true, sha)[17..]
    ensures var (k1, k2) := (DeriveKeys(phrase1, pbkdf2, sha).value, DeriveKeys(phrase2, pbkdf2, sha).value);
      && k1.address == k2.address
      && privateKeys[k1.address := k1.privateKey][k2.address := k2.privateKey] == privateKeys[k2.address := k2.privateKey]
      && mnemonics[k1.address := phrase1][k2.address := phrase2] == mnemonics[k2.address := phrase2]
      && mnemonics[k1.address := phrase1][k2.address := phrase2][k1.address] == phrase2
  {
    var k1 := DeriveKeys(phrase1, pbkdf2, sha).value;
    var k2 := DeriveKeys(phrase2, pbkdf2, sha).value;
    TestnetAddressOnlyTail(k1.publicKey, k2.publicKey, sha);
    StoreTwice(privateKeys, k1.address, k1.privateKey, k2.privateKey);
    StoreTwice(mnemonics, k1.address, phrase1, phrase2);
  }

  /** A second store under one key replaces the first. */
  lemma StoreTwice<V>(m: map<string, V>, a: string, v1: V, v2: V)
    ensures m[a := v1][a := v2] == m[a := v2]
    ensures m[a := v1][a := v2][a] == v2
  {
  }

  /** A generated phrase is the mnemonic of the drawn entropy; a supplied one
      is used verbatim. */
  lemma CreationPhrase(mnemonic: Option<string>, random: Option<seq<Byte>>, pbkdf2: Pbkdf2, sha: Sha256, wordList: WordList)
    ensures var c := CreationFor(mnemonic, random, pbkdf2, sha, wordList);
      && (mnemonic.Some? ==> (c.Success? <==> DeriveKeys(mnemonic.value, pbkdf2, sha).Success?))
      && (mnemonic.Some? && c.Success? ==> c.value.phrase == mnemonic.value)
      && (mnemonic.None? && random.None? ==> c == Failure(RandomGenerationFailed))
      && (mnemonic.None? && random.Some? && c.Success? ==> c.value.phrase == MnemonicOf(random.value, sha, wordList))
      && (c.Success? ==> DeriveKeys(c.value.phrase, pbkdf2, sha) == Success(c.value.keys))
  {
  }
}
