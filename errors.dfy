/** The two error enumerations of the wallet core and the union of everything
    an operation can throw. */
module Errors {

  /** Errors of the wallet coordinator and the ledger service. */
  datatype WalletError = NoWallet | PrivateKeyNotFound | InvalidMnemonic | InsufficientFunds

  /** Errors of the key pipeline. */
  datatype CryptoError = RandomGenerationFailed | KeyDerivationFailed | InvalidMnemonicPhrase | SigningFailed

  /** What a call can throw: one of the enumerations above, a transport
      failure (`URLError`: no connection or a status outside 200..<300), or a
      JSON body that does not decode where the code does not swallow that. */
  datatype Error = Wallet(walletError: WalletError) | Crypto(cryptoError: CryptoError) | Network | Decoding
}
