/** Private-key files as far as loading them is concerned. */
module Keys {
  import opened Wrappers

  /** A parsed key file: its public fingerprint, readable without the passphrase, and the
      passphrase its private half is currently encrypted under, if any. */
  datatype KeyFile = KeyFile(fingerprint: string, passphrase: Option<string>)

  predicate Encrypted(key: KeyFile) {
    key.passphrase.Some?
  }

  /** Decryption succeeds for the file's current passphrase only. */
  predicate Decrypts(key: KeyFile, pp: string) {
    key.passphrase == Some(pp)
  }
}
