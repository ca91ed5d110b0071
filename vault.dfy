/**
 * The encrypted vault record kept in extension storage under `encrypted_vault`,
 * and the pure halves of updateLocalVault and decryptVault.
 */
module Vault {
  import opened Wrappers
  import opened CredentialJson
  import opened WebCrypto

  /** `{iv, data}`: the nonce and the AES-GCM output, both stored as byte arrays. */
  datatype EncryptedVault = EncryptedVault(iv: seq<bv8>, data: Ciphertext)

  /** Why decryptVault throws: authentication failed, or the plaintext is not credential JSON. */
  datatype VaultError = DecryptFailed | ParseFailed

  /** The record updateLocalVault stores: the credentials' JSON sealed under the key with a fresh nonce. */
  function EncryptCredentials(k: Key, iv: Nonce, credentials: seq<Credential>): EncryptedVault
  {
    EncryptedVault(iv, Encrypt(k, iv, Serialize(credentials)))
  }

  /** decryptVault: decrypt under the session key with the stored nonce, then parse the JSON. */
  function DecryptVault(k: Key, v: EncryptedVault): Result<seq<Credential>, VaultError>
  {
    match Decrypt(k, v.iv, v.data)
    case None => Err(DecryptFailed)
    case Some(p) =>
      match Parse(p)
      case None => Err(ParseFailed)
      case Some(credentials) => Ok(credentials)
  }

  /** decryptVault inverts updateLocalVault's encryption under the same key. */
  lemma DecryptVaultInverts(k: Key, iv: Nonce, credentials: seq<Credential>)
    ensures DecryptVault(k, EncryptCredentials(k, iv, credentials)) == Ok(credentials)
  {
  }

  /**
   * A vault written under the key of one password opens under the key of another
   * password exactly when the two passwords are equal; otherwise decryption fails.
   */
  lemma VaultOpensOnlyWithItsPassword(p: string, q: string, iv: Nonce, credentials: seq<Credential>)
    ensures DecryptVault(DeriveKey(q), EncryptCredentials(DeriveKey(p), iv, credentials)) ==
            if p == q then Ok(credentials) else Err(DecryptFailed)
  {
  }

  /** Replacing the stored nonce of a vault makes decryption fail (tamper detection). */
  lemma TamperedIvRejected(k: Key, iv: Nonce, credentials: seq<Credential>, iv': seq<bv8>)
    requires iv' != iv
    ensures DecryptVault(k, EncryptCredentials(k, iv, credentials).(iv := iv')) == Err(DecryptFailed)
  {
  }

  /** Replacing the stored ciphertext by bytes no encryption produced makes decryption fail. */
  lemma TamperedDataRejected(k: Key, v: EncryptedVault, bytes: seq<bv8>)
    ensures DecryptVault(k, v.(data := Unsealed(bytes))) == Err(DecryptFailed)
  {
  }
}
