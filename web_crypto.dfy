/**
 * The Web Crypto primitives the extension uses, idealised.
 *
 * SHA-256 (FIPS 180-4) is taken to be collision-free, so a digest is identified
 * with the text it hashes (on well-formed strings TextEncoder's UTF-8 encoding is injective, so hashing
 * the bytes or the text is the same thing). AES-GCM (NIST SP 800-38D) is taken
 * to be a perfect authenticated cipher: a ciphertext opens only under the key
 * and nonce it was sealed with; anything else fails authentication.
 */
module WebCrypto {
  import opened Wrappers
  import opened CredentialJson

  /** The SHA-256 digest of a text. */
  datatype Digest = Sha256(text: string)

  /** An AES-GCM key imported from raw key material. */
  datatype Key = AesGcmKey(raw: Digest)

  /** The 12-byte nonce drawn from crypto.getRandomValues for each encryption. */
  type Nonce = iv: seq<bv8> | |iv| == 12 witness [0, 0, 0, 0, 0, 0, 0, 0, 0, 0, 0, 0]

  /** Plaintext bytes: either the UTF-8 text of JSON.stringify(credentials), or bytes that are not such text. */
  datatype Plaintext = JsonText(credentials: seq<Credential>) | OtherBytes(bytes: seq<bv8>)

  /** AES-GCM output: a sealed plaintext, or bytes no encryption produced (a corrupted or forged blob). */
  datatype Ciphertext = Sealed(key: Key, iv: seq<bv8>, plaintext: Plaintext) | Unsealed(bytes: seq<bv8>)

  /** JSON.stringify followed by TextEncoder.encode. */
  function Serialize(credentials: seq<Credential>): Plaintext
  {
    JsonText(credentials)
  }

  /** TextDecoder.decode followed by JSON.parse; None is the SyntaxError JSON.parse throws. */
  function Parse(p: Plaintext): Option<seq<Credential>>
  {
    match p
    case JsonText(credentials) => Some(credentials)
    case OtherBytes(_) => None
  }

  /** The digest chain of setSessionKey: SHA-256 of the password, imported as an AES-GCM key. */
  function DeriveKey(password: string): Key
  {
    AesGcmKey(Sha256(password))
  }

  /** crypto.subtle.encrypt with AES-GCM under the given key and nonce. */
  function Encrypt(k: Key, iv: seq<bv8>, p: Plaintext): Ciphertext
  {
    Sealed(k, iv, p)
  }

  /** crypto.subtle.decrypt with AES-GCM; None is the OperationError of a failed authentication. */
  function Decrypt(k: Key, iv: seq<bv8>, c: Ciphertext): Option<Plaintext>
  {
    match c
    case Sealed(k', iv', p) => if k' == k && iv' == iv then Some(p) else None
    case Unsealed(_) => None
  }

  /** Parsing undoes serialising. */
  lemma ParseSerialize(credentials: seq<Credential>)
    ensures Parse(Serialize(credentials)) == Some(credentials)
  {
  }

  /** The same password always yields the same key, and different passwords different keys. */
  lemma DeriveKeyDeterministic(p: string, q: string)
    ensures DeriveKey(p) == DeriveKey(q) <==> p == q
  {
  }

  /** Decryption with the key and nonce used for encryption gives back the plaintext. */
  lemma DecryptEncrypt(k: Key, iv: seq<bv8>, p: Plaintext)
    ensures Decrypt(k, iv, Encrypt(k, iv, p)) == Some(p)
  {
  }

  /** Any other key or nonce fails authentication rather than giving wrong data. */
  lemma DecryptRejects(k: Key, iv: seq<bv8>, k': Key, iv': seq<bv8>, p: Plaintext)
    requires k' != k || iv' != iv
    ensures Decrypt(k', iv', Encrypt(k, iv, p)) == None
  {
  }
}
