# Password vault: session manager and credential serializer, in Dafny

This project models two parts of a small password manager.

- The **vault session manager** of the browser extension's background script
  (`extension/background.js`). It holds an in-memory session key and a decrypted
  credential cache. A durable store holds the server's bearer `token` and the
  `encrypted_vault`. The manager implements:
  - login, online first with an offline fallback;
  - unlock, logout and the background sync;
  - re-encryption and decryption of the vault;
  - the queries that are gated on the lock (credentials for a page, the TOTP code for a page);
  - the URL matching rule that decides which saved credentials belong to a page.
- The **credential serializer** of the server (`backend/api/serializers.py`). It turns a
  client's fields into a stored row with the password and MFA secret encrypted
  (`create`, `update`). It also turns a row back into what the client receives, with the
  password decrypted and the MFA secret withheld (`to_representation`, `get_has_mfa`).

Files and modules:

| file | module | models |
|---|---|---|
| `wrappers.dfy` | `Wrappers` | `Option`, `Result` |
| `credential_json.dfy` | `CredentialJson` | the credential record the extension receives |
| `web_crypto.dfy` | `WebCrypto` | SHA-256 key derivation and AES-GCM, idealised |
| `vault.dfy` | `Vault` | the `encrypted_vault` record, its encryption and `decryptVault` |
| `url_match.dfy` | `UrlMatch` | `filterCredentialsByUrl` |
| `background.dfy` | `Background` | class `Session`: key, cache, store, and every handler |
| `fernet.dfy` | `Fernet` | `encrypt_data` / `decrypt_data` |
| `models.dfy` | `Models` | class `Credential`, one row of the credential table |
| `serializers.dfy` | `Serializers` | `CredentialSerializer.create`, `update`, `to_representation`, `get_has_mfa` |

How the outside world enters the model:

- **Crypto.** Cryptography is symbolic. A key is `AesGcmKey(Sha256(password))`, so SHA-256
  is taken to be collision-free. A ciphertext is `Sealed(key, iv, plaintext)`. Decryption
  succeeds only with the same key and nonce; any other key, nonce or byte string fails
  authentication, as AES-GCM (NIST SP 800-38D) promises.
- **JSON.** JSON text is the `JsonText(credentials)` plaintext, so parsing undoes
  serialising. Bytes that are not such text fail to parse.
- **Network and randomness.** The remote service's answers are parameters (`AuthReply`,
  `FetchReply`, `server: int -> TotpReply`). So is the random 12-byte nonce (`Nonce`).
- **URL parsing.** The WHATWG URL parser (URL Standard, section 4.4) is a parameter
  `parse: string -> Option<UrlParts>`. It gives the `hostname` and `port` getters of
  section 6.1, and `host` is derived from them.
- **Server encryption.** The server's Fernet cipher is symbolic too. A token is the
  plaintext behind the fixed prefix `gAAAAA`. This keeps the round trip and the
  "empty input gives None" rule, and does not model confidentiality.

Session state: `Session.Valid()` is the invariant every message handler (login, unlock, logout, sync) keeps. A locked session
caches nothing. An unlocked session caches exactly what the stored vault decrypts to under
the session key, or nothing when no vault is stored.

The model follows the code in these behaviours:

- Online login success replies `{success: true}` with no `mode`. Offline success carries `mode: 'offline'`.
- Unlock with no stored vault gives the same reply as a wrong password,
  'Invalid password or corrupted vault.'. There is no separate "no local vault" outcome.
- A login whose token request succeeds but whose credential fetch fails falls back to the
  offline path with the token stored and the key installed. If no vault is stored, the
  login reports failure yet leaves the key installed. The session is then unlocked, with
  an empty cache. `Session.Login`'s contract states this outcome.
- Sync reports nothing. A missing token or key, and a failed fetch, leave every field
  unchanged. There is no "not ready" or "sync failed" result.
- A stored token that is the empty string counts as no token (JavaScript truthiness).

## Model

| member | source | states |
|---|---|---|
| Background.Session.constructor | extension/background.js:3-5 | a fresh script starts locked, with an empty cache, over whatever storage holds, and satisfies the session invariant |
| Background.Session.SetSessionKey | extension/background.js:181-186 | installs the key derived from the password and changes nothing else |
| Background.Session.UpdateLocalVault | extension/background.js:188-203 | without a key nothing changes; with one the whole vault is replaced by the credentials sealed under the key, the cache becomes those credentials, the vault decrypts back to the cache, and the invariant holds |
| Background.Session.Login | extension/background.js:42-86 | online success stores the token and a vault that decrypts under the password's key to the fetched list, and replies without mode; otherwise the offline path runs with the token and key the online path left behind: no vault means failure with key and cache as they were, a vault that decrypts means success in offline mode with exactly its contents, a vault that does not means key and cache cleared and 'Invalid password.'; the vault is never touched on failure; the invariant is kept |
| Background.Session.Unlock | extension/background.js:88-105 | succeeds exactly when a vault is stored and decrypts under the password's key; failure (wrong password or no vault) clears key and cache, leaves storage alone and replies 'Invalid password or corrupted vault.'; success installs the key, caches the decrypted vault, then runs a sync, whose outcome decides the final cache and vault |
| Background.Session.Logout | extension/background.js:107-113 | clears key and cache, removes the token and leaves the encrypted vault untouched |
| Background.Session.SyncWithServer | extension/background.js:168-177 | without a token or a key, or when the fetch fails, nothing changes; otherwise vault and cache are replaced by the fetched list; key and token never change; the invariant is kept |
| Background.Session.IsKeySet | extension/background.js:12-13 | answers whether the session key is present |
| Background.Session.GetCachedCredentials | extension/background.js:14-15 | returns the cache, which is empty whenever the session is locked |
| Background.Session.GetCredentialsForUrl | extension/background.js:115-122 | returns [] while locked; otherwise the filtered cache, every element of which is cached and matches the page |
| Background.Session.GetTotp | extension/background.js:139-155 | without a token replies 'Not logged in'; otherwise the TOTP endpoint's answer for that credential, 'Failed to fetch TOTP' on a non-ok response, or the network error's message |
| Background.Session.GetMfaForUrl | extension/background.js:124-137 | replies 'Vault is locked.' while locked; otherwise the TOTP answer for the first matching credential with MFA, or 'No matching credential with MFA found' when there is none |
| Background.FirstWithMfa | extension/background.js:130 | the index of the first credential with MFA: every earlier one has none, and the length when none has MFA |
| Background.LoginLogoutUnlock | extension/background.js:42-113 | after an online login and a logout, unlock with the same password succeeds and the cache is exactly the list fetched at login |
| Background.OfflineLoginAfterRestart | extension/background.js:42-86 | after an online login, a restarted script with the network unreachable logs in offline with the same password and caches the same list |
| Background.WrongPasswordStaysLocked | extension/background.js:88-137 | unlock with a different password fails, after which the credential query returns [] and the MFA query 'Vault is locked.' |
| Background.FailedSyncKeepsCredentials | extension/background.js:168-177 | a sync whose fetch fails leaves the credentials a page query returns unchanged |
| Vault.DecryptVaultInverts | extension/background.js:188-212 | decryptVault under a key undoes updateLocalVault's encryption under that key |
| Vault.VaultOpensOnlyWithItsPassword | extension/background.js:181-212 | a vault written under one password's key opens under another password's key exactly when the passwords are equal, and otherwise fails to decrypt |
| Vault.TamperedIvRejected | extension/background.js:205-208 | changing the stored nonce makes decryption fail |
| Vault.TamperedDataRejected | extension/background.js:205-208 | replacing the stored ciphertext with bytes no encryption produced makes decryption fail |
| WebCrypto.DeriveKeyDeterministic | extension/background.js:181-185 | the same password always gives the same key, and different passwords give different keys |
| WebCrypto.DecryptEncrypt | extension/background.js:193 | AES-GCM decryption with the encryption's key and nonce returns the plaintext |
| WebCrypto.DecryptRejects | extension/background.js:208 | AES-GCM decryption with any other key or nonce fails instead of returning wrong data |
| WebCrypto.ParseSerialize | extension/background.js:191 | JSON.parse of the decoded bytes gives back the credentials that were stringified |
| UrlMatch.StripSchemeAndWww | extension/background.js:243-244 | the stripped URL is a suffix of the original, and a URL with no scheme and no "www." is left as it is |
| UrlMatch.FilterIsSubsequence | extension/background.js:230-248 | the result is an order-preserving subsequence of the credentials |
| UrlMatch.FilterMembership | extension/background.js:230-248 | a credential is in the result exactly when it is in the input and its website_url matches the page |
| UrlMatch.FilterAppend | extension/background.js:230-231 | filtering a concatenation is the concatenation of the filtered parts |
| UrlMatch.ParsedMatchIsSameHostOrSubdomain | extension/background.js:233-241 | when both URLs parse, they match if and only if the hosts (port included) are equal, or the ports are equal and the page hostname is some leading labels, a dot and the saved hostname |
| UrlMatch.SubdomainMatches | extension/background.js:240 | a page whose hostname is a label, a dot and the saved hostname, on the saved port, matches |
| UrlMatch.SuffixWithoutDotDoesNotMatch | extension/background.js:239-241 | a page hostname that ends in the saved hostname without a dot before it does not match unless the hosts are equal |
| UrlMatch.PlainPrefixMatches | extension/background.js:233-246 | a non-empty saved URL that starts with neither "h" nor "w" (so it has no scheme and no "www.") and fails to parse matches every page URL that extends it |
| UrlMatch.SubdomainScenario | extension/background.js:233-241 | a credential saved for https://example.com:443 matches https://app.example.com |
| UrlMatch.SameHostScenario | extension/background.js:233-239 | a credential saved for https://example.com:443 matches https://example.com |
| UrlMatch.LookalikeScenario | extension/background.js:233-241 | a credential saved for https://example.com:443 does not match https://evil-example.com |
| UrlMatch.NotAUrlScenario | extension/background.js:233-239 | a credential saved as "notaurl" matches the page "notaurl/login": both parse to hostname "notaurl", so the hosts are equal |
| UrlMatch.UnparsablePortScenario | extension/background.js:242-246 | a saved "example.com:99999", which the parser rejects (port out of range), matches the page "example.com:99999/login" by the prefix test |
| Fernet.EncryptData | backend/api/encryption.py:29-33 | empty or missing input gives None; a non-empty string gives a non-empty token |
| Fernet.DecryptData | backend/api/encryption.py:35-39 | empty or missing input gives None |
| Fernet.DecryptEncrypt | backend/api/encryption.py:29-39 | decrypt_data gives back any non-empty string encrypt_data was given, and None for an empty one |
| Models.Credential.constructor | backend/api/models.py:4-9 | creating a row takes each column from the given fields, or its default when absent |
| Serializers.GetHasMfa | backend/api/serializers.py:29-30 | has_mfa is true exactly when a secret is stored that decrypt_data does not read as "no secret" |
| Serializers.Create | backend/api/serializers.py:32-41 | no plaintext password or MFA secret is left in the data; encrypted_password is the encryption of the given password; encrypted_mfa_secret is set exactly for a non-empty MFA secret; other fields pass through unchanged; the row's has_mfa says whether a non-empty secret was given |
| Serializers.Update | backend/api/serializers.py:43-52 | an omitted password, website_url or username keeps its stored value; an empty or omitted MFA secret keeps the stored one, so has_mfa never turns off; given values are stored, the secrets encrypted |
| Serializers.ToRepresentation | backend/api/serializers.py:54-63 | the output has exactly id, website_url, username, has_mfa and password, never mfa_secret; password is decrypt_data of the stored token; an invalid token makes it fail |
| Serializers.CreateThenRepresent | backend/api/serializers.py:32-63 | a credential created with a non-empty password is sent back with that same password, with has_mfa telling whether a non-empty secret was given, and without mfa_secret |
| Serializers.UpdateKeepsPassword | backend/api/serializers.py:43-63 | an update that gives no password leaves the password the client gets back unchanged |

## Left out

- Message dispatch (extension/background.js:7-30): it only routes messages to the handlers. `is_key_set` and `get_cached_credentials` are modelled as `IsKeySet` and `GetCachedCredentials`. The `sync_now` message never answers its caller.
- The 15-minute sync alarm (extension/background.js:32-40) and any overlap of asynchronous operations: each operation runs to completion. The sync an unlock starts runs right after the reply is computed, with nothing in between.
- handleInitiateFill (extension/background.js:157-166): it only forwards a credential to the active tab.
- HTTP details: URLs, headers and bodies of the token, credentials and TOTP endpoints are reduced to the outcomes the handlers branch on. A token response without an `access` field is not modelled.
- Storage failures: reads and writes of extension storage always succeed.
- Cryptographic internals: SHA-256 is idealised as collision-free and AES-GCM as a perfect authenticated cipher. The random nonce is a parameter. Nonce reuse and the strength of the unsalted key derivation are not modelled.
- JSON: a decrypted plaintext that parses as JSON but is not a credential list is not distinguished. JSON nulls inside a client-side credential are not modelled.
- The WHATWG URL parser itself: it is a parameter of the matching functions. The general lemmas hold for any parser; each scenario lemma holds for parsers that return, on its inputs, the outputs its requires clauses state (those of the URL Standard).
- Strings with unpaired surrogates: TextEncoder replaces them with U+FFFD, so two distinct JavaScript strings can give the same bytes and the same key. Dafny strings here are sequences of well-formed characters, so key derivation is modelled as injective.
- Server side outside the serializer: TOTP generation (backend/api/views.py, RFC 6238), the ORM's queries, per-user filtering and `save()`, database constraints such as NOT NULL, the timestamps, and user registration (`UserSerializer`, backend/api/serializers.py:6-17). The owner that `perform_create` adds to the data is a parameter of `Create`.
- Key derivation and cipher setup of the server's encryption module (backend/api/encryption.py:1-27).
- UI and plumbing files: extension/popup.js, extension/content.js, extension/options.js, extension/offscreen.js, backend/api/admin.py, backend/api/urls.py.
