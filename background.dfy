/**
 * The vault session manager of the extension's background script.
 *
 * The script keeps two module-level variables, the session key (present means
 * unlocked) and the decrypted credential cache, next to a durable key-value
 * store holding `token` and `encrypted_vault`. Class Session holds all three.
 * Each operation runs to completion; the replies of the remote service, the
 * random nonce and the URL parser are parameters.
 */
module Background {
  import opened Wrappers
  import opened CredentialJson
  import opened WebCrypto
  import opened Vault
  import opened UrlMatch

  /** chrome.storage.local: the bearer token and the encrypted vault, each possibly absent. */
  datatype Store = Store(token: Option<string>, vault: Option<EncryptedVault>)

  /** `if (!token)`: an absent token and the empty string both count as "no token". */
  predicate TokenSet(s: Store)
  {
    s.token.Some? && s.token.value != ""
  }

  /** The token endpoint: an access token, a non-ok response, or a network error. */
  datatype AuthReply = AuthOk(access: string) | AuthRejected | Unreachable

  /** fetchAllCredentials: the credential list, or the error it throws. */
  datatype FetchReply = FetchOk(credentials: seq<Credential>) | FetchFailed

  /** The TOTP endpoint for one credential: its JSON body, a non-ok response, or a network error with its message. */
  datatype TotpReply = TotpOk(totp: string) | TotpHttpError | TotpNetworkError(message: string)

  /** The object passed to sendResponse by login and unlock: `{success, mode?, error?}`. */
  datatype Reply = Reply(success: bool, mode: Option<string>, error: Option<string>)

  /** The object passed to sendResponse by the MFA and TOTP handlers: `{totp}` or `{error}`. */
  datatype TotpResponse = TotpCode(totp: string) | TotpError(error: string)

  const OfflineMode := "offline"
  const NoLocalData := "Offline, and no local data found."
  const InvalidPassword := "Invalid password."
  const InvalidPasswordOrVault := "Invalid password or corrupted vault."
  const VaultLocked := "Vault is locked."
  const NoMfaMatch := "No matching credential with MFA found"
  const NotLoggedIn := "Not logged in"
  const TotpFetchFailed := "Failed to fetch TOTP"

  /** The try/catch of handleGetTotp once a token is present. */
  function TotpResponseTo(reply: TotpReply): TotpResponse
  {
    match reply
    case TotpOk(code) => TotpCode(code)
    case TotpHttpError => TotpError(TotpFetchFailed)
    case TotpNetworkError(message) => TotpError(message)
  }

  /** `credentials.find(cred => cred.has_mfa)`, as the index of the first credential with MFA (|s| when none). */
  function FirstWithMfa(s: seq<Credential>): (i: nat)
    ensures i <= |s|
    ensures i < |s| ==> s[i].hasMfa
    ensures forall j :: 0 <= j < i ==> !s[j].hasMfa
  {
    if s == [] then 0
    else if s[0].hasMfa then 0
    else 1 + FirstWithMfa(s[1..])
  }

  class Session {
    /** sessionCryptoKey: present exactly while the vault is unlocked. */
    var key: Option<Key>
    /** cachedDecryptedCredentials. */
    var cache: seq<Credential>
    /** The durable store. */
    var store: Store

    /**
     * The invariant every operation keeps: a locked session caches nothing; an
     * unlocked one caches exactly what the stored vault decrypts to under the
     * session key, or nothing when there is no stored vault.
     */
    ghost predicate Valid()
      reads this
    {
      && (key.None? ==> cache == [])
      && (key.Some? && store.vault.None? ==> cache == [])
      && (key.Some? && store.vault.Some? ==> DecryptVault(key.value, store.vault.value) == Ok(cache))
    }

    /** The script's start: locked, empty cache, whatever storage already holds. */
    constructor (persisted: Store)
      ensures Valid()
      ensures key == None && cache == [] && store == persisted
    {
      key := None;
      cache := [];
      store := persisted;
    }

    /** setSessionKey: derive the key from the password and install it. */
    method SetSessionKey(password: string)
      modifies this
      ensures key == Some(DeriveKey(password))
      ensures cache == old(cache) && store == old(store)
    {
      key := Some(DeriveKey(password));
    }

    /**
     * updateLocalVault: without a key, nothing happens; otherwise the whole vault is
     * replaced by the credentials encrypted under the key, and then the cache is
     * replaced by the credentials.
     */
    method UpdateLocalVault(credentials: seq<Credential>, iv: Nonce)
      modifies this
      ensures key == old(key) && store.token == old(store.token)
      ensures old(key).None? ==> cache == old(cache) && store == old(store)
      ensures old(key).Some? ==>
                && store.vault == Some(EncryptCredentials(old(key).value, iv, credentials))
                && cache == credentials
                && DecryptVault(key.value, store.vault.value) == Ok(cache)
      ensures old(key).Some? ==> Valid()
    {
      if key.None? {
        return;
      }
      store := store.(vault := Some(EncryptCredentials(key.value, iv, credentials)));
      cache := credentials;
      DecryptVaultInverts(key.value, iv, credentials);
    }

    /**
     * handleLogin. Online first: on an access token, store it, install the key,
     * fetch the credentials and rewrite the vault. If the token request fails, or
     * the fetch fails after the token and key are already installed, fall back to
     * the offline path: with no stored vault report failure and change nothing
     * more; otherwise install the key and decrypt the vault, clearing key and
     * cache when that fails.
     */
    method Login(username: string, password: string, auth: AuthReply, fetch: FetchReply, iv: Nonce) returns (reply: Reply)
      requires Valid()
      modifies this
      ensures Valid()
      ensures auth.AuthOk? && fetch.FetchOk? ==>
                && reply == Reply(true, None, None)
                && key == Some(DeriveKey(password))
                && cache == fetch.credentials
                && store == Store(Some(auth.access), Some(EncryptCredentials(DeriveKey(password), iv, fetch.credentials)))
                && DecryptVault(DeriveKey(password), store.vault.value) == Ok(fetch.credentials)
      ensures !(auth.AuthOk? && fetch.FetchOk?) ==>
                && store.vault == old(store.vault)
                && store.token == (if auth.AuthOk? then Some(auth.access) else old(store.token))
      ensures !(auth.AuthOk? && fetch.FetchOk?) && old(store.vault).None? ==>
                && reply == Reply(false, None, Some(NoLocalData))
                && key == (if auth.AuthOk? then Some(DeriveKey(password)) else old(key))
                && cache == old(cache)
      ensures !(auth.AuthOk? && fetch.FetchOk?) && old(store.vault).Some? ==>
                var outcome := DecryptVault(DeriveKey(password), old(store.vault).value);
                && (outcome.Ok? ==> reply == Reply(true, Some(OfflineMode), None) && key == Some(DeriveKey(password)) && cache == outcome.value)
                && (outcome.Err? ==> reply == Reply(false, None, Some(InvalidPassword)) && key == None && cache == [])
      ensures reply.success ==> key == Some(DeriveKey(password)) && store.vault.Some?
    {
      // Online-first path.
      if auth.AuthOk? {
        store := store.(token := Some(auth.access));
        SetSessionKey(password);
        if fetch.FetchOk? {
          UpdateLocalVault(fetch.credentials, iv);
          reply := Reply(true, None, None);
          return;
        }
      }
      // Offline fallback path.
      match store.vault
      case Some(v) =>
        SetSessionKey(password);
        var decrypted := DecryptVault(key.value, v);
        if decrypted.Ok? {
          cache := decrypted.value;
          reply := Reply(true, Some(OfflineMode), None);
        } else {
          key := None;
          cache := [];
          reply := Reply(false, None, Some(InvalidPassword));
        }
      case None =>
        reply := Reply(false, None, Some(NoLocalData));
    }

    /**
     * handleUnlock: install the key and decrypt the stored vault. On success the
     * reply is sent first and a sync then runs; a missing vault fails exactly like
     * a wrong password and clears key and cache.
     */
    method Unlock(password: string, fetch: FetchReply, iv: Nonce) returns (reply: Reply)
      requires Valid()
      modifies this
      ensures Valid()
      ensures reply.success <==> old(store.vault).Some? && DecryptVault(DeriveKey(password), old(store.vault).value).Ok?
      ensures !reply.success ==>
                reply == Reply(false, None, Some(InvalidPasswordOrVault)) && key == None && cache == [] && store == old(store)
      ensures reply.success ==>
                && reply == Reply(true, None, None)
                && key == Some(DeriveKey(password))
                && store.token == old(store.token)
      ensures reply.success && !(TokenSet(old(store)) && fetch.FetchOk?) ==>
                cache == DecryptVault(DeriveKey(password), old(store.vault).value).value && store == old(store)
      ensures reply.success && TokenSet(old(store)) && fetch.FetchOk? ==>
                cache == fetch.credentials && store.vault == Some(EncryptCredentials(DeriveKey(password), iv, fetch.credentials))
    {
      SetSessionKey(password);
      if store.vault.Some? {
        var decrypted := DecryptVault(key.value, store.vault.value);
        if decrypted.Ok? {
          cache := decrypted.value;
          reply := Reply(true, None, None);
          SyncWithServer(fetch, iv);
          return;
        }
      }
      // A missing vault is thrown as an error and caught with a failed decryption.
      key := None;
      cache := [];
      reply := Reply(false, None, Some(InvalidPasswordOrVault));
    }

    /**
     * handleLogout: lock the session and forget the token; the encrypted vault
     * stays so that an offline unlock remains possible.
     */
    method Logout()
      modifies this
      ensures Valid()
      ensures key == None && cache == []
      ensures store == old(store).(token := None)
    {
      key := None;
      cache := [];
      store := store.(token := None);
    }

    /**
     * syncWithServer: with both a token and a key, fetch the credentials and
     * rewrite the vault and cache; without either, or when the fetch fails,
     * nothing changes. The key and token are never touched.
     */
    method SyncWithServer(fetch: FetchReply, iv: Nonce)
      requires Valid()
      modifies this
      ensures Valid()
      ensures key == old(key) && store.token == old(store.token)
      ensures !(TokenSet(old(store)) && old(key).Some? && fetch.FetchOk?) ==>
                cache == old(cache) && store == old(store)
      ensures TokenSet(old(store)) && old(key).Some? && fetch.FetchOk? ==>
                cache == fetch.credentials && store.vault == Some(EncryptCredentials(old(key).value, iv, fetch.credentials))
    {
      if !TokenSet(store) || key.None? {
        return;
      }
      if fetch.FetchOk? {
        UpdateLocalVault(fetch.credentials, iv);
      }
    }

    /** The `is_key_set` message: whether the session is unlocked. */
    method IsKeySet() returns (status: bool)
      ensures status <==> key.Some?
    {
      status := key.Some?;
    }

    /** The `get_cached_credentials` message: the cache, which is empty whenever the session is locked. */
    method GetCachedCredentials() returns (credentials: seq<Credential>)
      requires Valid()
      ensures credentials == cache
      ensures key.None? ==> credentials == []
    {
      credentials := cache;
    }

    /** handleGetCredentialsForUrl: nothing while locked, otherwise the cached credentials matching the page. */
    method GetCredentialsForUrl(url: string, parse: UrlParser) returns (credentials: seq<Credential>)
      ensures key.None? ==> credentials == []
      ensures key.Some? ==> credentials == FilterCredentialsByUrl(cache, url, parse)
      ensures forall c :: c in credentials ==> c in cache && UrlMatches(parse, url, c.websiteUrl)
    {
      if key.None? {
        return [];
      }
      credentials := FilterCredentialsByUrl(cache, url, parse);
      forall c | c in credentials
        ensures c in cache && UrlMatches(parse, url, c.websiteUrl)
      {
        FilterMembership(cache, url, parse, c);
      }
    }

    /**
     * handleGetTotp: without a token, "Not logged in"; otherwise the TOTP
     * endpoint's answer for the credential, or the error it raised.
     */
    method GetTotp(credentialId: int, server: int -> TotpReply) returns (response: TotpResponse)
      ensures !TokenSet(store) ==> response == TotpError(NotLoggedIn)
      ensures TokenSet(store) ==> response == TotpResponseTo(server(credentialId))
    {
      if !TokenSet(store) {
        return TotpError(NotLoggedIn);
      }
      response := TotpResponseTo(server(credentialId));
    }

    /**
     * handleGetMfaForUrl: "Vault is locked." while locked; otherwise the TOTP of
     * the first credential matching the page that has MFA, or an error when no
     * matching credential has MFA.
     */
    method GetMfaForUrl(url: string, parse: UrlParser, server: int -> TotpReply) returns (response: TotpResponse)
      ensures key.None? ==> response == TotpError(VaultLocked)
      ensures key.Some? ==>
                var matching := FilterCredentialsByUrl(cache, url, parse);
                var i := FirstWithMfa(matching);
                && (i == |matching| ==> response == TotpError(NoMfaMatch))
                && (i < |matching| && !TokenSet(store) ==> response == TotpError(NotLoggedIn))
                && (i < |matching| && TokenSet(store) ==> response == TotpResponseTo(server(matching[i].id)))
    {
      if key.None? {
        return TotpError(VaultLocked);
      }
      var matching := FilterCredentialsByUrl(cache, url, parse);
      var i := FirstWithMfa(matching);
      if i < |matching| {
        response := GetTotp(matching[i].id, server);
      } else {
        response := TotpError(NoMfaMatch);
      }
    }
  }

  /*
   * Sequences of operations, as a caller sees them.
   */

  /**
   * An online login writes a vault that outlives logout: unlocking it afterwards
   * with the same password succeeds and gives back the credentials fetched at login.
   */
  method LoginLogoutUnlock(persisted: Store, username: string, password: string, access: string,
                           credentials: seq<Credential>, iv: Nonce, later: FetchReply, iv': Nonce)
    returns (reply: Reply, recovered: seq<Credential>)
    ensures reply == Reply(true, None, None)
    ensures recovered == credentials
  {
    var session := new Session(persisted);
    var _ := session.Login(username, password, AuthOk(access), FetchOk(credentials), iv);
    session.Logout();
    reply := session.Unlock(password, later, iv');
    recovered := session.GetCachedCredentials();
  }

  /**
   * After an online login, a restarted extension with no network logs in offline
   * with the same password and sees the credentials of that login.
   */
  method OfflineLoginAfterRestart(persisted: Store, username: string, password: string, access: string,
                                  credentials: seq<Credential>, iv: Nonce, iv': Nonce)
    returns (reply: Reply, recovered: seq<Credential>)
    ensures reply == Reply(true, Some(OfflineMode), None)
    ensures recovered == credentials
  {
    var online := new Session(persisted);
    var _ := online.Login(username, password, AuthOk(access), FetchOk(credentials), iv);
    var restarted := new Session(online.store);
    reply := restarted.Login(username, password, Unreachable, FetchFailed, iv');
    recovered := restarted.GetCachedCredentials();
  }

  /**
   * Unlocking with a wrong password leaves the session locked: the credential
   * query answers with nothing and the MFA query with "Vault is locked.".
   */
  method WrongPasswordStaysLocked(persisted: Store, username: string, password: string, wrong: string, access: string,
                                  credentials: seq<Credential>, iv: Nonce, later: FetchReply, iv': Nonce,
                                  url: string, parse: UrlParser, server: int -> TotpReply)
    returns (reply: Reply, found: seq<Credential>, mfa: TotpResponse)
    requires wrong != password
    ensures reply == Reply(false, None, Some(InvalidPasswordOrVault))
    ensures found == [] && mfa == TotpError(VaultLocked)
  {
    var session := new Session(persisted);
    var _ := session.Login(username, password, AuthOk(access), FetchOk(credentials), iv);
    session.Logout();
    VaultOpensOnlyWithItsPassword(password, wrong, iv, credentials);
    reply := session.Unlock(wrong, later, iv');
    found := session.GetCredentialsForUrl(url, parse);
    mfa := session.GetMfaForUrl(url, parse, server);
  }

  /** A failed sync leaves the credentials a query sees exactly as they were. */
  method FailedSyncKeepsCredentials(session: Session, url: string, parse: UrlParser, iv: Nonce)
    returns (before: seq<Credential>, after: seq<Credential>)
    requires session.Valid()
    modifies session
    ensures before == after
  {
    before := session.GetCredentialsForUrl(url, parse);
    session.SyncWithServer(FetchFailed, iv);
    after := session.GetCredentialsForUrl(url, parse);
  }
}
