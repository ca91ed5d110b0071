/**
 * The server's field encryption helpers, encrypt_data and decrypt_data, over a
 * symbolic Fernet cipher: a token is the plaintext behind the six characters
 * every Fernet token starts with (the version byte 0x80 and the high bytes of
 * the timestamp, base64url-encoded). This keeps what the serializer relies on,
 * the round trip and the treatment of empty input, and not confidentiality.
 */
module Fernet {
  import opened Wrappers

  /** Python truthiness of a str-or-None value: None and "" are false. */
  predicate Truthy(v: Option<string>)
  {
    v.Some? && v.value != ""
  }

  const TokenPrefix: string := "gAAAAA"

  /** encrypt_data: None for empty input, otherwise a Fernet token. */
  function EncryptData(data: Option<string>): (token: Option<string>)
    ensures token.None? <==> !Truthy(data)
    ensures Truthy(data) ==> Truthy(token)
  {
    if !Truthy(data) then None else Some(TokenPrefix + data.value)
  }

  /** decrypt_data: None for empty input, the plaintext of a valid token, or the InvalidToken error. */
  function DecryptData(token: Option<string>): (r: Result<Option<string>, string>)
    ensures !Truthy(token) ==> r == Ok(None)
  {
    if !Truthy(token) then Ok(None)
    else if |TokenPrefix| <= |token.value| && token.value[..|TokenPrefix|] == TokenPrefix
    then Ok(Some(token.value[|TokenPrefix|..]))
    else Err("InvalidToken")
  }

  /** decrypt_data undoes encrypt_data: a non-empty string comes back, an empty one stays None. */
  lemma DecryptEncrypt(data: Option<string>)
    ensures DecryptData(EncryptData(data)) == if Truthy(data) then Ok(data) else Ok(None)
  {
  }
}
