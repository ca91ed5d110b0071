/**
 * CredentialSerializer: how a credential's writable fields become a stored row
 * (create, update) and how a row is sent back to the client (to_representation,
 * get_has_mfa). The password and MFA secret are stored only as encrypt_data
 * tokens; the password is decrypted on the way out, the MFA secret never is.
 */
module Serializers {
  import opened Wrappers
  import opened Fernet
  import opened Models

  /** A JSON value of the representation. */
  datatype JsonValue = JString(s: string) | JInt(i: int) | JBool(b: bool) | JNull

  /** The fields a client may write; validated_data never holds other names. */
  const WritableFields: set<string> := {"website_url", "username", "password", "mfa_secret"}

  /** The fields of the representation: Meta.fields without the write-only ones, plus the decrypted password. */
  const RepresentationFields: set<string> := {"id", "website_url", "username", "has_mfa", "password"}

  /** A str-or-None as JSON. */
  function ToJson(v: Option<string>): JsonValue
  {
    match v
    case Some(s) => JString(s)
    case None => JNull
  }

  /**
   * get_has_mfa: `bool(obj.encrypted_mfa_secret)`. It is true exactly when a secret
   * is stored that decrypt_data does not read as "no secret".
   */
  function GetHasMfa(c: Credential): (hasMfa: bool)
    reads c
    ensures hasMfa <==> DecryptData(c.encryptedMfaSecret) != Ok(None)
  {
    Truthy(c.encryptedMfaSecret)
  }

  /**
   * create: pop `password` and store its encryption as `encrypted_password`; pop
   * `mfa_secret` and store its encryption as `encrypted_mfa_secret` only when it
   * is non-empty; then create the row. `data` is validated_data as the call
   * leaves it (the dictionary is rewritten in place).
   */
  method Create(validatedData: map<string, Option<string>>, user: int, newId: int)
    returns (data: map<string, Option<string>>, instance: Credential)
    requires validatedData.Keys <= WritableFields
    ensures "password" !in data && "mfa_secret" !in data
    ensures ("encrypted_password" in data) == ("password" in validatedData)
    ensures "password" in validatedData ==> data["encrypted_password"] == EncryptData(validatedData["password"])
    ensures ("encrypted_mfa_secret" in data) == ("mfa_secret" in validatedData && Truthy(validatedData["mfa_secret"]))
    ensures "encrypted_mfa_secret" in data ==> data["encrypted_mfa_secret"] == EncryptData(validatedData["mfa_secret"])
    ensures data - {"encrypted_password", "encrypted_mfa_secret"} == validatedData - {"password", "mfa_secret"}
    ensures instance.id == newId && instance.user == user
    ensures instance.websiteUrl == Field(validatedData, "website_url", Some(""))
    ensures instance.username == Field(validatedData, "username", Some(""))
    ensures instance.encryptedPassword ==
              if "password" in validatedData then EncryptData(validatedData["password"]) else Some("")
    ensures instance.encryptedMfaSecret ==
              if "mfa_secret" in validatedData && Truthy(validatedData["mfa_secret"])
              then EncryptData(validatedData["mfa_secret"]) else None
    ensures GetHasMfa(instance) <==> "mfa_secret" in validatedData && Truthy(validatedData["mfa_secret"])
  {
    data := validatedData;
    if "password" in data {
      var password := data["password"];
      data := data - {"password"};
      data := data["encrypted_password" := EncryptData(password)];
    }
    if "mfa_secret" in data && Truthy(data["mfa_secret"]) {
      var secret := data["mfa_secret"];
      data := data - {"mfa_secret"};
      data := data["encrypted_mfa_secret" := EncryptData(secret)];
    } else {
      // An empty mfa_secret is dropped rather than stored.
      data := data - {"mfa_secret"};
    }
    instance := new Credential(newId, user, data);
  }

  /**
   * update: re-encrypt the password when one is given, the MFA secret when a
   * non-empty one is given, and take website_url and username when present; every
   * other field keeps its value. An MFA secret, once set, is never cleared.
   */
  method Update(instance: Credential, validatedData: map<string, Option<string>>) returns (updated: Credential)
    modifies instance
    ensures updated == instance
    ensures instance.id == old(instance.id) && instance.user == old(instance.user)
    ensures instance.encryptedPassword ==
              if "password" in validatedData then EncryptData(validatedData["password"]) else old(instance.encryptedPassword)
    ensures instance.encryptedMfaSecret ==
              if "mfa_secret" in validatedData && Truthy(validatedData["mfa_secret"])
              then EncryptData(validatedData["mfa_secret"]) else old(instance.encryptedMfaSecret)
    ensures instance.websiteUrl == Field(validatedData, "website_url", old(instance.websiteUrl))
    ensures instance.username == Field(validatedData, "username", old(instance.username))
    ensures old(GetHasMfa(instance)) ==> GetHasMfa(instance)
  {
    var data := validatedData;
    if "password" in data {
      var password := data["password"];
      data := data - {"password"};
      instance.encryptedPassword := EncryptData(password);
    }
    if "mfa_secret" in data && Truthy(data["mfa_secret"]) {
      var secret := data["mfa_secret"];
      data := data - {"mfa_secret"};
      instance.encryptedMfaSecret := EncryptData(secret);
    }
    instance.websiteUrl := Field(data, "website_url", instance.websiteUrl);
    instance.username := Field(data, "username", instance.username);
    updated := instance;
  }

  /**
   * to_representation: the readable fields, then the decrypted password; the MFA
   * secret is removed and never sent. Fails when the stored password is not a
   * valid token (decrypt_data raises).
   */
  method ToRepresentation(instance: Credential) returns (r: Result<map<string, JsonValue>, string>)
    ensures r.Ok? <==> DecryptData(instance.encryptedPassword).Ok?
    ensures r.Err? ==> r == Err("InvalidToken")
    ensures r.Ok? ==>
              && r.value.Keys == RepresentationFields
              && "mfa_secret" !in r.value
              && r.value["id"] == JInt(instance.id)
              && r.value["website_url"] == ToJson(instance.websiteUrl)
              && r.value["username"] == ToJson(instance.username)
              && r.value["has_mfa"] == JBool(Truthy(instance.encryptedMfaSecret))
              && r.value["password"] == ToJson(DecryptData(instance.encryptedPassword).value)
  {
    var representation := map[
      "id" := JInt(instance.id),
      "website_url" := ToJson(instance.websiteUrl),
      "username" := ToJson(instance.username),
      "has_mfa" := JBool(GetHasMfa(instance))];
    var password := DecryptData(instance.encryptedPassword);
    if password.Err? {
      return Err(password.error);
    }
    representation := representation["password" := ToJson(password.value)];
    representation := representation - {"mfa_secret"};
    r := Ok(representation);
  }

  /**
   * A credential created with a non-empty password is sent back with that same
   * password, with `has_mfa` telling whether a non-empty MFA secret was given,
   * and without the MFA secret.
   */
  method CreateThenRepresent(validatedData: map<string, Option<string>>, user: int, newId: int)
    returns (r: Result<map<string, JsonValue>, string>)
    requires validatedData.Keys <= WritableFields
    requires "password" in validatedData && Truthy(validatedData["password"])
    ensures r.Ok? && r.value.Keys == RepresentationFields
    ensures r.value["password"] == ToJson(validatedData["password"])
    ensures r.value["has_mfa"] == JBool("mfa_secret" in validatedData && Truthy(validatedData["mfa_secret"]))
    ensures "mfa_secret" !in r.value
  {
    var _, instance := Create(validatedData, user, newId);
    DecryptEncrypt(validatedData["password"]);
    r := ToRepresentation(instance);
  }

  /**
   * An update that gives no password (or only an empty MFA secret) leaves the
   * password the client gets back unchanged.
   */
  method UpdateKeepsPassword(instance: Credential, validatedData: map<string, Option<string>>)
    returns (before: Result<map<string, JsonValue>, string>, after: Result<map<string, JsonValue>, string>)
    requires "password" !in validatedData
    modifies instance
    ensures before.Ok? <==> after.Ok?
    ensures before.Ok? ==>
              && before.value.Keys == after.value.Keys == RepresentationFields
              && after.value["password"] == before.value["password"]
  {
    before := ToRepresentation(instance);
    var _ := Update(instance, validatedData);
    after := ToRepresentation(instance);
  }
}
