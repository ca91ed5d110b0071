/** The credential table of the server, one object per row. */
module Models {
  import opened Wrappers

  /** A value of `fields` by name, or the given default when the name is absent. */
  function Field(fields: map<string, Option<string>>, name: string, default: Option<string>): Option<string>
  {
    if name in fields then fields[name] else default
  }

  /**
   * A Credential row. Text columns hold a Python str or None; `user` is the owner's
   * primary key. The timestamps are not part of this model.
   */
  class Credential {
    var id: int
    var user: int
    var websiteUrl: Option<string>
    var username: Option<string>
    var encryptedPassword: Option<string>
    var encryptedMfaSecret: Option<string>

    /**
     * Credential.objects.create(user=user, **fields), with `id` the primary key the
     * database assigns. A column missing from `fields` takes its default: "" for a
     * text column, None for the nullable encrypted_mfa_secret.
     */
    constructor (id: int, user: int, fields: map<string, Option<string>>)
      ensures this.id == id && this.user == user
      ensures websiteUrl == Field(fields, "website_url", Some(""))
      ensures username == Field(fields, "username", Some(""))
      ensures encryptedPassword == Field(fields, "encrypted_password", Some(""))
      ensures encryptedMfaSecret == Field(fields, "encrypted_mfa_secret", None)
    {
      this.id := id;
      this.user := user;
      websiteUrl := Field(fields, "website_url", Some(""));
      username := Field(fields, "username", Some(""));
      encryptedPassword := Field(fields, "encrypted_password", Some(""));
      encryptedMfaSecret := Field(fields, "encrypted_mfa_secret", None);
    }
  }
}
