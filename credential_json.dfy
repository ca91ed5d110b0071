/**
 * The credential record as the browser extension holds it: one element of the
 * JSON array returned by the credentials endpoint, i.e. the server's
 * representation of one stored row (see module Serializers).
 */
module CredentialJson {

  datatype Credential = Credential(
    id: int,
    websiteUrl: string,
    username: string,
    password: string,
    hasMfa: bool)
}
