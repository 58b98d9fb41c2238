/** The shared guard of the two cron routes (schedule and deliver): a bearer token
    compared with a configured secret. */
module Cron {
  import opened Text
  import opened Entities

  /** A secret must be configured and the header must be exactly `Bearer <secret>`. */
  predicate Authorized(secret: Option<string>, header: Option<string>) {
    Given(secret) && header == Some("Bearer " + secret.value)
  }

  /** Without a configured secret nothing is authorized; with one, exactly its own
      bearer header is. */
  lemma AuthorizedOnlyBySecret(secret: Option<string>, header: Option<string>)
    ensures !Given(secret) ==> !Authorized(secret, header)
    ensures Given(secret) ==> (Authorized(secret, header) <==> header == Some("Bearer " + secret.value))
    ensures Given(secret) && header.Some? && |header.value| <= 7 ==> !Authorized(secret, header)
  {
  }
}
