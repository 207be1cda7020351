/** The lifetimes and limits every other module rests on. */
module TokenConfig {
  const ACCESS_TOKEN_SECONDS: nat := 15 * 60
  const REFRESH_TOKEN_DAYS: nat := 7
  const REFRESH_TOKEN_SECONDS: nat := REFRESH_TOKEN_DAYS * 24 * 60 * 60
  const REFRESH_TOKEN_MILLISECONDS: nat := REFRESH_TOKEN_SECONDS * 1000
  const EMAIL_VERIFICATION_TOKEN_SECONDS: nat := 30 * 60
  const EMAIL_VERIFICATION_TOKEN_MILLISECONDS: nat := EMAIL_VERIFICATION_TOKEN_SECONDS * 1000
  const MAX_REFRESH_TOKENS_PER_USER: nat := 5
  const MILLISECONDS_PER_DAY: nat := 24 * 60 * 60 * 1000
}
