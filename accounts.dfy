/**
 * A user record as the browser store keeps it: a JSON object whose fields
 * are strings, keyed by field name ("name", "email", "password", ...).
 */
module Accounts {
  type UserRecord = map<string, string>

  const NameKey := "name"
  const EmailKey := "email"
  const PasswordKey := "password"
}
