/**
 * The mail settings the contact action reads from the process environment,
 * passed in as a record: `GMAIL_USER`, `GMAIL_APP_PASSWORD` and the optional
 * override `CONTACT_TO`.
 */
module DeliveryConfig {
  import opened Wrappers
  import opened JsStrings

  datatype Env = Env(gmailUser: Option<string>, gmailAppPassword: Option<string>, contactTo: Option<string>)

  /** What the transport is built from once the settings are checked. */
  datatype Credentials = Credentials(user: string, pass: string, to: string)

  /** An environment value is truthy when it is set and not empty. */
  predicate IsSet(v: Option<string>) {
    v.Some? && Truthy(v.value)
  }

  /** JavaScript's `a || b` on two optional strings. */
  function Or(a: Option<string>, b: Option<string>): Option<string> {
    if IsSet(a) then a else b
  }

  /** `to = CONTACT_TO || user` followed by the test `!user || !pass || !to`. */
  function Resolve(env: Env): (r: Option<Credentials>)
    ensures r.Some? <==> IsSet(env.gmailUser) && IsSet(env.gmailAppPassword)
    ensures r.Some? ==> r.value.user == env.gmailUser.value && r.value.pass == env.gmailAppPassword.value
    ensures r.Some? ==> r.value.to == (if IsSet(env.contactTo) then env.contactTo.value else env.gmailUser.value)
    ensures r.Some? ==> r.value.user != "" && r.value.pass != "" && r.value.to != ""
  {
    var user := env.gmailUser;
    var pass := env.gmailAppPassword;
    var to := Or(env.contactTo, user);
    if !IsSet(user) || !IsSet(pass) || !IsSet(to) then None
    else Some(Credentials(user.value, pass.value, to.value))
  }

  /** The destination test never fails on its own: whenever the user is set, so is the destination. */
  lemma DestinationTestRedundant(env: Env)
    requires IsSet(env.gmailUser)
    ensures IsSet(Or(env.contactTo, env.gmailUser))
  {
  }
}
