/**
 * `validateEnv`: the environment variables the backend needs, checked for
 * length, with defaults for the cookie name and the front-end origin.
 * On failure the process prints the issues and exits; here the issues are
 * returned.
 */
module Config {
  import opened Wrappers
  import opened Strings
  import opened Runtime

  /** The variables as read from the environment; `None` when unset. */
  datatype EnvVars = EnvVars(
    sessionSecret: Option<string>,
    adminUser: Option<string>,
    adminPassHash: Option<string>,
    cookieName: Option<string>,
    frontendOrigin: Option<string>)

  datatype Env = Env(
    sessionSecret: string,
    adminUser: string,
    adminPassHash: string,
    cookieName: string,
    frontendOrigin: string)

  const MinSecretLength: nat := 16
  const MinPassHashLength: nat := 20
  const DefaultCookieName: string := "flex_admin"
  const DefaultFrontendOrigin: string := "http://localhost:5173"
  const LocalPrefix: string := "http://localhost"

  datatype EnvIssue = BadSessionSecret | BadAdminUser | BadPassHash | BadFrontendOrigin

  /** A front-end origin is a URL the URL parser accepts, or anything starting with the local prefix. */
  predicate OriginAcceptable(s: string, p: Platform) {
    p.urlHostname(s).Some? || StartsWith(s, LocalPrefix)
  }

  /** Whether the environment breaks the constraint behind `issue`; an unset required variable breaks it. */
  predicate Breaks(env: EnvVars, p: Platform, issue: EnvIssue) {
    match issue
    case BadSessionSecret => env.sessionSecret.None? || |env.sessionSecret.value| < MinSecretLength
    case BadAdminUser => env.adminUser.None? || |env.adminUser.value| < 1
    case BadPassHash => env.adminPassHash.None? || |env.adminPassHash.value| < MinPassHashLength
    case BadFrontendOrigin => env.frontendOrigin.Some? && !OriginAcceptable(env.frontendOrigin.value, p)
  }

  function CheckOne(env: EnvVars, p: Platform, issue: EnvIssue): seq<EnvIssue> {
    if Breaks(env, p, issue) then [issue] else []
  }

  function EnvIssues(env: EnvVars, p: Platform): seq<EnvIssue> {
    CheckOne(env, p, BadSessionSecret) + CheckOne(env, p, BadAdminUser)
    + CheckOne(env, p, BadPassHash) + CheckOne(env, p, BadFrontendOrigin)
  }

  lemma EnvIssuesExact(env: EnvVars, p: Platform)
    ensures forall issue :: issue in EnvIssues(env, p) <==> Breaks(env, p, issue)
  {
    forall issue: EnvIssue
      ensures issue in EnvIssues(env, p) <==> Breaks(env, p, issue)
    {
      var parts := [CheckOne(env, p, BadSessionSecret), CheckOne(env, p, BadAdminUser),
                    CheckOne(env, p, BadPassHash), CheckOne(env, p, BadFrontendOrigin)];
      assert EnvIssues(env, p) == parts[0] + parts[1] + parts[2] + parts[3];
    }
  }

  /** `Env.safeParse(process.env)`: the configuration with its defaults, or every broken constraint. */
  function ValidateEnv(env: EnvVars, p: Platform): (r: Result<Env, seq<EnvIssue>>)
    ensures r.Success? <==> forall issue :: !Breaks(env, p, issue)
    ensures r.Success? ==> (
      && |r.value.sessionSecret| >= MinSecretLength
      && |r.value.adminUser| >= 1
      && |r.value.adminPassHash| >= MinPassHashLength
      && Some(r.value.sessionSecret) == env.sessionSecret
      && Some(r.value.adminUser) == env.adminUser
      && Some(r.value.adminPassHash) == env.adminPassHash
      && r.value.cookieName == env.cookieName.GetOr(DefaultCookieName)
      && r.value.frontendOrigin == env.frontendOrigin.GetOr(DefaultFrontendOrigin)
      && (env.frontendOrigin.Some? ==> OriginAcceptable(r.value.frontendOrigin, p)))
    ensures r.Failure? ==> |r.error| > 0 && forall issue :: issue in r.error <==> Breaks(env, p, issue)
  {
    EnvIssuesExact(env, p);
    var issues := EnvIssues(env, p);
    if |issues| == 0 then
      assert !Breaks(env, p, BadSessionSecret) && !Breaks(env, p, BadAdminUser);
      assert !Breaks(env, p, BadPassHash) && !Breaks(env, p, BadFrontendOrigin);
      Success(Env(env.sessionSecret.value, env.adminUser.value, env.adminPassHash.value,
                  env.cookieName.GetOr(DefaultCookieName), env.frontendOrigin.GetOr(DefaultFrontendOrigin)))
    else
      assert issues[0] in issues;
      Failure(issues)
  }

  /** A secret of 15 characters, or a missing one, stops the start-up whatever the other variables say. */
  lemma ShortSecretRejected(env: EnvVars, p: Platform)
    requires env.sessionSecret.None? || |env.sessionSecret.value| < MinSecretLength
    ensures ValidateEnv(env, p).Failure? && BadSessionSecret in ValidateEnv(env, p).error
  {
  }

  /** Any origin starting with `http://localhost` is accepted, whether or not it parses as a URL. */
  lemma LocalOriginAccepted(env: EnvVars, p: Platform)
    requires env.frontendOrigin.Some? && StartsWith(env.frontendOrigin.value, LocalPrefix)
    ensures !Breaks(env, p, BadFrontendOrigin)
  {
  }

  /** With the three secrets well formed and the two optional variables unset, the defaults apply. */
  lemma DefaultsApply(env: EnvVars, p: Platform)
    requires env.sessionSecret.Some? && |env.sessionSecret.value| >= MinSecretLength
    requires env.adminUser.Some? && |env.adminUser.value| >= 1
    requires env.adminPassHash.Some? && |env.adminPassHash.value| >= MinPassHashLength
    requires env.cookieName.None? && env.frontendOrigin.None?
    ensures ValidateEnv(env, p).Success?
    ensures ValidateEnv(env, p).value.cookieName == "flex_admin"
    ensures ValidateEnv(env, p).value.frontendOrigin == "http://localhost:5173"
  {
    assert forall issue :: !Breaks(env, p, issue);
  }
}
