/**
  The credentials sign-in and the NextAuth callbacks: checking the admin
  credentials, copying the role into the token and the session, and keeping
  redirects on the site's own origin.
 */
module Auth {
  import opened Common
  import opened Text

  // ---------------------------------------------------------------- authorize

  /** The credentials object; a missing field is None. */
  datatype Credentials = Credentials(username: Option<string>, password: Option<string>)

  /** ADMIN_USERNAME and ADMIN_PASSWORD; an unset variable is None. */
  datatype AdminConfig = AdminConfig(username: Option<string>, password: Option<string>)

  datatype User = User(id: string, name: string, email: string, role: string)

  /** The one user a successful sign-in yields. */
  const Admin := User("1", "Admin", "admin@monitor.local", "admin")

  /** `credentials?.username` */
  function UsernameOf(creds: Option<Credentials>): Option<string> {
    if creds.Some? then creds.value.username else None
  }

  /** `credentials?.password` */
  function PasswordOf(creds: Option<Credentials>): Option<string> {
    if creds.Some? then creds.value.password else None
  }

  /**
    `authorize` as written: the admin user exactly when both fields equal the
    configured values with `===`, under which an absent field equals an unset
    variable.
   */
  function AuthorizeAsWritten(creds: Option<Credentials>, config: AdminConfig): (u: Option<User>)
    ensures u.Some? <==> UsernameOf(creds) == config.username && PasswordOf(creds) == config.password
    ensures u.Some? ==> u.value == Admin
  {
    if UsernameOf(creds) == config.username && PasswordOf(creds) == config.password then Some(Admin) else None
  }

  /** With neither variable set, a sign-in that sends no username and no password succeeds. */
  lemma UnsetConfigAdmitsMissingCredentials()
    ensures AuthorizeAsWritten(Some(Credentials(None, None)), AdminConfig(None, None)) == Some(Admin)
    ensures AuthorizeAsWritten(None, AdminConfig(None, None)) == Some(Admin)
  {
  }

  /** `authorize` that admits only the configured credentials, and nobody while they are unset. */
  function Authorize(creds: Option<Credentials>, config: AdminConfig): (u: Option<User>)
    ensures u.Some? <==>
      config.username.Some? && config.password.Some?
      && UsernameOf(creds) == config.username && PasswordOf(creds) == config.password
    ensures u.Some? ==> u.value == Admin
  {
    if config.username.None? || config.password.None? then None else AuthorizeAsWritten(creds, config)
  }

  /** A successful sign-in presented both a username and a password. */
  lemma AuthorizeNeedsCredentials(creds: Option<Credentials>, config: AdminConfig)
    ensures Authorize(creds, config).Some? ==>
      creds.Some? && creds.value.username.Some? && creds.value.password.Some?
  {
  }

  /** Once both variables are set, the two agree. */
  lemma AuthorizeAgreesWhenConfigured(creds: Option<Credentials>, config: AdminConfig)
    requires config.username.Some? && config.password.Some?
    ensures Authorize(creds, config) == AuthorizeAsWritten(creds, config)
  {
  }

  // ---------------------------------------------------------------- token and session

  /** The JWT's claims that the callbacks read or write. */
  datatype Token = Token(sub: Option<string>, name: Option<string>, email: Option<string>, role: Option<string>)

  /** The `jwt` callback: on sign-in the user's role is copied into the token; otherwise the token is returned unchanged. */
  function Jwt(token: Token, user: Option<User>): (t: Token)
    ensures user.None? ==> t == token
    ensures user.Some? ==> t.role == Some(user.value.role)
    ensures t.sub == token.sub && t.name == token.name && t.email == token.email
  {
    if user.Some? then token.(role := Some(user.value.role)) else token
  }

  datatype SessionUser = SessionUser(name: Option<string>, email: Option<string>, id: Option<string>, role: Option<string>)

  datatype Session = Session(user: SessionUser, expires: string)

  /** The `session` callback: with a token, the user's id becomes the token's subject and the role the token's role. */
  function SessionOf(session: Session, token: Option<Token>): (s: Session)
    ensures token.None? ==> s == session
    ensures token.Some? ==> s.user.id == token.value.sub && s.user.role == token.value.role
    ensures s.user.name == session.user.name && s.user.email == session.user.email && s.expires == session.expires
  {
    match token
    case None => session
    case Some(t) => session.(user := session.user.(id := t.sub, role := t.role))
  }

  /** After a sign-in, every session built from the token carries the admin role and the token's subject. */
  lemma SignedInSessionIsAdmin(session: Session, token: Token)
    ensures SessionOf(session, Some(Jwt(token, Some(Admin)))).user.role == Some("admin")
    ensures SessionOf(session, Some(Jwt(token, Some(Admin)))).user.id == token.sub
  {
  }

  // ---------------------------------------------------------------- redirect

  /**
    The `redirect` callback; `origin(url)` is the origin of `new URL(url)`,
    None when that constructor throws (and the callback with it). A relative
    path is joined to the base URL, an absolute URL on the base origin is
    kept, and any other target becomes the base URL.
   */
  function Redirect(url: string, baseUrl: string, origin: string -> Option<string>): (r: Option<string>)
    ensures IsPrefix("/", url) ==> r == Some(baseUrl + url)
    ensures !IsPrefix("/", url) ==> (r.None? <==> origin(url).None?)
    ensures r.Some? && !IsPrefix("/", url) ==>
      (r.value == url && origin(url) == Some(baseUrl)) || (r.value == baseUrl && origin(url) != Some(baseUrl))
    ensures r.Some? ==> r.value == baseUrl || IsPrefix(baseUrl + "/", r.value) || origin(r.value) == Some(baseUrl)
  {
    if IsPrefix("/", url) then
      assert (baseUrl + url)[..|baseUrl| + 1] == baseUrl + "/";
      Some(baseUrl + url)
    else
      match origin(url)
      case None => None
      case Some(o) => if o == baseUrl then Some(url) else Some(baseUrl)
  }
}
