/**
  Access control in front of every page: which paths the middleware runs
  on, the `authorized` decision, and the redirect of the root path.
 */
module Middleware {
  import opened Common
  import opened Text

  // ---------------------------------------------------------------- matcher

  /** The characters a regular-expression `.` does not match. */
  predicate IsLineTerminator(c: char) {
    c == '\n' || c == '\r' || c as int == 0x2028 || c as int == 0x2029
  }

  /**
    `favicon.ico` read as a regular expression: its `.` is unescaped, so any
    character other than a line terminator stands between "favicon" and "ico".
   */
  predicate FaviconAt(rest: string) {
    |rest| >= 11 && rest[..7] == "favicon" && !IsLineTerminator(rest[7]) && rest[8..11] == "ico"
  }

  /** The negative lookahead `(?!api/auth|_next/static|_next/image|favicon.ico)`. */
  predicate ExcludedPrefix(rest: string) {
    IsPrefix("api/auth", rest) || IsPrefix("_next/static", rest) || IsPrefix("_next/image", rest) || FaviconAt(rest)
  }

  /** A path starts with "/" + p exactly when it starts with "/" and the rest starts with p. */
  lemma SlashPrefix(p: string, path: string)
    requires |path| >= 1
    ensures IsPrefix("/" + p, path) <==> path[0] == '/' && IsPrefix(p, path[1..])
  {
    if IsPrefix("/" + p, path) {
      assert path[0] == path[..|p| + 1][0];
      assert path[1..][..|p|] == path[..|p| + 1][1..];
    }
    if path[0] == '/' && IsPrefix(p, path[1..]) {
      assert path[..|p| + 1] == [path[0]] + path[1..][..|p|];
    }
  }

  /** The literal text "favicon.ico" matches the pattern `favicon.ico`. */
  lemma FaviconLiteral(rest: string)
    ensures IsPrefix("favicon.ico", rest) ==> FaviconAt(rest)
  {
    if IsPrefix("favicon.ico", rest) {
      assert rest[..7] == rest[..11][..7];
      assert rest[8..11] == rest[..11][8..11];
      assert rest[7] == rest[..11][7];
    }
  }

  /** The matcher `/((?!api/auth|_next/static|_next/image|favicon.ico).*)` against a whole path. */
  predicate MiddlewareRuns(path: string) {
    |path| >= 1 && path[0] == '/' && !ExcludedPrefix(path[1..])
      && forall i :: 1 <= i < |path| ==> !IsLineTerminator(path[i])
  }

  /** Where the middleware runs, the path starts with "/" and with none of the excluded prefixes. */
  lemma MatcherExcludes(path: string)
    ensures MiddlewareRuns(path) ==> IsPrefix("/", path)
    ensures MiddlewareRuns(path) ==> !IsPrefix("/api/auth", path) && !IsPrefix("/_next/static", path) && !IsPrefix("/_next/image", path)
    ensures MiddlewareRuns(path) ==> !IsPrefix("/favicon.ico", path)
  {
    if |path| >= 1 {
      SlashPrefix("", path);
      SlashPrefix("api/auth", path);
      SlashPrefix("_next/static", path);
      SlashPrefix("_next/image", path);
      SlashPrefix("favicon.ico", path);
      FaviconLiteral(path[1..]);
    }
  }

  /** Every single-line path that starts with "/" and avoids the excluded prefixes goes through the middleware. */
  lemma MatcherIncludes(path: string)
    ensures IsPrefix("/", path) && !ExcludedPrefix(path[1..]) && (forall i :: 0 <= i < |path| ==> !IsLineTerminator(path[i])) ==> MiddlewareRuns(path)
  {
    if IsPrefix("/", path) {
      SlashPrefix("", path);
    }
  }

  /** Pages and API routes go through the middleware. */
  lemma MatcherRunsOnPages()
    ensures MiddlewareRuns("/")
    ensures MiddlewareRuns("/login")
  {
  }

  /** NextAuth's own routes and static assets do not; nor does any "favicon?ico", since the dot is a wildcard. */
  lemma MatcherSkipsAssets()
    ensures !MiddlewareRuns("/api/auth/session")
    ensures !MiddlewareRuns("/favicon.ico")
    ensures !MiddlewareRuns("/favicon-ico")
  {
    assert IsPrefix("/api/auth", "/api/auth/session") by {
      assert "/api/auth/session"[..9] == "/api/auth";
    }
    assert IsPrefix("/favicon.ico", "/favicon.ico");
    var rest := "/favicon-ico"[1..];
    assert rest == "favicon-ico";
    assert FaviconAt(rest) by {
      assert rest[..7] == "favicon";
      assert rest[8..11] == "ico";
    }
  }

  // ---------------------------------------------------------------- authorized

  /**
    The `authorized` callback. The login page is open to everyone, the debug
    page is open without a token only when NODE_ENV is "development", and
    every other path needs a token.
   */
  function Authorized(path: string, hasToken: bool, nodeEnv: Option<string>): (ok: bool)
    ensures path == "/login" ==> ok
    ensures hasToken ==> ok
    ensures !hasToken ==> (ok <==> path == "/login" || (path == "/debug" && nodeEnv == Some("development")))
  {
    if path == "/login" then true
    else if path == "/debug" && nodeEnv == Some("development") then true
    else hasToken
  }

  /** Having a token never reduces access. */
  lemma TokenNeverReducesAccess(path: string, nodeEnv: Option<string>)
    ensures Authorized(path, false, nodeEnv) ==> Authorized(path, true, nodeEnv)
  {
  }

  // ---------------------------------------------------------------- root redirect

  datatype Action = Next | RedirectTo(path: string)

  /** The middleware function: the root path without a token goes to the login page; everything else passes. */
  function RootRedirect(path: string, hasToken: bool): (a: Action)
    ensures a.RedirectTo? <==> path == "/" && !hasToken
    ensures a.RedirectTo? ==> a.path == "/login"
  {
    if path == "/" && !hasToken then RedirectTo("/login") else Next
  }

  /** For any request the `authorized` callback admits, the root redirect does not fire. */
  lemma AuthorizedRootPasses(path: string, hasToken: bool, nodeEnv: Option<string>)
    ensures Authorized(path, hasToken, nodeEnv) ==> RootRedirect(path, hasToken) == Next
  {
  }
}
