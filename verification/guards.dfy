/** The two route guards: the root middleware (src/middleware.ts) and the
    variant under the admin folder (src/app/admin/middleware.ts). Each looks at
    the request path and whether an "auth-token" cookie exists; a cookie that
    exists is truthy even with an empty value. Both files export the matcher
    `/admin/:path*`, so the framework calls a guard only for "/admin" itself
    and the paths below it. */
module Guards {
  import opened Common

  datatype Decision = Next | Redirect(to: string)

  const AdminPrefix: string := "/admin"
  const AdminLogin: string := "/admin/login"
  const RootLogin: string := "/login"

  /** src/middleware.ts: admin paths other than the login page need a token. */
  function RootGuard(path: string, hasToken: bool): (d: Decision)
    ensures d.Redirect? ==> d.to == AdminLogin
    ensures hasToken ==> d == Next
    ensures path == AdminLogin ==> d == Next
  {
    if StartsWith(path, AdminPrefix) && path != AdminLogin && !hasToken then Redirect(AdminLogin) else Next
  }

  /** src/app/admin/middleware.ts: every admin path needs a token, the login
      page included, and the redirect goes to "/login". */
  function AdminGuard(path: string, hasToken: bool): (d: Decision)
    ensures d.Redirect? ==> d.to == RootLogin
    ensures hasToken ==> d == Next
    ensures !StartsWith(path, AdminPrefix) ==> d == Next
  {
    if StartsWith(path, AdminPrefix) && !hasToken then Redirect(RootLogin) else Next
  }

  /** The matcher `/admin/:path*`: "/admin" followed by zero or more segments. */
  predicate MatchesAdmin(path: string)
  {
    path == AdminPrefix || StartsWith(path, AdminPrefix + "/")
  }

  /** Every matched path passes the guards' own prefix test. */
  lemma MatchedHasPrefix(path: string)
    requires MatchesAdmin(path)
    ensures StartsWith(path, AdminPrefix)
  {
    if path != AdminPrefix {
      assert path[..|AdminPrefix|] == (AdminPrefix + "/")[..|AdminPrefix|];
    }
  }

  /** What a request meets with the root middleware installed: unmatched paths
      never reach it; a matched path is redirected exactly when it is not the
      login page and carries no token. */
  function RootMiddleware(path: string, hasToken: bool): (d: Decision)
    ensures d.Redirect? <==> MatchesAdmin(path) && path != AdminLogin && !hasToken
    ensures d.Redirect? ==> d == Redirect(AdminLogin)
  {
    if MatchesAdmin(path) then
      MatchedHasPrefix(path);
      RootGuard(path, hasToken)
    else Next
  }

  /** The same for the variant under the admin folder, read with its matcher. */
  function AdminMiddleware(path: string, hasToken: bool): (d: Decision)
    ensures d.Redirect? <==> MatchesAdmin(path) && !hasToken
    ensures d.Redirect? ==> d == Redirect(RootLogin)
  {
    if MatchesAdmin(path) then
      MatchedHasPrefix(path);
      AdminGuard(path, hasToken)
    else Next
  }

  /** The variant is stricter: whatever it lets through, the root guard lets
      through, and the two disagree only on the admin login page without a token. */
  lemma GuardsCompared(path: string, hasToken: bool)
    ensures AdminGuard(path, hasToken).Next? ==> RootGuard(path, hasToken).Next?
    ensures RootGuard(path, hasToken).Next? != AdminGuard(path, hasToken).Next? <==> path == AdminLogin && !hasToken
  {
    if path == AdminLogin {
      assert StartsWith(path, AdminPrefix);
    }
  }

  /** Each guard redirects exactly the requests its condition describes, and,
      behind the matcher, exactly the matched ones among them. */
  lemma RedirectIff(path: string, hasToken: bool)
    ensures RootGuard(path, hasToken).Redirect? <==> StartsWith(path, AdminPrefix) && path != AdminLogin && !hasToken
    ensures AdminGuard(path, hasToken).Redirect? <==> StartsWith(path, AdminPrefix) && !hasToken
    ensures RootMiddleware(path, hasToken).Redirect? <==> RootGuard(path, hasToken).Redirect? && MatchesAdmin(path)
    ensures AdminMiddleware(path, hasToken).Redirect? <==> AdminGuard(path, hasToken).Redirect? && MatchesAdmin(path)
  {
    if MatchesAdmin(path) {
      MatchedHasPrefix(path);
    }
  }

  /** The guards' own test is a plain prefix test, so on its own it would
      redirect "/administrator"; the matcher keeps that path away from them. */
  lemma PrefixIsNotASegment()
    ensures RootGuard("/administrator", false) == Redirect(AdminLogin)
    ensures AdminGuard("/administrator", false) == Redirect(RootLogin)
    ensures !MatchesAdmin("/administrator")
    ensures RootMiddleware("/administrator", false) == Next
    ensures AdminMiddleware("/administrator", false) == Next
  {
    assert StartsWith("/administrator", AdminPrefix) by {
      assert "/administrator"[..6] == "/admin";
    }
    assert !StartsWith("/administrator", AdminPrefix + "/") by {
      assert "/administrator"[6] != (AdminPrefix + "/")[6];
    }
  }

  /** The root guard's redirect target is itself let through, so one redirect
      settles; the variant's target lies outside "/admin" and is let through too. */
  lemma RedirectTargetsPass(path: string, hasToken: bool)
    ensures RootGuard(path, hasToken).Redirect? ==> RootGuard(RootGuard(path, hasToken).to, hasToken) == Next
    ensures AdminGuard(path, hasToken).Redirect? ==> AdminGuard(AdminGuard(path, hasToken).to, hasToken) == Next
  {
    assert !StartsWith(RootLogin, AdminPrefix) by {
      assert RootLogin[1] != AdminPrefix[1];
    }
  }
}
