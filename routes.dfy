/**
 * The route guard of the application shell: which element each of the two routes
 * renders, decided by whether an access token is stored.
 */
module Routes {

  import opened Wrappers
  import opened JsStrings
  import opened Browser

  const DashboardPath := "/dashboard"

  /** What a route renders: one of the two pages, or a `<Navigate to=...>` redirect. */
  datatype Element = AuthPageView | DashboardView | NavigateTo(target: string)

  /** `isAuthenticated = localStorage.getItem('accessToken')`, used for its truthiness alone. */
  predicate IsAuthenticated(storage: map<string, string>)
    ensures IsAuthenticated(storage) <==> AccessTokenKey in storage && storage[AccessTokenKey] != ""
  {
    HasAccessToken(storage)
  }

  /** Every character of `t` is a `/` (true of the empty string). */
  predicate AllSlashes(t: string) {
    forall i :: 0 <= i < |t| ==> t[i] == '/'
  }

  /** `path` without its trailing `/` characters: the longest prefix not ending in `/`. */
  function TrimTrailingSlashes(path: string): (r: string)
    ensures |r| <= |path| && r == path[..|r|]
    ensures AllSlashes(path[|r|..])
    ensures r == "" || r[|r| - 1] != '/'
  {
    if |path| > 0 && path[|path| - 1] == '/' then TrimTrailingSlashes(path[..|path| - 1]) else path
  }

  /** Only one place cuts `path` into a prefix not ending in `/` and a run of slashes. */
  lemma TrimIsTheOnlyCut(path: string, i: int)
    requires 0 <= i <= |path| && AllSlashes(path[i..])
    requires path[..i] == "" || path[i - 1] != '/'
    ensures TrimTrailingSlashes(path) == path[..i]
  {
  }

  /**
   * The element rendered at `path`, as React Router 6 matches a pathname against the
   * two routes: letters compare without regard to ASCII case and any trailing `/` are
   * ignored. The entry route matches a pathname of slashes only; it sends a signed-in
   * user to the dashboard and shows the forms otherwise. The dashboard route matches
   * `/dashboard` in any case followed by slashes; it shows the dashboard to a signed-in
   * user and sends anyone else to the entry path. No other pathname matches.
   */
  function RouteElement(path: string, storage: map<string, string>): (e: Option<Element>)
    ensures |path| > 0 && AllSlashes(path) ==>
              e == Some(if IsAuthenticated(storage) then NavigateTo(DashboardPath) else AuthPageView)
    ensures (exists i :: 0 <= i <= |path| && AllSlashes(path[i..]) && Lower(path[..i]) == DashboardPath) ==>
              e == Some(if IsAuthenticated(storage) then DashboardView else NavigateTo(EntryPath))
    ensures !(|path| > 0 && AllSlashes(path)) &&
            !(exists i :: 0 <= i <= |path| && AllSlashes(path[i..]) && Lower(path[..i]) == DashboardPath) ==>
              e == None
  {
    var authenticated := GetItem(storage, AccessTokenKey);
    var route := Lower(TrimTrailingSlashes(path));
    RouteMatching(path);
    if |path| > 0 && route == "" then
      Some(if authenticated.Some? && authenticated.value != "" then NavigateTo("/dashboard") else AuthPageView)
    else if route == "/dashboard" then
      Some(if authenticated.Some? && authenticated.value != "" then DashboardView else NavigateTo("/"))
    else None
  }

  /** How the trimmed, lower-cased pathname decides which route matches. */
  lemma RouteMatching(path: string)
    ensures (|path| > 0 && AllSlashes(path)) <==> (|path| > 0 && Lower(TrimTrailingSlashes(path)) == "")
    ensures (exists i :: 0 <= i <= |path| && AllSlashes(path[i..]) && Lower(path[..i]) == DashboardPath) <==>
              Lower(TrimTrailingSlashes(path)) == DashboardPath
  {
    var r := TrimTrailingSlashes(path);
    if Lower(r) == DashboardPath {
      assert path[..|r|] == r;
    }
    forall i | 0 <= i <= |path| && AllSlashes(path[i..]) && Lower(path[..i]) == DashboardPath
      ensures Lower(r) == DashboardPath
    {
      var q := path[..i];
      assert Lower(q)[|q| - 1] == 'd';
      assert LowerChar(q[|q| - 1]) == 'd';
      TrimIsTheOnlyCut(path, i);
    }
  }

  predicate RendersPage(e: Option<Element>) {
    e.Some? && !e.value.NavigateTo?
  }

  /** A string without upper-case ASCII letters is its own lower-case form. */
  lemma LowerKeepsLowercase(s: string)
    requires forall i :: 0 <= i < |s| ==> !('A' <= s[i] <= 'Z')
    ensures Lower(s) == s
  {
    assert forall i :: 0 <= i < |s| ==> Lower(s)[i] == s[i];
  }

  lemma DashboardPathIsCanonical()
    ensures Lower(TrimTrailingSlashes(DashboardPath)) == DashboardPath
  {
    var d := DashboardPath;
    assert d[|d| - 1] == 'd';
    assert TrimTrailingSlashes(d) == d;
    LowerKeepsLowercase(d);
  }

  /** The lower-case spelling of the two route paths, without a trailing slash. */
  lemma CanonicalRoutes(storage: map<string, string>)
    ensures RouteElement(EntryPath, storage) ==
              Some(if IsAuthenticated(storage) then NavigateTo(DashboardPath) else AuthPageView)
    ensures RouteElement(DashboardPath, storage) ==
              Some(if IsAuthenticated(storage) then DashboardView else NavigateTo(EntryPath))
  {
    assert AllSlashes(EntryPath);
    DashboardPathIsCanonical();
    RouteMatching(DashboardPath);
  }

  /** One more trailing `/` does not change which element a non-empty pathname renders. */
  lemma TrailingSlashIgnored(path: string, storage: map<string, string>)
    requires path != ""
    ensures RouteElement(path + "/", storage) == RouteElement(path, storage)
  {
    var p := path + "/";
    assert p[..|p| - 1] == path;
    RouteMatching(p);
    RouteMatching(path);
    if AllSlashes(path) {
      assert AllSlashes(p);
    }
    if AllSlashes(p) {
      assert forall i :: 0 <= i < |path| ==> path[i] == p[i];
    }
  }

  /** Lower-casing commutes with dropping trailing slashes, since only `/` lower-cases to `/`. */
  lemma {:induction false} LowerTrimCommute(path: string)
    ensures TrimTrailingSlashes(Lower(path)) == Lower(TrimTrailingSlashes(path))
  {
    var l := Lower(path);
    if |path| > 0 {
      assert l[|l| - 1] == LowerChar(path[|path| - 1]);
      assert l[..|l| - 1] == Lower(path[..|path| - 1]);
      LowerTrimCommute(path[..|path| - 1]);
    }
  }

  /** The case of the letters in a pathname does not change which element it renders. */
  lemma CaseIgnored(path: string, storage: map<string, string>)
    ensures RouteElement(Lower(path), storage) == RouteElement(path, storage)
  {
    RouteMatching(path);
    RouteMatching(Lower(path));
    LowerTrimCommute(path);
    LowerIdempotent(TrimTrailingSlashes(path));
    assert AllSlashes(Lower(path)) <==> AllSlashes(path) by {
      assert forall i :: 0 <= i < |path| ==> (Lower(path)[i] == '/' <==> path[i] == '/');
    }
  }

  /**
   * For a fixed store, every pathname that matches a route renders a page at once or
   * redirects once to a route that renders a page: redirects never chain, so they
   * cannot cycle.
   */
  lemma NoRedirectCycle(path: string, storage: map<string, string>)
    requires RouteElement(path, storage).Some?
    ensures var e := RouteElement(path, storage);
            RendersPage(e) ||
            (e.Some? && e.value.NavigateTo? && RendersPage(RouteElement(e.value.target, storage)))
  {
    CanonicalRoutes(storage);
  }

  /** Only the truthiness of `accessToken` matters; `refreshToken` and every other key are ignored. */
  lemma GuardReadsOnlyAccessToken(path: string, s1: map<string, string>, s2: map<string, string>)
    requires HasAccessToken(s1) == HasAccessToken(s2)
    ensures RouteElement(path, s1) == RouteElement(path, s2)
  {
  }

  /**
   * Once the tokens are removed by the interceptor's 401 path, whose navigation reloads
   * the page so that `App` reads the store afresh, the entry path shows the forms
   * rather than redirecting again.
   */
  lemma ClearedStoreShowsForms(storage: map<string, string>)
    ensures RouteElement(EntryPath, storage - {AccessTokenKey, RefreshTokenKey}) == Some(AuthPageView)
    ensures RouteElement(DashboardPath, storage - {AccessTokenKey, RefreshTokenKey}) == Some(NavigateTo(EntryPath))
  {
    CanonicalRoutes(storage - {AccessTokenKey, RefreshTokenKey});
  }

  /** A stored `"undefined"` (a login answer without `accessToken`) opens the dashboard. */
  lemma UndefinedTokenOpensDashboard(storage: map<string, string>)
    ensures RouteElement(DashboardPath, storage[AccessTokenKey := "undefined"]) == Some(DashboardView)
  {
    CanonicalRoutes(storage[AccessTokenKey := "undefined"]);
  }
}
