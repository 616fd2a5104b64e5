/** The page a sign-in returns to: it runs the user sync and then sends the
    user on to the page named by the `origin` query parameter, to the
    dashboard, or, when the sync says UNAUTHORIZED, to sign-in. These are
    the query's handlers; the query retries a failed sync without limit,
    and when its error handler runs is not part of this model. */
module AuthCallback {
  import opened Common
  import opened AppRouter

  /** `searchParams.get("origin")`: the first value under that name. */
  function OriginParam(query: seq<(string, string)>): (r: Option<string>)
    ensures r.Some? ==> exists i :: 0 <= i < |query| && query[i] == ("origin", r.value)
                          && forall j :: 0 <= j < i ==> query[j].0 != "origin"
    ensures r.None? <==> forall i :: 0 <= i < |query| ==> query[i].0 != "origin"
  {
    if query == [] then None
    else if query[0].0 == "origin" then Some(query[0].1)
    else
      var rest := OriginParam(query[1..]);
      assert forall i :: 0 < i < |query| ==> query[i] == query[1..][i - 1];
      if rest.Some? then
        assert exists i :: 0 <= i < |query| && query[i] == ("origin", rest.value)
                  && forall j :: 0 <= j < i ==> query[j].0 != "origin" by {
          var i :| 0 <= i < |query[1..]| && query[1..][i] == ("origin", rest.value)
                   && forall j :: 0 <= j < i ==> query[1..][j].0 != "origin";
          assert query[i + 1] == ("origin", rest.value);
          forall j | 0 <= j < i + 1 ensures query[j].0 != "origin" {
            if j > 0 { assert query[j] == query[1..][j - 1]; }
          }
        }
        rest
      else rest
  }

  /** `onSuccess`: nowhere unless the sync succeeded; then `/<origin>` for
      a non-empty origin, else `/dashboard`. */
  function SuccessRoute(success: bool, origin: Option<string>): (r: Option<string>)
    ensures !success ==> r.None?
    ensures success ==> r.Some? && |r.value| > 0 && r.value[0] == '/'
    ensures success && origin.Some? && origin.value != "" ==> r == Some("/" + origin.value)
    ensures success && (origin.None? || origin.value == "") ==> r == Some("/dashboard")
  {
    if !success then None
    else if origin.Some? && origin.value != "" then Some("/" + origin.value)
    else Some("/dashboard")
  }

  /** `onError`: sign-in for UNAUTHORIZED, otherwise stay. */
  function ErrorRoute(code: Option<string>): (r: Option<string>)
    ensures r.Some? <==> code == Some("UNAUTHORIZED")
    ensures r.Some? ==> r.value == "/sign-in"
  {
    if code == Some("UNAUTHORIZED") then Some("/sign-in") else None
  }

  /** Of the router's errors, only the missing-identity one leads to
      sign-in; a query naming an origin lands on that page, and one
      without lands on the dashboard. */
  lemma RoutesOfRouterOutcomes(origin: string)
    ensures ErrorRoute(Some(CodeOf(Unauthorized))) == Some("/sign-in")
    ensures ErrorRoute(Some(CodeOf(NotFound))) == None
    ensures ErrorRoute(Some(CodeOf(InternalServerError))) == None
    ensures origin != "" ==> SuccessRoute(true, OriginParam([("origin", origin)])) == Some("/" + origin)
    ensures SuccessRoute(true, OriginParam([])) == Some("/dashboard")
  {
    assert "UNAUTHORIZED" != "NOT_FOUND" by { assert "UNAUTHORIZED"[0] != "NOT_FOUND"[0]; }
    assert "UNAUTHORIZED" != "INTERNAL_SERVER_ERROR" by { assert "UNAUTHORIZED"[0] != "INTERNAL_SERVER_ERROR"[0]; }
    assert OriginParam([("origin", origin)]) == Some(origin);
  }
}
