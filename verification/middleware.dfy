/**
 * Maintenance mode (middleware.ts). With `MAINTENANCE_MODE` set to "true", only
 * framework assets, crawler files, the maintenance page and the payment webhooks pass;
 * other API calls are refused with 503 and every other page shows the maintenance page.
 * The setting is the `flag` parameter (`None` when unset).
 */
module Middleware {
  import opened Wrappers
  import opened Strings
  import opened Http

  const MaintenancePath := "/maintenance"
  const MaintenanceMessage := "StopTheTea is undergoing maintenance. Please try again later."

  /** The path prefixes that pass during maintenance. */
  const AllowedPrefixes: seq<string> := ["/_next", "/static", "/favicon", "/robots", "/sitemap", MaintenancePath, "/api/webhooks"]

  /** `process.env.MAINTENANCE_MODE === "true"` */
  predicate MaintenanceEnabled(flag: Option<string>) {
    flag == Some("true")
  }

  /** `allowPath` */
  function AllowPath(pathname: string): (r: bool)
    ensures r <==> exists i :: 0 <= i < |AllowedPrefixes| && StartsWith(pathname, AllowedPrefixes[i])
  {
    var allowed :=
      StartsWith(pathname, "/_next") || StartsWith(pathname, "/static") || StartsWith(pathname, "/favicon") ||
      StartsWith(pathname, "/robots") || StartsWith(pathname, "/sitemap") || pathname == MaintenancePath ||
      StartsWith(pathname, MaintenancePath) || StartsWith(pathname, "/api/webhooks");
    assert pathname == MaintenancePath ==> StartsWith(pathname, MaintenancePath);
    assert allowed ==> exists i :: 0 <= i < |AllowedPrefixes| && StartsWith(pathname, AllowedPrefixes[i]) by {
      if StartsWith(pathname, "/_next") { assert StartsWith(pathname, AllowedPrefixes[0]); }
      else if StartsWith(pathname, "/static") { assert StartsWith(pathname, AllowedPrefixes[1]); }
      else if StartsWith(pathname, "/favicon") { assert StartsWith(pathname, AllowedPrefixes[2]); }
      else if StartsWith(pathname, "/robots") { assert StartsWith(pathname, AllowedPrefixes[3]); }
      else if StartsWith(pathname, "/sitemap") { assert StartsWith(pathname, AllowedPrefixes[4]); }
      else if StartsWith(pathname, MaintenancePath) { assert StartsWith(pathname, AllowedPrefixes[5]); }
      else if StartsWith(pathname, "/api/webhooks") { assert StartsWith(pathname, AllowedPrefixes[6]); }
    }
    allowed
  }

  /** `middleware`: pass through, refuse an API call with 503, or show the maintenance page. */
  function Route(flag: Option<string>, pathname: string): (r: Response)
    ensures !MaintenanceEnabled(flag) ==> r == Continue
    ensures r == Continue <==> !MaintenanceEnabled(flag) || AllowPath(pathname)
    ensures r == Reply(503, MaintenanceMessage) <==>
              MaintenanceEnabled(flag) && !AllowPath(pathname) && StartsWith(pathname, "/api")
    ensures r.Continue? || r == Reply(503, MaintenanceMessage) || r == Rewrite(MaintenancePath, "")
  {
    if !MaintenanceEnabled(flag) then Continue
    else if AllowPath(pathname) then Continue
    else if StartsWith(pathname, "/api") then Reply(503, MaintenanceMessage)
    else Rewrite(MaintenancePath, "")
  }

  /** The payment webhooks are never blocked. */
  lemma WebhooksPass(flag: Option<string>, pathname: string)
    requires StartsWith(pathname, "/api/webhooks")
    ensures Route(flag, pathname) == Continue
  {
    assert StartsWith(pathname, AllowedPrefixes[6]);
  }

  /** The maintenance page is served rather than rewritten again: a rewrite never loops. */
  lemma NoRewriteLoop(flag: Option<string>, pathname: string)
    requires Route(flag, pathname).Rewrite?
    ensures Route(flag, Route(flag, pathname).path) == Continue
  {
    assert StartsWith(MaintenancePath, AllowedPrefixes[5]);
  }
}
