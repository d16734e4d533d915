/** lib/auth/roles.ts: a user's role is read from their profile row, and the
    role chooses the dashboard a user lands on after signing in. The query is
    the parameter `query`. */
module Roles {
  import opened Wrappers
  import opened Text

  const DefaultDashboardPath: string := "/dashboard"

  /** What `profiles.select("role").eq("id", userId).maybeSingle()` returned:
      an error, or the row's role column when there is a row. */
  datatype RoleQuery = QueryError | NoRow | Row(role: Option<string>)

  /** `getUserRole`: null on a query error, a missing row or a falsy role; the
      stored text otherwise, cast to a role without any check. */
  function GetUserRole(query: RoleQuery): (r: Option<string>)
    ensures r.None? <==> query.QueryError? || query.NoRow? || query.role.None? || query.role.value == ""
    ensures r.Some? ==> r == query.role
  {
    match query
    case QueryError => None
    case NoRow => None
    case Row(role) => if role.Some? && role.value != "" then role else None
  }

  /** The role-to-path chain of `getPostLoginRedirectPath`. */
  function RedirectPath(role: Option<string>): (path: string)
    ensures role == Some("patient") ==> path == "/dashboard/patient"
    ensures role == Some("therapist") ==> path == "/dashboard/therapist"
    ensures role == Some("admin") ==> path == "/dashboard/admin"
    ensures role !in {Some("patient"), Some("therapist"), Some("admin")} ==> path == DefaultDashboardPath
  {
    if role == Some("patient") then "/dashboard/patient"
    else if role == Some("therapist") then "/dashboard/therapist"
    else if role == Some("admin") then "/dashboard/admin"
    else DefaultDashboardPath
  }

  /** `getPostLoginRedirectPath(supabase, userId)`. */
  function GetPostLoginRedirectPath(query: RoleQuery): (path: string)
    ensures query.QueryError? ==> path == DefaultDashboardPath
    ensures StartsWith(path, DefaultDashboardPath)
  {
    RedirectPath(GetUserRole(query))
  }

  /** The three roles land on three different dashboards, none of them the
      default one. */
  lemma RolePathsDistinct(a: string, b: string)
    requires a in {"patient", "therapist", "admin"} && b in {"patient", "therapist", "admin"}
    ensures RedirectPath(Some(a)) == RedirectPath(Some(b)) <==> a == b
    ensures RedirectPath(Some(a)) != DefaultDashboardPath
  {
  }

  /** An unrecognised role, such as an empty or unexpected value in the row,
      lands on the default dashboard. */
  lemma UnknownRoleGetsDefault(query: RoleQuery)
    requires query.Row? && query.role.Some? && query.role.value !in {"patient", "therapist", "admin"}
    ensures GetPostLoginRedirectPath(query) == DefaultDashboardPath
  {
  }
}
