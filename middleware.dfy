/** The dashboard route guard (middleware.js): a decision from the request
    path and the `user_session` cookie. Reading and parsing the cookie is
    outside the model; the session is its outcome. */
module Middleware {
  import opened Common

  /** The cookie is absent, fails to parse (or parses to a value whose
      role cannot be read), or parses to an object with this role; `None`
      is an object without one. */
  datatype Session = NoCookie | Unparseable | Parsed(role: Option<string>)

  datatype Decision = Next | RedirectToAuth

  const StudentPrefix: string := "/dashboard/student"
  const RecruiterPrefix: string := "/dashboard/recruiter"
  const AdminPrefix: string := "/dashboard/admin"

  const ProtectedRoutes: seq<string> := [StudentPrefix, RecruiterPrefix, AdminPrefix]

  /** `protectedRoutes.some(route => pathname.startsWith(route))`. */
  predicate IsProtected(path: string) {
    exists i :: 0 <= i < |ProtectedRoutes| && StartsWith(path, ProtectedRoutes[i])
  }

  /** The role check of one prefix passes: the path is outside the prefix
      or the role is the prefix's own. */
  predicate RoleAllows(path: string, prefix: string, role: Option<string>, wanted: string) {
    !StartsWith(path, prefix) || role == Some(wanted)
  }

  function Decide(path: string, session: Session): (d: Decision)
    ensures !IsProtected(path) ==> d == Next
    ensures IsProtected(path) && !session.Parsed? ==> d == RedirectToAuth
    ensures IsProtected(path) && session.Parsed? ==>
              (d == Next <==>
                 RoleAllows(path, StudentPrefix, session.role, "student")
                 && RoleAllows(path, RecruiterPrefix, session.role, "recruiter")
                 && RoleAllows(path, AdminPrefix, session.role, "admin"))
  {
    if !IsProtected(path) then Next
    else match session
      case NoCookie => RedirectToAuth
      case Unparseable => RedirectToAuth
      case Parsed(role) =>
        if StartsWith(path, StudentPrefix) && role != Some("student") then RedirectToAuth
        else if StartsWith(path, RecruiterPrefix) && role != Some("recruiter") then RedirectToAuth
        else if StartsWith(path, AdminPrefix) && role != Some("admin") then RedirectToAuth
        else Next
  }

  /** The three dashboard prefixes exclude each other. */
  lemma PrefixesDisjoint(path: string)
    ensures !(StartsWith(path, StudentPrefix) && StartsWith(path, RecruiterPrefix))
    ensures !(StartsWith(path, StudentPrefix) && StartsWith(path, AdminPrefix))
    ensures !(StartsWith(path, RecruiterPrefix) && StartsWith(path, AdminPrefix))
  {
    assert StudentPrefix[11] == 's' && RecruiterPrefix[11] == 'r' && AdminPrefix[11] == 'a';
  }

  /** Each dashboard admits exactly a session with its own role. */
  lemma DashboardRole(path: string, session: Session)
    ensures StartsWith(path, StudentPrefix) ==>
              (Decide(path, session) == Next <==> session == Parsed(Some("student")))
    ensures StartsWith(path, RecruiterPrefix) ==>
              (Decide(path, session) == Next <==> session == Parsed(Some("recruiter")))
    ensures StartsWith(path, AdminPrefix) ==>
              (Decide(path, session) == Next <==> session == Parsed(Some("admin")))
  {
    PrefixesDisjoint(path);
    assert StartsWith(path, StudentPrefix) ==> StartsWith(path, ProtectedRoutes[0]);
    assert StartsWith(path, RecruiterPrefix) ==> StartsWith(path, ProtectedRoutes[1]);
    assert StartsWith(path, AdminPrefix) ==> StartsWith(path, ProtectedRoutes[2]);
  }

  /** A protected path lets through only a parsed session whose role is
      the one its prefix names. */
  lemma NextMeansAuthorised(path: string, session: Session)
    requires IsProtected(path) && Decide(path, session) == Next
    ensures session.Parsed? && session.role.Some?
    ensures session.role.value in ["student", "recruiter", "admin"]
  {
    var i :| 0 <= i < |ProtectedRoutes| && StartsWith(path, ProtectedRoutes[i]);
    DashboardRole(path, session);
  }

  /** The prefix test is plain `startsWith`: `/dashboard/students` is a
      student route, refused to a recruiter and passed for a student. */
  lemma StudentsPathGuarded()
    ensures Decide("/dashboard/students", Parsed(Some("recruiter"))) == RedirectToAuth
    ensures Decide("/dashboard/students", Parsed(Some("student"))) == Next
  {
    assert StartsWith("/dashboard/students", StudentPrefix);
    DashboardRole("/dashboard/students", Parsed(Some("recruiter")));
    DashboardRole("/dashboard/students", Parsed(Some("student")));
  }
}
