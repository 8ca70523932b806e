/**
  The application's page-guard table and the facts it implies once read
  by the guard of module RouteGuard.
 */
module RouteControl {
  import opened Common
  import opened RouteGuard

  /** `allAllowed`: every role. */
  const AllAllowed: seq<Role> := [Member, Manager, Admin]

  /** Pages reachable without a session; the guard table does not list them. */
  const PublicRoutes: seq<string> := ["/login", "/auth/verify-token", "/unauthorized", "/example"]

  /** `routesPermissions`, in table order. */
  const RoutesPermissions: seq<Route> := [
    Route("/", AllAllowed),
    Route("/admin-page", [Admin]),
    Route("/member-page", [Member]),
    Route("/posts", AllAllowed)
  ]

  /** `allAllowed` holds each of the three roles exactly once. */
  lemma AllAllowedIsEveryRole()
    ensures forall r: Role :: r in AllAllowed
    ensures |AllAllowed| == 3
    ensures AllAllowed[0] != AllAllowed[1] && AllAllowed[1] != AllAllowed[2] && AllAllowed[0] != AllAllowed[2]
  {
    forall r: Role
      ensures r in AllAllowed
    {
      match r
      case Member => assert AllAllowed[0] == r;
      case Manager => assert AllAllowed[1] == r;
      case Admin => assert AllAllowed[2] == r;
    }
  }

  /** No path of the table has a `[name]` segment, so the guard over this
      table is a literal lookup of the requested path. */
  lemma TableIsLiteralLookup(path: string, role: Role)
    ensures forall i :: 0 <= i < |RoutesPermissions| ==> BracketFree(RoutesPermissions[i].path)
    ensures Permitted(RoutesPermissions, path, role)
        <==> exists i :: 0 <= i < |RoutesPermissions| && IsFirstExact(RoutesPermissions, path, i)
                       && role in RoutesPermissions[i].rolesAllowed
  {
    assert forall i :: 0 <= i < |RoutesPermissions| ==> BracketFree(RoutesPermissions[i].path);
    BracketFreeTableIsLookup(RoutesPermissions, path, role);
  }

  /** Verdict of the guard for a path that is the `i`-th table path. */
  lemma ListedPath(i: int, role: Role)
    requires 0 <= i < |RoutesPermissions|
    ensures Permitted(RoutesPermissions, RoutesPermissions[i].path, role)
        <==> role in RoutesPermissions[i].rolesAllowed
  {
    var path := RoutesPermissions[i].path;
    TableIsLiteralLookup(path, role);
    assert IsFirstExact(RoutesPermissions, path, i);
  }

  /** `/` and `/posts` are open to every role. */
  lemma HomeAndPostsOpenToAll(role: Role)
    ensures Permitted(RoutesPermissions, "/", role)
    ensures Permitted(RoutesPermissions, "/posts", role)
  {
    AllAllowedIsEveryRole();
    ListedPath(0, role);
    ListedPath(3, role);
  }

  /** `/admin-page` admits ADMIN and nobody else. */
  lemma AdminPageOnlyAdmin(role: Role)
    ensures Permitted(RoutesPermissions, "/admin-page", role) <==> role == Admin
  {
    ListedPath(1, role);
  }

  /** `/member-page` admits MEMBER only; ADMIN and MANAGER are turned away. */
  lemma MemberPageOnlyMember(role: Role)
    ensures Permitted(RoutesPermissions, "/member-page", role) <==> role == Member
  {
    ListedPath(2, role);
  }

  /** A path the table does not list is refused, whatever the role. */
  lemma UnlistedPathDenied(path: string, role: Role)
    requires forall i :: 0 <= i < |RoutesPermissions| ==> RoutesPermissions[i].path != path
    ensures !Permitted(RoutesPermissions, path, role)
  {
    TableIsLiteralLookup(path, role);
  }

  /** A post's own page is not covered: `/posts/1` is refused for every role. */
  lemma PostDetailDenied(role: Role)
    ensures !Permitted(RoutesPermissions, "/posts/1", role)
  {
    UnlistedPathDenied("/posts/1", role);
  }

  /** The public pages are not in the table, so the guard refuses them. */
  lemma PublicRoutesNotInTable(role: Role)
    ensures forall p :: p in PublicRoutes ==> !Permitted(RoutesPermissions, p, role)
  {
    forall p | p in PublicRoutes
      ensures !Permitted(RoutesPermissions, p, role)
    {
      UnlistedPathDenied(p, role);
    }
  }
}
