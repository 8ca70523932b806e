/**
  Role-based permission sets: each role holds a fixed list of permissions,
  and a request for a list of permissions is granted when ANY of them is
  held by the role.
 */
module Permissions {
  import opened Common

  datatype Permission = Create | Read | Update | SoftDelete | HardDelete | SoftDeleteAll

  /** The string value of each permission constant. */
  function Name(p: Permission): string
  {
    match p
    case Create => "CREATE"
    case Read => "READ"
    case Update => "UPDATE"
    case SoftDelete => "SOFT_DELETE"
    case HardDelete => "HARD_DELETE"
    case SoftDeleteAll => "SOFT_DELETE_ALL"
  }

  /** The six permission strings are pairwise distinct. */
  lemma NamesDistinct(p: Permission, q: Permission)
    ensures Name(p) == Name(q) <==> p == q
  {
  }

  /** `RolePermissions`, in the order the source lists them. */
  function RolePermissions(role: Role): seq<Permission>
  {
    match role
    case Member => [Read, Create]
    case Manager => [Read, Create, Update, SoftDelete]
    case Admin => [Read, Create, Update, SoftDelete, HardDelete, SoftDeleteAll]
  }

  /** Roles ranked by privilege. */
  function Rank(role: Role): nat
  {
    match role
    case Member => 0
    case Manager => 1
    case Admin => 2
  }

  /** `checkPermission`: `permissions.some(p => rolePermissions.includes(p))`. */
  function CheckPermission(role: Role, requested: seq<Permission>): (granted: bool)
    ensures granted <==> exists i :: 0 <= i < |requested| && requested[i] in RolePermissions(role)
    ensures requested == [] ==> !granted
  {
    if requested == [] then false
    else if requested[0] in RolePermissions(role) then true
    else
      var rest := CheckPermission(role, requested[1..]);
      assert forall i :: 1 <= i < |requested| ==> requested[i] == requested[1..][i - 1];
      rest
  }

  /** Each role's permissions include those of every lower-ranked role. */
  lemma PermissionSetsNested(lower: Role, higher: Role, p: Permission)
    requires Rank(lower) <= Rank(higher)
    requires p in RolePermissions(lower)
    ensures p in RolePermissions(higher)
  {
    match lower
    case Member => assert p == Read || p == Create;
    case Manager => assert p in [Read, Create, Update, SoftDelete];
    case Admin => assert higher == Admin;
  }

  /** Monotonicity: a request a lower role passes, every higher role passes. */
  lemma CheckMonotone(lower: Role, higher: Role, requested: seq<Permission>)
    requires Rank(lower) <= Rank(higher)
    requires CheckPermission(lower, requested)
    ensures CheckPermission(higher, requested)
  {
    var i :| 0 <= i < |requested| && requested[i] in RolePermissions(lower);
    PermissionSetsNested(lower, higher, requested[i]);
  }

  /** Only ADMIN holds HARD_DELETE and SOFT_DELETE_ALL. */
  lemma OnlyAdminHardDeletes(role: Role)
    ensures HardDelete in RolePermissions(role) <==> role == Admin
    ensures SoftDeleteAll in RolePermissions(role) <==> role == Admin
    ensures CheckPermission(role, [HardDelete]) <==> role == Admin
  {
  }

  /** MEMBER holds READ and CREATE and nothing else; a request for UPDATE
      alone is refused, but one also listing READ is granted ("any"). */
  lemma MemberHoldsReadCreate(p: Permission)
    ensures p in RolePermissions(Member) <==> p == Read || p == Create
    ensures !CheckPermission(Member, [Update])
    ensures CheckPermission(Member, [Update, Read])
  {
    assert [Update, Read][1] == Read;
  }
}
