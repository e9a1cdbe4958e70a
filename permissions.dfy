/** IsAdminOrSelf, the permission class guarding the user resource: a pure
    decision over the view's action, the requester's staff flag and the
    identities of requester and target. It reads nothing else and changes
    nothing. */
module Permissions {
  import opened Outcomes
  import opened Models

  /** The authenticated user making the request, as the permission class
      sees it. */
  datatype Requester = Requester(id: UserId, isStaff: bool)

  /** has_permission: listing users is for staff only; every other action
      passes this check and is left to the object-level one. */
  function HasPermission(action: string, requester: Requester): (r: bool)
    ensures r <==> action != "list" || requester.isStaff
  {
    if action == "list" then requester.isStaff else true
  }

  /** has_object_permission: staff may act on any user, anyone else only on
      themself. */
  function HasObjectPermission(requester: Requester, target: UserId): (r: bool)
    ensures requester.isStaff ==> r
    ensures !requester.isStaff ==> (r <==> target == requester.id)
  {
    requester.isStaff || target == requester.id
  }

  /** A request is let through when the view-level check passes and, for an
      action on one user row, the object-level check passes too (the framework
      runs the second when it fetches the row). Staff may do anything; anyone
      else may not list, and may act on no row or on their own row only. */
  function Allows(action: string, requester: Requester, target: Option<UserId>): (r: bool)
    ensures requester.isStaff ==> r
    ensures !requester.isStaff ==>
      (r <==> action != "list" && (target.Some? ==> target.value == requester.id))
  {
    HasPermission(action, requester) && (target.Some? ==> HasObjectPermission(requester, target.value))
  }
}
