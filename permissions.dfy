/**
 * Who may read the product endpoints (`Products::get_items_permissions_check`,
 * `Products::get_item_permissions_check`, `Products::change_permissions`).
 * Whether the acting user has the `edit_posts` capability, and the status
 * the platform uses for "authorization required", are parameters.
 */
module Permissions {
  const CannotView := "woocommerce_rest_cannot_view"
  const ReadContext := "read"

  /** A structured REST error: a stable code, a message and an HTTP status. */
  datatype RestError = RestError(code: string, message: string, status: int)

  /** The answer of a permission check: `true`, or an error. */
  datatype Access = Granted | Refused(error: RestError)

  /** The listing endpoint's check: granted exactly to users who can edit posts. */
  function ItemsPermissionsCheck(canEditPosts: bool, authorizationStatus: int): (r: Access)
    ensures r.Granted? <==> canEditPosts
    ensures r.Refused? ==> r.error.code == CannotView && r.error.status == authorizationStatus
  {
    if !canEditPosts then
      Refused(RestError(CannotView, "Sorry, you cannot list resources.", authorizationStatus))
    else
      Granted
  }

  /** The single-product endpoint's check: granted exactly to users who can edit posts. */
  function ItemPermissionsCheck(canEditPosts: bool, authorizationStatus: int): (r: Access)
    ensures r.Granted? <==> canEditPosts
    ensures r.Refused? ==> r.error.code == CannotView && r.error.status == authorizationStatus
  {
    if !canEditPosts then
      Refused(RestError(CannotView, "Sorry, you cannot view this resource.", authorizationStatus))
    else
      Granted
  }

  /**
   * The permission filter installed while the listing runs: for the `read`
   * context the answer becomes whether the user can edit posts, whatever it
   * was; for any other context the answer passes through.
   */
  function ChangePermissions(permission: bool, context: string, canEditPosts: bool): (r: bool)
    ensures context == ReadContext ==> r == canEditPosts
    ensures context != ReadContext ==> r == permission
  {
    if context == ReadContext then canEditPosts else permission
  }

  /**
   * The two endpoint checks and the read filter agree: a user is let through
   * one exactly when let through the others, and both refusals carry the
   * same code and status.
   */
  lemma ChecksAgree(permission: bool, canEditPosts: bool, authorizationStatus: int)
    ensures ItemsPermissionsCheck(canEditPosts, authorizationStatus).Granted?
            == ItemPermissionsCheck(canEditPosts, authorizationStatus).Granted?
            == ChangePermissions(permission, ReadContext, canEditPosts)
    ensures ItemsPermissionsCheck(canEditPosts, authorizationStatus).Refused? ==>
              ItemsPermissionsCheck(canEditPosts, authorizationStatus).error.code
                == ItemPermissionsCheck(canEditPosts, authorizationStatus).error.code
  {
  }
}
