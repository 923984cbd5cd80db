/** The admin gate `isAdmin` (Backend/src/middleware/admin.middleware.js). */
module AdminMiddleware {
  import opened Wrappers
  import opened Schema

  /** A middleware's decision: hand the request on (`next()`), or answer it. */
  datatype Gate = Next | Deny(status: nat, message: string)

  /** `isAdmin`: no user is 401, a non-admin is 403, an admin goes on. */
  function IsAdmin(user: Option<UserView>): (g: Gate)
    ensures user.None? ==> g == Deny(401, "Unauthorized")
    ensures user.Some? && user.value.role != "admin" ==> g == Deny(403, "Admin only")
  {
    if user.None? then Deny(401, "Unauthorized")
    else if user.value.role != "admin" then Deny(403, "Admin only")
    else Next
  }

  /** `next` runs exactly for a present user whose role is "admin"; every
      refusal is a 401 or a 403, and the 401 is exactly the missing user. */
  lemma IsAdminDecision(user: Option<UserView>)
    ensures IsAdmin(user) == Next <==> user.Some? && user.value.role == "admin"
    ensures IsAdmin(user).Deny? ==> IsAdmin(user).status in {401, 403}
    ensures IsAdmin(user).Deny? && IsAdmin(user).status == 401 <==> user.None?
  {
  }
}
