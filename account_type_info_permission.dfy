/**
 * `AccountTypeInfoPermission`: one permission granted (or denied) to an
 * account type info, optionally for one resource and optionally until an
 * expiry instant. Instants are whole numbers on one time line; the current
 * instant, which `is_active` reads from the clock, is the input `now`.
 */
module AccountTypeInfoPermission {
  import opened Wrappers

  /** The `Permission` row the grant points at; only its scope is used here. */
  datatype Permission = Permission(scope: string)

  /**
   * A row of `account_type_permissions`. `permission` is the loaded
   * relationship, `None` when it did not load; `granted` defaults to true.
   */
  datatype Grant = Grant(permission: Option<Permission>, granted: bool, resourceId: Option<string>, expiresAt: Option<int>)

  /** `is_active`: no expiry, or the expiry is still in the future. */
  function IsActive(g: Grant, now: int): (active: bool)
    ensures g.expiresAt.None? ==> active
    ensures g.expiresAt.Some? ==> (active <==> now < g.expiresAt.value)
  {
    g.expiresAt.None? || now < g.expiresAt.value
  }

  /** `is_granted_and_active`. */
  function IsGrantedAndActive(g: Grant, now: int): (b: bool)
    ensures !g.granted ==> !b
    ensures g.granted ==> (b <==> IsActive(g, now))
  {
    g.granted && IsActive(g, now)
  }

  /** Being active only ever ends: active now means active at every earlier instant. */
  lemma ActiveEarlier(g: Grant, earlier: int, now: int)
    requires earlier <= now && IsActive(g, now)
    ensures IsActive(g, earlier)
  {
  }
}
