/**
 * `AccountTypeInfo`: what one account holds for one account type, namely a
 * JSON attribute map that is edited in place, the permissions granted
 * for that type, and the linked banking details.
 */
module AccountTypeInfo {
  import opened Wrappers
  import opened AccountTypeInfoPermission
  import Banking = BankingInfo

  /** A JSON value stored in `attributes`. */
  datatype Json = JNull | JBool(b: bool) | JInt(i: int) | JText(s: string)

  /** `get_attribute` on a missing map: `None.get` raises `AttributeError`. */
  datatype AttributeError = AttributeError

  /** The grant gives `scope` on exactly `resourceId`, is granted and has not expired. */
  predicate Matches(g: Grant, scope: string, resourceId: Option<string>, now: int)
  {
    g.permission.Some? && g.permission.value.scope == scope && g.resourceId == resourceId && IsGrantedAndActive(g, now)
  }

  /** `[p for p in permissions if p.is_granted_and_active()]`. */
  function ActiveGrants(perms: seq<Grant>, now: int): (r: seq<Grant>)
    ensures |r| <= |perms|
    ensures forall g :: g in r <==> g in perms && IsGrantedAndActive(g, now)
  {
    if perms == [] then []
    else
      var rest := ActiveGrants(perms[..|perms| - 1], now);
      var last := perms[|perms| - 1];
      assert perms == perms[..|perms| - 1] + [last];
      if IsGrantedAndActive(last, now) then rest + [last] else rest
  }

  /** The scopes of the grants whose permission is loaded, in order. */
  function Scopes(perms: seq<Grant>): (r: seq<string>)
    ensures |r| <= |perms|
    ensures forall s :: s in r <==> exists i :: 0 <= i < |perms| && perms[i].permission == Some(Permission(s))
  {
    if perms == [] then []
    else
      var init := perms[..|perms| - 1];
      var rest := Scopes(init);
      var last := perms[|perms| - 1];
      assert forall i :: 0 <= i < |init| ==> init[i] == perms[i];
      if last.permission.Some? then rest + [last.permission.value.scope] else rest
  }

  /** The banking info counts for the query: any does when `activeOnly` is off, otherwise only active ones. */
  predicate Eligible(b: Banking.BankingInfo, activeOnly: bool)
    reads b
  {
    !activeOnly || b.isActive
  }

  /** Index of the first eligible banking info, or the length when there is none. */
  function FirstEligible(infos: seq<Banking.BankingInfo>, activeOnly: bool): (k: nat)
    reads infos
    ensures k <= |infos|
    ensures k < |infos| ==> Eligible(infos[k], activeOnly)
    ensures forall j :: 0 <= j < k ==> !Eligible(infos[j], activeOnly)
  {
    if infos == [] then 0
    else if Eligible(infos[0], activeOnly) then 0
    else 1 + FirstEligible(infos[1..], activeOnly)
  }

  class AccountTypeInfo {
    /** `account_type.key` of the related account type. */
    const accountTypeKey: string
    /** The JSONB column; the methods also handle it being `None`. */
    var attributes: Option<map<string, Json>>
    var permissions: seq<Grant>
    var bankingInfos: seq<Banking.BankingInfo>

    constructor(accountTypeKey: string, permissions: seq<Grant>, bankingInfos: seq<Banking.BankingInfo>)
      ensures this.accountTypeKey == accountTypeKey && attributes == Some(map[])
      ensures this.permissions == permissions && this.bankingInfos == bankingInfos
    {
      this.accountTypeKey := accountTypeKey;
      attributes := Some(map[]);
      this.permissions := permissions;
      this.bankingInfos := bankingInfos;
    }

    /** The attribute map, with a missing one read as empty. */
    function Attributes(): (m: map<string, Json>)
      reads this
      ensures attributes.Some? ==> m == attributes.value
      ensures attributes.None? ==> m == map[]
    {
      if attributes.None? then map[] else attributes.value
    }

    /** `has_attribute`. */
    function HasAttribute(key: string): (b: bool)
      reads this
      ensures b ==> attributes.Some?
      ensures attributes.Some? ==> (b <==> key in Attributes())
    {
      attributes.Some? && key in attributes.value
    }

    /** `get_attribute`: the stored value, else `default`; raises when the map is missing. */
    function GetAttribute(key: string, default: Json): (r: Result<Json, AttributeError>)
      reads this
      ensures r.Err? <==> attributes.None?
      ensures HasAttribute(key) ==> r == Ok(attributes.value[key])
      ensures attributes.Some? && !HasAttribute(key) ==> r == Ok(default)
    {
      if attributes.None? then Err(AttributeError)
      else if key in attributes.value then Ok(attributes.value[key])
      else Ok(default)
    }

    /** `set_attribute`: a missing map becomes empty first; afterwards the key reads back as `value`. */
    method SetAttribute(key: string, value: Json)
      modifies this
      ensures attributes == Some(old(Attributes())[key := value])
      ensures HasAttribute(key) && forall d :: GetAttribute(key, d) == Ok(value)
      ensures forall k :: k != key && old(HasAttribute(k)) ==> HasAttribute(k) && attributes.value[k] == old(attributes.value[k])
      ensures permissions == old(permissions) && bankingInfos == old(bankingInfos)
    {
      var m := if attributes.None? then map[] else attributes.value;
      attributes := Some(m[key := value]);
    }

    /** `remove_attribute`: the value that was stored, or `None`; the key is absent afterwards. */
    method RemoveAttribute(key: string) returns (r: Option<Json>)
      modifies this
      ensures old(attributes).None? ==> r == None && attributes == None
      ensures old(HasAttribute(key)) ==> r == Some(old(attributes.value[key]))
      ensures !old(HasAttribute(key)) ==> r == None
      ensures old(attributes).Some? ==> attributes == Some(old(attributes.value) - {key})
      ensures !HasAttribute(key)
      ensures permissions == old(permissions) && bankingInfos == old(bankingInfos)
    {
      if attributes.None? {
        return None;
      }
      var m := attributes.value;
      if key in m {
        r := Some(m[key]);
      } else {
        r := None;
      }
      attributes := Some(m - {key});
    }

    /** `update_attributes`: the given keys take the given values, every other key keeps its value. */
    method UpdateAttributes(newAttributes: map<string, Json>)
      modifies this
      ensures attributes == Some(old(Attributes()) + newAttributes)
      ensures forall k :: k in newAttributes ==> HasAttribute(k) && attributes.value[k] == newAttributes[k]
      ensures forall k :: k !in newAttributes ==> (HasAttribute(k) <==> old(HasAttribute(k)))
      ensures forall k :: k !in newAttributes && old(HasAttribute(k)) ==> attributes.value[k] == old(attributes.value[k])
      ensures permissions == old(permissions) && bankingInfos == old(bankingInfos)
    {
      var m := if attributes.None? then map[] else attributes.value;
      attributes := Some(m + newAttributes);
    }

    /** `has_permission`: some grant gives the scope on exactly that resource and is granted and active. */
    method HasPermission(scope: string, resourceId: Option<string>, now: int) returns (r: bool)
      ensures r <==> exists i :: 0 <= i < |permissions| && Matches(permissions[i], scope, resourceId, now)
    {
      var i := 0;
      while i < |permissions|
        invariant 0 <= i <= |permissions|
        invariant forall j :: 0 <= j < i ==> !Matches(permissions[j], scope, resourceId, now)
      {
        if Matches(permissions[i], scope, resourceId, now) {
          return true;
        }
        i := i + 1;
      }
      return false;
    }

    /** `get_permissions`: the granted and active grants, or all of them. */
    function GetPermissions(activeOnly: bool, now: int): (r: seq<Grant>)
      reads this
      ensures !activeOnly ==> r == permissions
      ensures activeOnly ==> forall g :: g in r <==> g in permissions && IsGrantedAndActive(g, now)
    {
      if activeOnly then ActiveGrants(permissions, now) else permissions
    }

    /** `get_permission_scopes`: the scopes of `get_permissions`, in order, skipping grants without a loaded permission. */
    method GetPermissionScopes(activeOnly: bool, now: int) returns (r: seq<string>)
      ensures r == Scopes(GetPermissions(activeOnly, now))
    {
      var ps := GetPermissions(activeOnly, now);
      r := [];
      var i := 0;
      while i < |ps|
        invariant 0 <= i <= |ps|
        invariant r == Scopes(ps[..i])
      {
        assert ps[..i + 1][..i] == ps[..i];
        if ps[i].permission.Some? {
          r := r + [ps[i].permission.value.scope];
        }
        i := i + 1;
      }
      assert ps[..i] == ps;
    }

    /** `get_banking_info`: the first banking info, or the first active one when `activeOnly`. */
    method GetBankingInfo(activeOnly: bool) returns (r: Option<Banking.BankingInfo>)
      ensures var k := FirstEligible(bankingInfos, activeOnly);
        r == if k < |bankingInfos| then Some(bankingInfos[k]) else None
    {
      var i := 0;
      while i < |bankingInfos|
        invariant 0 <= i <= |bankingInfos|
        invariant forall j :: 0 <= j < i ==> !Eligible(bankingInfos[j], activeOnly)
      {
        if !activeOnly || bankingInfos[i].isActive {
          return Some(bankingInfos[i]);
        }
        i := i + 1;
      }
      return None;
    }

    /** `has_banking_info`: some banking info is eligible. */
    method HasBankingInfo(activeOnly: bool) returns (r: bool)
      ensures r <==> exists j :: 0 <= j < |bankingInfos| && Eligible(bankingInfos[j], activeOnly)
    {
      var found := GetBankingInfo(activeOnly);
      r := found.Some?;
    }
  }

  /** The active-only scopes are exactly the scopes of granted, active grants. */
  lemma ActiveScopes(perms: seq<Grant>, now: int, s: string)
    ensures s in Scopes(ActiveGrants(perms, now)) <==>
      exists i :: 0 <= i < |perms| && perms[i].permission == Some(Permission(s)) && IsGrantedAndActive(perms[i], now)
  {
    var active := ActiveGrants(perms, now);
    if s in Scopes(active) {
      var j :| 0 <= j < |active| && active[j].permission == Some(Permission(s));
      assert active[j] in perms;
    }
    if exists i :: 0 <= i < |perms| && perms[i].permission == Some(Permission(s)) && IsGrantedAndActive(perms[i], now) {
      var i :| 0 <= i < |perms| && perms[i].permission == Some(Permission(s)) && IsGrantedAndActive(perms[i], now);
      assert perms[i] in active;
    }
  }

  /** Whatever `has_permission` accepts is listed by the active-only scopes. */
  lemma PermittedScopeListed(perms: seq<Grant>, scope: string, resourceId: Option<string>, now: int)
    requires exists i :: 0 <= i < |perms| && Matches(perms[i], scope, resourceId, now)
    ensures scope in Scopes(ActiveGrants(perms, now))
  {
    ActiveScopes(perms, now, scope);
  }
}
