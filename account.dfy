/**
 * `Account`: the login-state rules of an account (suspended, locked,
 * prevented from logging in, too many failed attempts), its lookups by
 * account type, and the display-name setter that splits a full name into
 * first and last name.
 */
module Account {
  import opened Wrappers
  import opened Text
  import Info = AccountTypeInfo

  /** `settings.MAX_LOGIN_FAILED_ATTEMPTS`, whose default is 5. */
  const MaxLoginFailedAttempts: int := 5

  /** `ValueError("Display name must contain both first and last names.")`. */
  datatype DisplayNameError = ValueError

  /** Index of the first type info whose account type has `key`, or the length when there is none. */
  function FirstOfType(infos: seq<Info.AccountTypeInfo>, key: string): (k: nat)
    ensures k <= |infos|
    ensures k < |infos| ==> infos[k].accountTypeKey == key
    ensures forall j :: 0 <= j < k ==> infos[j].accountTypeKey != key
  {
    if infos == [] then 0
    else if infos[0].accountTypeKey == key then 0
    else 1 + FirstOfType(infos[1..], key)
  }

  class Account {
    var firstName: string
    var lastName: string
    var isActive: bool
    var isVerified: bool
    var isSuspended: bool
    var suspendedAt: Option<int>
    var lockedAt: Option<int>
    var failedAttempts: int
    var typeInfos: seq<Info.AccountTypeInfo>

    /** A new account: active, unverified, not suspended, not locked, no failed attempts. */
    constructor(firstName: string, lastName: string, typeInfos: seq<Info.AccountTypeInfo>)
      ensures this.firstName == firstName && this.lastName == lastName && this.typeInfos == typeInfos
      ensures isActive && !isVerified && !isSuspended && suspendedAt == None && lockedAt == None && failedAttempts == 0
    {
      this.firstName := firstName;
      this.lastName := lastName;
      this.typeInfos := typeInfos;
      isActive := true;
      isVerified := false;
      isSuspended := false;
      suspendedAt := None;
      lockedAt := None;
      failedAttempts := 0;
    }

    /** `check_suspended`: the flag is set and a suspension instant is recorded. */
    function CheckSuspended(): (b: bool)
      reads this
      ensures b <==> isSuspended && suspendedAt.Some?
    {
      isSuspended && suspendedAt.Some?
    }

    /** `is_locked`: a lock instant is recorded. */
    function IsLocked(): (b: bool)
      reads this
      ensures b <==> lockedAt != None
    {
      lockedAt.Some?
    }

    /**
     * `is_eligible_for_login`. Despite its name it holds when the account
     * is PREVENTED from logging in: suspended, locked, inactive or unverified.
     */
    function IsEligibleForLogin(): (prevented: bool)
      reads this
      ensures !prevented <==> isActive && isVerified && lockedAt.None? && !(isSuspended && suspendedAt.Some?)
    {
      CheckSuspended() || IsLocked() || !isActive || !isVerified
    }

    /** `check_reenumeration_attempts`: locked and at or over the failed-attempt limit. */
    function CheckReenumerationAttempts(): (b: bool)
      reads this
      ensures b <==> lockedAt.Some? && failedAttempts >= MaxLoginFailedAttempts
      ensures b ==> IsEligibleForLogin()
    {
      IsLocked() && failedAttempts >= MaxLoginFailedAttempts
    }

    /** `get_account_type_infos`: the first type info of that account type, or `None`. */
    method GetAccountTypeInfos(key: string) returns (r: Option<Info.AccountTypeInfo>)
      ensures var k := FirstOfType(typeInfos, key);
        r == if k < |typeInfos| then Some(typeInfos[k]) else None
    {
      var i := 0;
      while i < |typeInfos|
        invariant 0 <= i <= |typeInfos|
        invariant forall j :: 0 <= j < i ==> typeInfos[j].accountTypeKey != key
      {
        if typeInfos[i].accountTypeKey == key {
          return Some(typeInfos[i]);
        }
        i := i + 1;
      }
      return None;
    }

    /** `has_account_type`: some type info has that account type. */
    method HasAccountType(key: string) returns (r: bool)
      ensures r <==> exists j :: 0 <= j < |typeInfos| && typeInfos[j].accountTypeKey == key
    {
      var found := GetAccountTypeInfos(key);
      r := found.Some?;
    }

    /** `get_permissions_for_account_type`: the active scopes of the first type info of that type, or none. */
    method GetPermissionsForAccountType(key: string, now: int) returns (r: seq<string>)
      ensures var k := FirstOfType(typeInfos, key);
        r == if k < |typeInfos| then Info.Scopes(typeInfos[k].GetPermissions(true, now)) else []
    {
      var found := GetAccountTypeInfos(key);
      if found.None? {
        return [];
      }
      r := found.value.GetPermissionScopes(true, now);
    }

    /**
     * The `display_name` setter: without a space it raises and changes
     * nothing; otherwise the first name is the text before the first space
     * and the last name all the text after it.
     */
    method SetDisplayName(value: string) returns (r: Result<(), DisplayNameError>)
      modifies this
      ensures ' ' !in value ==> r == Err(ValueError) && firstName == old(firstName) && lastName == old(lastName)
      ensures ' ' in value ==> r.Ok? && firstName + " " + lastName == value && ' ' !in firstName
      ensures isActive == old(isActive) && isVerified == old(isVerified) && isSuspended == old(isSuspended)
      ensures suspendedAt == old(suspendedAt) && lockedAt == old(lockedAt) && failedAttempts == old(failedAttempts)
      ensures typeInfos == old(typeInfos)
    {
      var k := IndexOf(value, ' ');
      if k == |value| {
        return Err(ValueError);
      }
      firstName := value[..k];
      lastName := value[k + 1..];
      assert firstName + " " + lastName == value;
      r := Ok(());
    }
  }

  /** The split the setter makes is the only one: the first name is everything up to the first space. */
  lemma DisplayNameSplitUnique(first1: string, last1: string, first2: string, last2: string)
    requires first1 + " " + last1 == first2 + " " + last2
    requires ' ' !in first1 && ' ' !in first2
    ensures first1 == first2 && last1 == last2
  {
    var s := first1 + " " + last1;
    assert s == first2 + " " + last2;
    assert s[..|first1|] == first1 && s[|first1|] == ' ';
    assert s[..|first2|] == first2 && s[|first2|] == ' ';
    assert |first1| == |first2|;
    assert first1 == s[..|first1|] == first2;
    assert last1 == s[|first1| + 1..] == last2;
  }

  /**
   * Too many failed attempts is reported exactly for a locked account at or
   * over the limit, and such an account cannot log in.
   */
  lemma ReenumerationMeansPrevented(a: Account)
    ensures a.CheckReenumerationAttempts() <==> a.IsLocked() && a.failedAttempts >= MaxLoginFailedAttempts
    ensures a.CheckReenumerationAttempts() ==> a.IsEligibleForLogin()
  {
  }

  /** A suspension needs both the flag and the instant: either alone does not suspend, and both together do. */
  lemma SuspensionNeedsBoth(a: Account)
    ensures !a.isSuspended ==> !a.CheckSuspended()
    ensures a.suspendedAt.None? ==> !a.CheckSuspended()
    ensures a.isSuspended && a.suspendedAt.Some? ==> a.CheckSuspended()
  {
  }

  /** An active, verified, unlocked and unsuspended account is the only kind not prevented from logging in. */
  lemma LoginAllowed(a: Account)
    ensures !a.IsEligibleForLogin() <==> a.isActive && a.isVerified && !a.IsLocked() && !a.CheckSuspended()
  {
  }
}
