/**
 * `TokenService`: token lookups and revocation over the token repository,
 * with every failure of the database turned into a value. Whether the
 * session raises is an input, `dbFails`; when it does, nothing is written.
 */
module TokenService {
  import opened Wrappers
  import opened BaseRepository
  import Tokens = TokenRepository

  /** `errors.ServiceError(detail=..., status=500)`. */
  datatype ServiceError = ServiceError(status: int)

  /** The token string names a row that is not revoked and not deleted. */
  predicate Usable(row: Record)
  {
    "revoked" in row && Falsy(row["revoked"]) && "deleted_datetime" in row && row["deleted_datetime"] == VNull
  }

  /** A created token is neither revoked nor deleted: the column defaults. */
  lemma NewRowUsable(row: Record)
    requires forall c :: c in Tokens.Defaults && c != "token" ==> c in row && row[c] == Tokens.Defaults[c]
    ensures Usable(row)
  {
    assert "revoked" in Tokens.Defaults && "deleted_datetime" in Tokens.Defaults;
  }

  class TokenService {
    const repo: Tokens.TokenRepository

    ghost predicate Valid()
      reads this, repo, repo.base
    {
      repo.Valid()
    }

    constructor()
      ensures Valid() && fresh(repo) && fresh(repo.base) && repo.base.rows == []
    {
      repo := new Tokens.TokenRepository();
    }

    /** `get_token`: the row with that token, or None when it is missing or the lookup raises. */
    function GetToken(token: string, dbFails: bool): (r: Option<Record>)
      reads this, repo, repo.base
      requires Valid()
      ensures dbFails ==> r == None
      ensures !dbFails ==> (r.Some? <==> exists k :: 0 <= k < |repo.base.rows| && Tokens.HasToken(repo.base.rows[k], token))
      ensures r.Some? ==> r.value in repo.base.rows && Tokens.HasToken(r.value, token)
    {
      if dbFails then None else repo.FindByToken(token).value
    }

    /** `is_token_valid`: the token exists, is not revoked and has no `deleted_datetime`; any failure gives false. */
    function IsTokenValid(token: string, dbFails: bool): (r: bool)
      reads this, repo, repo.base
      requires Valid()
      ensures r <==> !dbFails && exists k :: 0 <= k < |repo.base.rows| && Tokens.HasToken(repo.base.rows[k], token) && Usable(repo.base.rows[k])
    {
      var found := GetToken(token, dbFails);
      if found.None? then false
      else
        assert forall k :: 0 <= k < |repo.base.rows| && Tokens.HasToken(repo.base.rows[k], token) ==> repo.base.rows[k] == found.value;
        Usable(found.value)
    }

    /** `revoke_token`: the repository's answer, or `ServiceError` (status 500) when the database raises. */
    method RevokeToken(token: string, dbFails: bool) returns (r: Result<bool, ServiceError>)
      requires Valid()
      modifies repo.base
      ensures Valid()
      ensures dbFails ==> r == Err(ServiceError(500)) && repo.base.rows == old(repo.base.rows)
      ensures !dbFails ==> r.Ok?
      ensures r.Ok? && !r.value ==> repo.base.rows == old(repo.base.rows)
      ensures r == Ok(true) ==> !IsTokenValid(token, false)
      ensures !dbFails && old(repo.FindByToken(token)).value.None? ==> r == Ok(false) && repo.base.rows == old(repo.base.rows)
      ensures !dbFails && old(repo.FindByToken(token)).value.Some? ==>
        var id := old(repo.FindByToken(token)).value.value["id"];
        r == Ok(!Falsy(id))
        && repo.base.rows == if Falsy(id) then old(repo.base.rows) else Replace(old(repo.base.rows), id, Tokens.RevokedField)
    {
      if dbFails {
        return Err(ServiceError(500));
      }
      var revoked := repo.RevokeToken(token);
      if revoked {
        RevokedNotValid(token);
      }
      r := Ok(revoked);
    }

    /** A token whose row is marked revoked is not valid. */
    lemma RevokedNotValid(token: string)
      requires Valid()
      requires repo.FindByToken(token).value.Some? && repo.FindByToken(token).value.value["revoked"] == VBool(true)
      ensures !IsTokenValid(token, false)
    {
    }

    /**
     * `create_token`: `create_if_not_exists(TokenCreate(token=token))`;
     * any error of the database becomes `ServiceError` (status 500).
     */
    method CreateToken(token: string, newId: Value, dbFails: bool) returns (r: Result<Record, ServiceError>)
      requires Valid()
      modifies repo.base
      ensures Valid()
      ensures r.Err? ==> r == Err(ServiceError(500)) && repo.base.rows == old(repo.base.rows)
      ensures dbFails ==> r.Err?
      ensures r.Ok? ==> Tokens.HasToken(r.value, token) && Tokens.CountToken(repo.base.rows, token) == 1
      ensures r.Ok? && old(GetToken(token, false)).None? ==> IsTokenValid(token, false)
      ensures r.Ok? && old(GetToken(token, false)).Some? ==>
        repo.base.rows == old(repo.base.rows) && r.value == old(GetToken(token, false)).value
      ensures r.Ok? <==> !dbFails && (old(GetToken(token, false)).Some? || !old(repo.base.Exists(newId)))
      ensures !dbFails && old(GetToken(token, false)).Some? ==> r == Ok(old(GetToken(token, false)).value)
      ensures !dbFails && old(GetToken(token, false)).None? && !old(repo.base.Exists(newId)) ==>
        r.Ok? && repo.base.rows == old(repo.base.rows) + [r.value]
        && r.value == old(repo.base.NewRow(Tokens.CreateValues(token), newId))
    {
      if dbFails {
        return Err(ServiceError(500));
      }
      ghost var before := repo.base.rows;
      ghost var newRow := repo.base.NewRow(Tokens.CreateValues(token), newId);
      var created := repo.CreateIfNotExists(token, newId);
      if created.Err? {
        return Err(ServiceError(500));
      }
      r := Ok(created.value);
      if old(GetToken(token, false)).None? {
        assert created.value == newRow;
        NewRowUsable(newRow);
        assert repo.base.rows[|before|] == newRow;
      }
    }
  }
}
