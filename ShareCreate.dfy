/**
 * The share create form: a signed-in user's valid form becomes a new share that the user
 * owns, public exactly when asked, password-protected exactly when a truthy password was
 * typed, with one `share_create` audit entry.
 */
module ShareCreate {
  import opened Wrappers
  import opened PhpSemantics
  import opened Permissions
  import opened Errors
  import opened ShareModel
  import opened SessionStore
  import opened ShareForm
  import ShareAuthorization
  import ShareEdit

  /** The row `save` inserts for form fields `f`, new id `id` and owner `ownerId`. */
  function NewShare(id: ShareId, ownerId: UserId, f: Fields, freshToken: string, passwordHash: string): (r: Share)
    ensures r.id == id && r.ownerId == ownerId
    ensures r.name == f.name && r.description == f.description
    ensures r.publicToken.Some? <==> f.public
    ensures r.publicToken.Some? ==> r.publicToken.value == freshToken
    ensures r.password.Some? <==> Truthy(f.password)
    ensures r.password.Some? ==> r.password.value == passwordHash
  {
    Share(id, ownerId, f.name, f.description,
          if f.public then Some(freshToken) else Nothing,
          PasswordColumn(f.password, passwordHash))
  }

  /** A share created with a generated token and a truthy hash is well formed. */
  lemma CreatedShareIsWellFormed(id: ShareId, ownerId: UserId, f: Fields, freshToken: string, passwordHash: string)
    requires IsUrlSafeToken(freshToken) && Truthy(passwordHash)
    ensures ShareEdit.WellFormed(NewShare(id, ownerId, f, freshToken, passwordHash))
  {
    GeneratedTokenIsTruthy(freshToken);
  }

  /**
   * When the hash is one that `check` accepts for the typed password (the contract of
   * `Hash::make`), the stored password verifies against what was typed.
   */
  lemma StoredPasswordVerifies(
    id: ShareId, ownerId: UserId, f: Fields, freshToken: string, passwordHash: string,
    check: (string, string) -> bool)
    requires check(f.password, passwordHash)
    ensures var share := NewShare(id, ownerId, f, freshToken, passwordHash);
      share.password.Some? ==> check(f.password, share.password.value)
  {
  }

  /**
   * Opening a freshly created share in the edit form shows what was typed, except that a
   * password shows as the sentinel and a falsy one as empty.
   */
  lemma EditFormShowsCreatedShare(id: ShareId, ownerId: UserId, f: Fields, freshToken: string, passwordHash: string)
    requires Truthy(passwordHash)
    ensures ShareEdit.MountedFields(NewShare(id, ownerId, f, freshToken, passwordHash))
         == f.(password := if Truthy(f.password) then PasswordSentinel else "")
  {
  }

  /**
   * The creator holds owner permission on the new share, and `authorizeShare` lets them
   * in for 'owner' without a token and without a password in the session.
   */
  lemma CreatorOwnsNewShare(
    shares: map<ShareId, Share>, grants: GrantTable, session: map<string, string>,
    creator: User, f: Fields, id: ShareId, freshToken: string, passwordHash: string)
    ensures var share := NewShare(id, creator.id, f, freshToken, passwordHash);
      GetUserPermission(share, grants, Some(creator)) == Owner &&
      ShareAuthorization.AuthorizeShare(shares[id := share], grants, session, id, Nothing, false, "owner", Some(creator))
        == Ok(share)
  {
  }

  /**
   * Before any grant is made, nobody but the creator has a permission on the new share,
   * and without a token it is not found for them.
   */
  lemma OnlyCreatorHasAccess(
    shares: map<ShareId, Share>, grants: GrantTable, session: map<string, string>,
    creator: User, user: Option<User>, f: Fields, id: ShareId, freshToken: string, passwordHash: string,
    skipPasswordCheck: bool, requiredPermission: string)
    requires id !in grants
    requires !(user.Some? && user.value.id == creator.id)
    ensures var share := NewShare(id, creator.id, f, freshToken, passwordHash);
      GetUserPermission(share, grants, user) == None &&
      ShareAuthorization.AuthorizeShare(shares[id := share], grants, session, id, Nothing, skipPasswordCheck,
                                        requiredPermission, user) == Err(NotFound)
  {
  }

  /**
   * A public share created without a password opens for reading to anybody holding the
   * generated link.
   */
  lemma PublicLinkOpensForReading(
    shares: map<ShareId, Share>, grants: GrantTable, session: map<string, string>,
    creator: User, user: Option<User>, f: Fields, id: ShareId, freshToken: string, passwordHash: string)
    requires f.public && !Truthy(f.password) && IsUrlSafeToken(freshToken)
    ensures var share := NewShare(id, creator.id, f, freshToken, passwordHash);
      ShareAuthorization.AuthorizeShare(shares[id := share], grants, session, id, Some(freshToken), false, "read", user)
        == Ok(share)
  {
    GeneratedTokenIsTruthy(freshToken);
  }

  /** The component's state: the four form fields. */
  class CreateForm {
    var name: string
    var description: string
    var public: bool
    var password: string

    constructor ()
      ensures Current() == Fields("", "", false, "")
    {
      name := "";
      description := "";
      public := false;
      password := "";
    }

    /** The form fields as they stand. */
    function Current(): Fields
      reads this
    {
      Fields(name, description, public, password)
    }

    /**
     * `save`: a guest's submission does nothing (`Ok(Nothing)`); an invalid form fails
     * validation; otherwise the share `NewShare` builds is stored under the new id, owned
     * by the actor, one `share_create` entry by the actor is appended and the new id is
     * returned. `newId` is the ULID the database has not seen.
     */
    method Save(db: Database, actor: Option<User>, newId: ShareId, freshToken: string, passwordHash: string, now: int)
      returns (r: Result<Option<ShareId>, Error>)
      requires db.Valid() && newId !in db.shares
      modifies db`shares, db`auditLogs
      ensures db.Valid()
      ensures actor.Nothing? ==> r == Ok(Nothing)
      ensures actor.Some? && Validate(Current()).Fail? ==> r == Err(Validate(Current()).error)
      ensures r != Ok(Some(newId)) ==> db.shares == old(db.shares) && db.auditLogs == old(db.auditLogs)
      ensures r == Ok(Some(newId)) <==> actor.Some? && Validate(Current()).Pass?
      ensures r == Ok(Some(newId)) ==>
        db.shares == old(db.shares)[newId := NewShare(newId, actor.value.id, Current(), freshToken, passwordHash)] &&
        db.auditLogs == old(db.auditLogs) + [AuditEntry(now, newId, Nothing, Some(actor.value.id), ShareCreate, NoDetails)]
    {
      if actor.Nothing? {
        return Ok(Nothing);
      }
      var valid := Validate(Current());
      if valid.Fail? {
        return Err(valid.error);
      }
      var share := Share(newId, actor.value.id, name, description, Nothing, Nothing);
      share := share.(publicToken := if public then Some(freshToken) else Nothing);
      share := share.(password := if Truthy(password) then Some(passwordHash) else Nothing);
      db.SaveShare(share);
      var _ := db.AddAuditLog(share, ShareCreate, NoDetails, actor, now);
      r := Ok(Some(newId));
    }
  }
}
