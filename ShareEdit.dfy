/**
 * The share edit form: `mount` copies the stored share into the form, `save` writes the
 * form back for the owner, keeping the link while the share stays public, issuing a new
 * link when it is published again, and keeping the password unless a new one is typed.
 */
module ShareEdit {
  import opened Wrappers
  import opened PhpSemantics
  import opened Permissions
  import opened Errors
  import opened ShareModel
  import opened SessionStore
  import opened ShareForm
  import SharePolicy
  import ShareAuthorization

  /** `mount`: the form fields a stored share is shown with. */
  function MountedFields(share: Share): (f: Fields)
    ensures f.name == share.name && f.description == share.description
    ensures f.public <==> share.publicToken.Some?
    ensures f.password == PasswordSentinel <==> TruthyOpt(share.password)
    ensures f.password == PasswordSentinel || f.password == ""
  {
    Fields(share.name, share.description, share.publicToken.Some?,
           if TruthyOpt(share.password) then PasswordSentinel else "")
  }

  /**
   * The share that `save` stores for form fields `f`. A share that stays public keeps its
   * token; one that becomes public (or whose token is falsy) gets `freshToken`; one that
   * is not public loses its token. The sentinel keeps the password; anything else
   * replaces it by `PasswordColumn`.
   */
  function ApplyEdit(share: Share, f: Fields, freshToken: string, passwordHash: string): (r: Share)
    ensures r.id == share.id && r.ownerId == share.ownerId
    ensures r.name == f.name && r.description == f.description
    ensures r.publicToken.Some? <==> f.public
    ensures f.public && TruthyOpt(share.publicToken) ==> r.publicToken == share.publicToken
    ensures f.public && !TruthyOpt(share.publicToken) ==> r.publicToken == Some(freshToken)
    ensures f.password == PasswordSentinel ==> r.password == share.password
    ensures f.password != PasswordSentinel ==> r.password == PasswordColumn(f.password, passwordHash)
  {
    var token :=
      if f.public && !TruthyOpt(share.publicToken) then Some(freshToken)
      else if !f.public then Nothing
      else share.publicToken;
    var password := if f.password != PasswordSentinel then PasswordColumn(f.password, passwordHash) else share.password;
    share.(name := f.name, description := f.description, publicToken := token, password := password)
  }

  /**
   * A share as the forms store it: a token, if any, is truthy, and so is a password hash.
   */
  predicate WellFormed(share: Share) {
    (share.publicToken.Nothing? || TruthyOpt(share.publicToken)) &&
    (share.password.Nothing? || TruthyOpt(share.password))
  }

  /** Opening the form and saving it untouched stores the share exactly as it was. */
  lemma MountThenSaveKeepsShare(share: Share, freshToken: string, passwordHash: string)
    requires WellFormed(share)
    ensures ApplyEdit(share, MountedFields(share), freshToken, passwordHash) == share
  {
    var r := ApplyEdit(share, MountedFields(share), freshToken, passwordHash);
    if !TruthyOpt(share.password) {
      assert r.password == PasswordColumn("", passwordHash) == Nothing == share.password;
    }
  }

  /** Saving a well-formed share with a generated token and a truthy hash keeps it well formed. */
  lemma EditKeepsWellFormed(share: Share, f: Fields, freshToken: string, passwordHash: string)
    requires WellFormed(share)
    requires IsUrlSafeToken(freshToken) && Truthy(passwordHash)
    ensures WellFormed(ApplyEdit(share, f, freshToken, passwordHash))
  {
    GeneratedTokenIsTruthy(freshToken);
  }

  /** Unpublishing a share makes its old link lead nowhere. */
  lemma UnpublishingClosesOldLink(
    shares: map<ShareId, Share>, grants: GrantTable, session: map<string, string>,
    share: Share, f: Fields, freshToken: string, passwordHash: string,
    oldToken: string, skipPasswordCheck: bool, requiredPermission: string, user: Option<User>)
    requires !f.public && Truthy(oldToken)
    ensures var after := shares[share.id := ApplyEdit(share, f, freshToken, passwordHash)];
      ShareAuthorization.AuthorizeShare(after, grants, session, share.id, Some(oldToken),
                                        skipPasswordCheck, requiredPermission, user) == Err(NotFound)
  {
  }

  /**
   * Unpublishing and later publishing again issues a new link: the old token is then
   * refused as incorrect, so old links do not become valid again.
   */
  lemma RepublishingNeverRevivesOldLink(
    shares: map<ShareId, Share>, grants: GrantTable, session: map<string, string>,
    share: Share, off: Fields, on: Fields, token1: string, token2: string, passwordHash: string,
    skipPasswordCheck: bool, requiredPermission: string, user: Option<User>)
    requires TruthyOpt(share.publicToken)
    requires !off.public && on.public
    requires token2 != share.publicToken.value
    ensures var hidden := ApplyEdit(share, off, token1, passwordHash);
      var republished := ApplyEdit(hidden, on, token2, passwordHash);
      republished.publicToken == Some(token2) &&
      ShareAuthorization.AuthorizeShare(shares[share.id := republished], grants, session, share.id,
                                        share.publicToken, skipPasswordCheck, requiredPermission, user)
        == Err(InvalidPublicToken(TokenMismatchMessage))
  {
  }

  /**
   * Typing a new password into the form (and changing nothing else) expires every
   * elevation stored in the session for the old one: a non-owner who passed before now
   * fails with the expired-password error.
   */
  lemma NewPasswordExpiresElevation(
    shares: map<ShareId, Share>, grants: GrantTable, session: map<string, string>,
    shareId: ShareId, publicToken: Option<string>, requiredPermission: string, user: Option<User>,
    newPassword: string, freshToken: string, passwordHash: string)
    requires shareId in shares && shares[shareId].id == shareId && WellFormed(shares[shareId])
    requires ShareAuthorization.AuthorizeShare(shares, grants, session, shareId, publicToken, false, requiredPermission, user).Ok?
    requires !IsOwner(shares[shareId], user)
    requires Truthy(newPassword) && newPassword != PasswordSentinel
    requires Truthy(passwordHash) && Get(session, PasswordKey(shareId)) != Some(passwordHash)
    ensures var share := shares[shareId];
      var edited := ApplyEdit(share, MountedFields(share).(password := newPassword), freshToken, passwordHash);
      ShareAuthorization.AuthorizeShare(shares[shareId := edited], grants, session, shareId, publicToken, false,
                                        requiredPermission, user)
        == Err(InvalidPassword(SessionExpiredMessage))
  {
    var share := shares[shareId];
    var edited := ApplyEdit(share, MountedFields(share).(password := newPassword), freshToken, passwordHash);
    MountThenSaveKeepsShare(share, freshToken, passwordHash);
    assert edited == share.(password := Some(passwordHash));
    ShareAuthorization.PasswordRotationInvalidatesElevation(
      shares, grants, session, shareId, publicToken, requiredPermission, user, passwordHash);
  }

  /** Emptying the password field removes the password gate for everybody. */
  lemma ClearingPasswordOpensGate(
    share: Share, f: Fields, freshToken: string, passwordHash: string,
    user: Option<User>, session: map<string, string>)
    requires f.password == "" || f.password == "0"
    ensures ShareAuthorization.PasswordGatePasses(ApplyEdit(share, f, freshToken, passwordHash), user, false, session)
  {
  }

  /** The component's state: the share it edits and the four form fields. */
  class EditForm {
    const shareId: ShareId
    var name: string
    var description: string
    var public: bool
    var password: string

    constructor (shareId: ShareId)
      ensures this.shareId == shareId && Current() == Fields("", "", false, "")
    {
      this.shareId := shareId;
      name := "";
      description := "";
      public := false;
      password := "";
    }

    /** The form fields as they stand. */
    function Current(): Fields
      reads this
    {
      Fields(name, description, public, password)
    }

    /** `mount`: a missing share is not found; otherwise the form shows the stored share. */
    method Mount(db: Database) returns (r: Outcome<Error>)
      modifies this`name, this`description, this`public, this`password
      ensures shareId !in db.shares ==> r == Fail(NotFound) && Current() == old(Current())
      ensures shareId in db.shares ==> r == Pass && Current() == MountedFields(db.shares[shareId])
    {
      if shareId !in db.shares {
        return Fail(NotFound);
      }
      var share := db.shares[shareId];
      name := share.name;
      description := share.description;
      public := share.publicToken.Some?;
      password := if TruthyOpt(share.password) then PasswordSentinel else "";
      r := Pass;
    }

    /**
     * `save`: validation comes first, then the lookup, then the `update` policy (a guest
     * is turned away by the gate itself). On success the stored share becomes
     * `ApplyEdit` of the form and one `share_update` entry is appended; on any failure
     * nothing changes.
     */
    method Save(db: Database, actor: Option<User>, freshToken: string, passwordHash: string, now: int)
      returns (r: Outcome<Error>)
      requires db.Valid()
      modifies db`shares, db`auditLogs
      ensures db.Valid()
      ensures r.Fail? ==> db.shares == old(db.shares) && db.auditLogs == old(db.auditLogs)
      ensures Validate(Current()).Fail? ==> r == Validate(Current())
      ensures Validate(Current()).Pass? && shareId !in old(db.shares) ==> r == Fail(NotFound)
      ensures Validate(Current()).Pass? && shareId in old(db.shares) && actor.Nothing? ==>
        r == Fail(Unauthorized(Nothing))
      ensures (Validate(Current()).Pass? && shareId in old(db.shares) && actor.Some? &&
               SharePolicy.Update(actor.value, old(db.shares[shareId]), db.grants).Deny?) ==>
        r == Fail(Unauthorized(Some(MissingPermission)))
      ensures r.Pass? <==>
        Validate(Current()).Pass? && shareId in old(db.shares) && actor.Some? &&
        SharePolicy.Update(actor.value, old(db.shares[shareId]), db.grants).Allow?
      ensures r.Pass? ==>
        db.shares == old(db.shares)[shareId := ApplyEdit(old(db.shares[shareId]), Current(), freshToken, passwordHash)] &&
        db.auditLogs == old(db.auditLogs) + [AuditEntry(now, shareId, Nothing, ActorId(actor), ShareUpdate, NoDetails)]
    {
      var valid := Validate(Current());
      if valid.Fail? {
        return valid;
      }
      if shareId !in db.shares {
        return Fail(NotFound);
      }
      var share := db.shares[shareId];
      if actor.Nothing? {
        return Fail(Unauthorized(Nothing));
      }
      var decision := SharePolicy.Update(actor.value, share, db.grants);
      if decision.Deny? {
        return Fail(Unauthorized(Some(decision.reason)));
      }
      share := share.(name := name, description := description);
      if public && !TruthyOpt(share.publicToken) {
        share := share.(publicToken := Some(freshToken));
      } else if !public {
        share := share.(publicToken := Nothing);
      }
      if password != PasswordSentinel {
        share := share.(password := if Truthy(password) then Some(passwordHash) else Nothing);
      }
      db.SaveShare(share);
      var _ := db.AddAuditLog(share, ShareUpdate, NoDetails, actor, now);
      r := Pass;
    }
  }
}
