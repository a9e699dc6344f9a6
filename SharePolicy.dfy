/**
 * The share policy: allow/deny decisions with one deny reason each. They read the
 * session but never write it.
 */
module SharePolicy {
  import opened Wrappers
  import opened PhpSemantics
  import opened Permissions
  import opened Errors
  import opened ShareModel
  import opened SessionStore
  import ShareAuthorization

  const NoAccessMessage := "You do not have access to this Share."
  const TokenIncorrectMessage := "The public token is incorrect"
  const PasswordRequiredMessage := "This share requires a password"
  const PasswordExpiredMessage := "The entered password for the share has expired"
  const NotOwnerMessage := "You do not own this Share."
  const NoWriteAccessMessage := "You do not have write access to the Share."

  /**
   * `viewShareLogin`: may the visitor reach the share's login screen (everything but the
   * password)? A signed-in user needs some permission, and a token is only looked at
   * when nobody is signed in. A guest's token compared against a share without a token
   * hands `null` to `hash_equals`, which strict types turn into a TypeError.
   */
  function ViewShareLogin(user: Option<User>, share: Share, grants: GrantTable, publicToken: Option<string>)
    : (r: Result<Response, Error>)
    ensures r.Err? <==> user.Nothing? && TruthyOpt(publicToken) && share.publicToken.Nothing?
    ensures r.Err? ==> r.error == TypeError
    ensures r == Ok(Allow) <==>
      HasAccess(share, grants, user) ||
      (user.Nothing? && TruthyOpt(publicToken) && share.publicToken == publicToken)
    ensures r.Ok? && r.value.Deny? ==>
      r.value.reason == (if user.Nothing? && TruthyOpt(publicToken) then PublicTokenIncorrect else MissingCredentials)
  {
    if user.Some? && GetUserPermission(share, grants, user) in {Owner, Read, Write} then
      HasAccessIffAnyPermission(share, grants, user);
      Ok(Allow)
    else if user.Nothing? && TruthyOpt(publicToken) then
      if share.publicToken.Nothing? then Err(TypeError)
      else if share.publicToken.value == publicToken.value then Ok(Allow)
      else Ok(Deny(TokenIncorrectMessage, PublicTokenIncorrect))
    else
      HasAccessIffAnyPermission(share, grants, user);
      Ok(Deny(NoAccessMessage, MissingCredentials))
  }

  /**
   * `view`: `viewShareLogin`'s denials pass through unchanged; then, unless the user is
   * the owner, a password share needs the session to hold exactly the current hash.
   */
  function View(user: Option<User>, share: Share, grants: GrantTable, publicToken: Option<string>, session: map<string, string>)
    : (r: Result<Response, Error>)
    ensures ViewShareLogin(user, share, grants, publicToken) != Ok(Allow) ==>
      r == ViewShareLogin(user, share, grants, publicToken)
    ensures r == Ok(Allow) <==>
      ViewShareLogin(user, share, grants, publicToken) == Ok(Allow) &&
      (IsOwner(share, user) || !TruthyOpt(share.password) || Get(session, PasswordKey(share.id)) == share.password)
    ensures ViewShareLogin(user, share, grants, publicToken) == Ok(Allow) && r != Ok(Allow) ==>
      r.Ok? && r.value.Deny? && r.value.reason == InvalidSharePassword
  {
    var response := ViewShareLogin(user, share, grants, publicToken);
    if response != Ok(Allow) then response
    else
      var isOwner := user.Some? && share.ownerId == user.value.id;
      if TruthyOpt(share.password) && !isOwner then
        var sessionPasswordHash := Get(session, PasswordKey(share.id));
        if !TruthyOpt(sessionPasswordHash) then Ok(Deny(PasswordRequiredMessage, InvalidSharePassword))
        else if share.password.value == sessionPasswordHash.value then Ok(Allow)
        else Ok(Deny(PasswordExpiredMessage, InvalidSharePassword))
      else response
  }

  /** The owner-only decision shared by `viewAudit`, `update`, `updateAccess` and `delete`. */
  function OwnerOnly(user: User, share: Share, grants: GrantTable): (r: Response)
    ensures r.Allow? <==> user.id == share.ownerId
    ensures r.Deny? ==> r == Deny(NotOwnerMessage, MissingPermission)
  {
    if GetUserPermission(share, grants, Some(user)) == Owner then Allow
    else Deny(NotOwnerMessage, MissingPermission)
  }

  /** `viewAudit`: only the owner sees the audit log. */
  function ViewAudit(user: User, share: Share, grants: GrantTable): (r: Response)
    ensures r.Allow? <==> GetUserPermission(share, grants, Some(user)) == Owner
    ensures r.Deny? ==> r.reason == MissingPermission
  {
    OwnerOnly(user, share, grants)
  }

  /** `create`: every signed-in user may create shares. */
  function Create(user: User): (r: Response)
    ensures r.Allow?
  {
    Allow
  }

  /** `createFile`: the owner and users with a 'write' grant may add files. */
  function CreateFile(user: User, share: Share, grants: GrantTable): (r: Response)
    ensures r.Allow? <==> Implies(GetUserPermission(share, grants, Some(user)), Write)
    ensures r.Allow? <==> user.id == share.ownerId || Get(GrantsOf(grants, share.id), user.id) == Some(GrantWrite)
    ensures r.Deny? ==> r == Deny(NoWriteAccessMessage, MissingPermission)
  {
    var permission := GetUserPermission(share, grants, Some(user));
    if permission == Owner || permission == Write then Allow
    else Deny(NoWriteAccessMessage, MissingPermission)
  }

  /** `update`: only the owner may edit the share itself. */
  function Update(user: User, share: Share, grants: GrantTable): (r: Response)
    ensures r.Allow? <==> GetUserPermission(share, grants, Some(user)) == Owner
    ensures r.Deny? ==> r.reason == MissingPermission
  {
    OwnerOnly(user, share, grants)
  }

  /** `updateAccess`: only the owner may manage grants. */
  function UpdateAccess(user: User, share: Share, grants: GrantTable): (r: Response)
    ensures r.Allow? <==> GetUserPermission(share, grants, Some(user)) == Owner
    ensures r.Deny? ==> r.reason == MissingPermission
  {
    OwnerOnly(user, share, grants)
  }

  /** `delete`: only the owner may delete the share. */
  function Delete(user: User, share: Share, grants: GrantTable): (r: Response)
    ensures r.Allow? <==> GetUserPermission(share, grants, Some(user)) == Owner
    ensures r.Deny? ==> r.reason == MissingPermission
  {
    OwnerOnly(user, share, grants)
  }

  /**
   * Grants never make a user owner: whatever grant a non-owner holds, every owner-only
   * decision denies them with MissingPermission.
   */
  lemma GrantsNeverConferOwnership(user: User, share: Share, grants: GrantTable, g: Grant)
    requires user.id != share.ownerId
    ensures var withGrant := grants[share.id := GrantsOf(grants, share.id)[user.id := g]];
      ViewAudit(user, share, withGrant) == Deny(NotOwnerMessage, MissingPermission) &&
      Update(user, share, withGrant) == Deny(NotOwnerMessage, MissingPermission) &&
      UpdateAccess(user, share, withGrant) == Deny(NotOwnerMessage, MissingPermission) &&
      Delete(user, share, withGrant) == Deny(NotOwnerMessage, MissingPermission)
  {
  }

  /**
   * `view` and `authorizeShare` (for 'read', with the password gate) agree for a signed-in
   * user without a token, and for a guest with a token on a share that has one.
   */
  lemma ViewAgreesWithAuthorizeShare(
    shares: map<ShareId, Share>, grants: GrantTable, session: map<string, string>,
    shareId: ShareId, publicToken: Option<string>, user: Option<User>)
    requires shareId in shares
    requires (user.Some? && !TruthyOpt(publicToken)) ||
             (user.Nothing? && TruthyOpt(publicToken) && shares[shareId].publicToken.Some?)
    ensures ShareAuthorization.AuthorizeShare(shares, grants, session, shareId, publicToken, false, "read", user).Ok?
        <==> View(user, shares[shareId], grants, publicToken, session) == Ok(Allow)
  {
    HasAccessIffAnyPermission(shares[shareId], grants, user);
  }

  /**
   * Where the two disagree: a signed-in user without any grant who holds the correct
   * public token is let in by `authorizeShare` but denied MissingCredentials by `view`,
   * because `viewShareLogin` only looks at the token when nobody is signed in.
   */
  lemma SignedInTokenHolderDeniedByView(
    shares: map<ShareId, Share>, grants: GrantTable, session: map<string, string>,
    shareId: ShareId, token: string, user: User)
    requires shareId in shares
    requires shares[shareId].publicToken == Some(token) && Truthy(token)
    requires !TruthyOpt(shares[shareId].password)
    requires !HasAccess(shares[shareId], grants, Some(user))
    ensures View(Some(user), shares[shareId], grants, Some(token), session) == Ok(Deny(NoAccessMessage, MissingCredentials))
    ensures ShareAuthorization.AuthorizeShare(shares, grants, session, shareId, Some(token), false, "read", Some(user))
         == Ok(shares[shareId])
  {
  }
}
