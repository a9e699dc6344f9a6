/**
 * The access gate: the string-keyed permission check, `authorizeShare` with its three
 * credential paths (public token, session user, password elevation), and the throttled
 * password login that grants the elevation.
 */
module ShareAuthorization {
  import opened Wrappers
  import opened PhpSemantics
  import opened Permissions
  import opened Errors
  import opened ShareModel
  import opened SessionStore
  import opened RateLimiting

  /** The level a `$requiredPermission` string names; only 'owner', 'write' and 'read' do. */
  function RequiredLevel(required: string): (r: Option<SharePermission>)
    ensures r.Some? <==> required == "owner" || required == "write" || required == "read"
    ensures r == Some(Owner) <==> required == "owner"
    ensures r == Some(Write) <==> required == "write"
    ensures r == Some(Read) <==> required == "read"
    ensures r != Some(None)
  {
    if required == "owner" then Some(Owner)
    else if required == "write" then Some(Write)
    else if required == "read" then Some(Read)
    else Nothing
  }

  /**
   * `hasSharePermission`: an unknown level is an invalid argument (even for a guest);
   * otherwise the answer is whether the user's permission implies the required level.
   */
  function HasSharePermission(share: Share, grants: GrantTable, required: string, user: Option<User>)
    : (r: Result<bool, Error>)
    ensures r.Err? <==> RequiredLevel(required).Nothing?
    ensures r.Err? ==> r.error == InvalidArgument
    ensures r.Ok? ==> (r.value <==> Implies(GetUserPermission(share, grants, user), RequiredLevel(required).value))
  {
    if !(required == "owner" || required == "write" || required == "read") then Err(InvalidArgument)
    else if user.Nothing? then Ok(false)
    else if share.ownerId == user.value.id then Ok(true)
    else
      var row := Get(GrantsOf(grants, share.id), user.value.id);
      if row.Nothing? then Ok(false)
      else
        var permission := GrantName(row.value);
        if required == "read" then Ok(permission == "write" || permission == "read")
        else if required == "write" then Ok(permission == "write")
        else Ok(false)
  }

  /** The rules of `hasSharePermission`, case by case. */
  lemma HasSharePermissionRules(share: Share, grants: GrantTable, required: string, user: Option<User>)
    requires required == "owner" || required == "write" || required == "read"
    ensures user.Nothing? ==> HasSharePermission(share, grants, required, user) == Ok(false)
    ensures IsOwner(share, user) ==> HasSharePermission(share, grants, required, user) == Ok(true)
    ensures user.Some? && !IsOwner(share, user) ==>
      var row := Get(GrantsOf(grants, share.id), user.value.id);
      HasSharePermission(share, grants, required, user) == Ok(
        if required == "read" then row.Some?
        else if required == "write" then row == Some(GrantWrite)
        else false)
  {
  }

  /** The share a request found, and whether it came by the public-token path. */
  datatype Located = Located(share: Share, usingToken: bool)

  /**
   * Step one of `authorizeShare`: with a (truthy) token, the share with that id that has
   * some token, which must then equal the given one; without, the share with that id among
   * those the user owns or holds a grant on.
   */
  function LookUpShare(
    shares: map<ShareId, Share>, grants: GrantTable, shareId: ShareId,
    publicToken: Option<string>, user: Option<User>): (r: Result<Located, Error>)
    ensures r.Ok? ==> shareId in shares && r.value.share == shares[shareId]
    ensures r.Ok? ==> r.value.usingToken == TruthyOpt(publicToken)
    ensures r.Ok? <==>
      shareId in shares &&
      (if TruthyOpt(publicToken) then shares[shareId].publicToken == publicToken
       else HasAccess(shares[shareId], grants, user))
    ensures r.Err? ==> r.error == NotFound || r.error == InvalidPublicToken(TokenMismatchMessage)
    ensures r.Err? && r.error.InvalidPublicToken? <==>
      TruthyOpt(publicToken) && shareId in shares && shares[shareId].publicToken.Some? &&
      shares[shareId].publicToken != publicToken
  {
    if TruthyOpt(publicToken) then
      if shareId in shares && shares[shareId].publicToken.Some? then
        var share := shares[shareId];
        if share.publicToken.value != publicToken.value then Err(InvalidPublicToken(TokenMismatchMessage))
        else Ok(Located(share, true))
      else Err(NotFound)
    else if shareId in ShareModel.WhereUserHasAccess(shares, grants, user) then
      HasAccessIffAnyPermission(shares[shareId], grants, user);
      Ok(Located(shares[shareId], false))
    else
      Err(NotFound)
  }

  /**
   * The password gate: skipped on request and for the owner; otherwise a share with a
   * password needs the session to hold exactly its current hash.
   */
  predicate PasswordGatePasses(share: Share, user: Option<User>, skipPasswordCheck: bool, session: map<string, string>)
    : (r: bool)
    ensures skipPasswordCheck || IsOwner(share, user) || !TruthyOpt(share.password) ==> r
    ensures (r && !skipPasswordCheck && !IsOwner(share, user) && TruthyOpt(share.password)) ==>
      PasswordKey(share.id) in session && session[PasswordKey(share.id)] == share.password.value
  {
    skipPasswordCheck || IsOwner(share, user) || !TruthyOpt(share.password)
    || Get(session, PasswordKey(share.id)) == share.password
  }

  /** Step five: public links imply read; anything else needs the permission itself. */
  predicate PermissionSatisfied(share: Share, grants: GrantTable, usingToken: bool, required: string, user: Option<User>)
    : (r: bool)
    ensures usingToken && required == "read" ==> r
    ensures !(usingToken && required == "read") ==> (r <==> HasSharePermission(share, grants, required, user) == Ok(true))
    ensures r ==> required == "owner" || required == "write" || required == "read"
  {
    (usingToken && required == "read")
    || (RequiredLevel(required).Some? && Implies(GetUserPermission(share, grants, user), RequiredLevel(required).value))
  }

  /**
   * `authorizeShare`: the share when every step passes. Failures come in a fixed order:
   * the lookup (not found, wrong token), then the password gate, then the permission
   * check (an unknown level, or a level the user lacks).
   */
  function AuthorizeShare(
    shares: map<ShareId, Share>, grants: GrantTable, session: map<string, string>,
    shareId: ShareId, publicToken: Option<string>, skipPasswordCheck: bool,
    requiredPermission: string, user: Option<User>): (r: Result<Share, Error>)
    ensures r.Ok? ==> shareId in shares && r.value == shares[shareId]
    ensures r.Ok? <==>
      shareId in shares &&
      (if TruthyOpt(publicToken) then shares[shareId].publicToken == publicToken
       else HasAccess(shares[shareId], grants, user)) &&
      PasswordGatePasses(shares[shareId], user, skipPasswordCheck, session) &&
      PermissionSatisfied(shares[shareId], grants, TruthyOpt(publicToken), requiredPermission, user)
    ensures LookUpShare(shares, grants, shareId, publicToken, user).Err? ==>
      r == Err(LookUpShare(shares, grants, shareId, publicToken, user).error)
    ensures r.Err? && r.error.InvalidPassword? ==>
      LookUpShare(shares, grants, shareId, publicToken, user).Ok? &&
      !PasswordGatePasses(shares[shareId], user, skipPasswordCheck, session)
    ensures r.Err? && (r.error.PermissionDenied? || r.error.InvalidArgument?) ==>
      LookUpShare(shares, grants, shareId, publicToken, user).Ok? &&
      PasswordGatePasses(shares[shareId], user, skipPasswordCheck, session)
    ensures LookUpShare(shares, grants, shareId, publicToken, user).Ok? &&
            !PasswordGatePasses(shares[shareId], user, skipPasswordCheck, session) ==>
      r == Err(InvalidPassword(SessionExpiredMessage))
    ensures LookUpShare(shares, grants, shareId, publicToken, user).Ok? &&
            PasswordGatePasses(shares[shareId], user, skipPasswordCheck, session) &&
            !PermissionSatisfied(shares[shareId], grants, TruthyOpt(publicToken), requiredPermission, user) ==>
      r == Err(if RequiredLevel(requiredPermission).Nothing? then InvalidArgument else PermissionDenied(requiredPermission))
    ensures r.Err? ==>
      r.error in {NotFound, InvalidPublicToken(TokenMismatchMessage), InvalidPassword(SessionExpiredMessage),
                  PermissionDenied(requiredPermission), InvalidArgument}
  {
    match LookUpShare(shares, grants, shareId, publicToken, user)
    case Err(e) => Err(e)
    case Ok(located) =>
      var share := located.share;
      var userIsOwner := user.Some? && user.value.id == share.ownerId;
      if !skipPasswordCheck && !userIsOwner && TruthyOpt(share.password)
         && share.password != Get(session, PasswordKey(share.id)) then
        Err(InvalidPassword(SessionExpiredMessage))
      else if located.usingToken && requiredPermission == "read" then
        Ok(share)
      else
        match HasSharePermission(share, grants, requiredPermission, user)
        case Err(e) => Err(e)
        case Ok(allowed) => if allowed then Ok(share) else Err(PermissionDenied(requiredPermission))
  }

  /**
   * A token request for 'read' never consults the grants: its outcome is the same
   * whatever the grant table holds.
   */
  lemma TokenReadIgnoresGrants(
    shares: map<ShareId, Share>, grants1: GrantTable, grants2: GrantTable, session: map<string, string>,
    shareId: ShareId, publicToken: Option<string>, skipPasswordCheck: bool, user: Option<User>)
    requires TruthyOpt(publicToken)
    ensures AuthorizeShare(shares, grants1, session, shareId, publicToken, skipPasswordCheck, "read", user)
         == AuthorizeShare(shares, grants2, session, shareId, publicToken, skipPasswordCheck, "read", user)
  {
  }

  /**
   * A user holding a 'read' grant (and past the password gate) who asks for 'write'
   * without a token is refused with the missing-permission error.
   */
  lemma ReaderAskingForWriteIsDenied(
    shares: map<ShareId, Share>, grants: GrantTable, session: map<string, string>,
    shareId: ShareId, user: User)
    requires shareId in shares && shares[shareId].id == shareId
    requires !IsOwner(shares[shareId], Some(user))
    requires Get(GrantsOf(grants, shareId), user.id) == Some(GrantRead)
    requires PasswordGatePasses(shares[shareId], Some(user), false, session)
    ensures AuthorizeShare(shares, grants, session, shareId, Nothing, false, "write", Some(user))
         == Err(PermissionDenied("write"))
  {
  }

  /** A token never implies more than read: any other level still needs the permission. */
  lemma TokenAloneNeverImpliesWrite(
    shares: map<ShareId, Share>, grants: GrantTable, session: map<string, string>,
    shareId: ShareId, publicToken: Option<string>, skipPasswordCheck: bool,
    requiredPermission: string, user: Option<User>)
    requires requiredPermission != "read"
    requires AuthorizeShare(shares, grants, session, shareId, publicToken, skipPasswordCheck, requiredPermission, user).Ok?
    ensures HasSharePermission(shares[shareId], grants, requiredPermission, user) == Ok(true)
  {
  }

  /**
   * Rotating the password invalidates existing elevation: a request that passed before
   * fails with the expired-password error once the share's hash is replaced by one the
   * session does not hold.
   */
  lemma PasswordRotationInvalidatesElevation(
    shares: map<ShareId, Share>, grants: GrantTable, session: map<string, string>,
    shareId: ShareId, publicToken: Option<string>, requiredPermission: string, user: Option<User>,
    newHash: string)
    requires AuthorizeShare(shares, grants, session, shareId, publicToken, false, requiredPermission, user).Ok?
    requires !IsOwner(shares[shareId], user)
    requires Truthy(newHash) && Get(session, PasswordKey(shares[shareId].id)) != Some(newHash)
    ensures AuthorizeShare(shares[shareId := shares[shareId].(password := Some(newHash))], grants, session,
                           shareId, publicToken, false, requiredPermission, user)
         == Err(InvalidPassword(SessionExpiredMessage))
  {
    var rotated := shares[shareId := shares[shareId].(password := Some(newHash))];
    assert LookUpShare(rotated, grants, shareId, publicToken, user).Ok?;
  }

  /**
   * What a successful login stores opens the password gate of that share, and leaves the
   * gate of every other share as it was.
   */
  lemma LoginElevationOpensGate(share: Share, other: Share, user: Option<User>, session: map<string, string>)
    requires share.password.Some?
    requires other.id != share.id
    ensures PasswordGatePasses(share, user, false, session[PasswordKey(share.id) := share.password.value])
    ensures PasswordGatePasses(other, user, false, session[PasswordKey(share.id) := share.password.value])
        <==> PasswordGatePasses(other, user, false, session)
  {
    PasswordKeyInjective(share.id, other.id);
  }

  /**
   * `shareLogin`. With five or more recorded attempts for "<share id>|<ip>" it fails as
   * rate-limited and changes nothing. Otherwise a share without a password or a password
   * the hash check rejects counts one more attempt and fails; a correct password stores
   * the share's current hash (not the password) under the share's session key.
   * `check` stands for `Hash::check`, `availableIn` for `RateLimiter::availableIn`.
   */
  method ShareLogin(
    share: Share, password: string, ip: string, check: (string, string) -> bool,
    limiter: RateLimiter, session: Session, availableIn: int) returns (r: Outcome<Error>)
    modifies limiter, session
    ensures old(limiter.TooManyAttempts(ThrottleKey(share.id, ip), MaxLoginAttempts)) ==>
      r == Fail(RateLimited(availableIn)) &&
      limiter.attempts == old(limiter.attempts) && session.values == old(session.values)
    ensures (!old(limiter.TooManyAttempts(ThrottleKey(share.id, ip), MaxLoginAttempts)) &&
             !(TruthyOpt(share.password) && check(password, share.password.value))) ==>
      r == Fail(InvalidPassword(WrongPasswordMessage)) &&
      limiter.attempts == old(limiter.attempts)[ThrottleKey(share.id, ip) := old(limiter.Attempts(ThrottleKey(share.id, ip))) + 1] &&
      session.values == old(session.values)
    ensures (!old(limiter.TooManyAttempts(ThrottleKey(share.id, ip), MaxLoginAttempts)) &&
             TruthyOpt(share.password) && check(password, share.password.value)) ==>
      r == Pass &&
      limiter.attempts == old(limiter.attempts) &&
      session.values == old(session.values)[PasswordKey(share.id) := share.password.value]
  {
    var throttleKey := ThrottleKey(share.id, ip);
    if limiter.TooManyAttempts(throttleKey, MaxLoginAttempts) {
      return Fail(RateLimited(availableIn));
    }
    if !TruthyOpt(share.password) || !check(password, share.password.value) {
      limiter.Hit(throttleKey);
      return Fail(InvalidPassword(WrongPasswordMessage));
    }
    session.Put(PasswordKey(share.id), share.password.value);
    r := Pass;
  }

  /**
   * Five failed logins from a fresh counter lock the (share, client) pair: the sixth
   * attempt is rate-limited, even with the right password, and the session is untouched.
   */
  method SixthAttemptIsRateLimited(
    share: Share, wrong: string, right: string, ip: string, check: (string, string) -> bool,
    limiter: RateLimiter, session: Session, availableIn: int) returns (sixth: Outcome<Error>)
    requires limiter.Attempts(ThrottleKey(share.id, ip)) == 0
    requires !(TruthyOpt(share.password) && check(wrong, share.password.value))
    modifies limiter, session
    ensures sixth == Fail(RateLimited(availableIn))
    ensures limiter.Attempts(ThrottleKey(share.id, ip)) == MaxLoginAttempts
    ensures session.values == old(session.values)
  {
    var r := ShareLogin(share, wrong, ip, check, limiter, session, availableIn);
    r := ShareLogin(share, wrong, ip, check, limiter, session, availableIn);
    r := ShareLogin(share, wrong, ip, check, limiter, session, availableIn);
    r := ShareLogin(share, wrong, ip, check, limiter, session, availableIn);
    r := ShareLogin(share, wrong, ip, check, limiter, session, availableIn);
    sixth := ShareLogin(share, right, ip, check, limiter, session, availableIn);
  }
}
