/**
 * The owner's grant editor: a component holding the pending permission of each user,
 * which `addUser` extends and `save` writes back to the grant table.
 */
module ShareEditAccess {
  import opened Wrappers
  import opened Permissions
  import opened Errors
  import opened ShareModel
  import ShareAuthorization

  /** `User::where('email', $email)->first()`: a user with that email (emails are unique), if any. */
  function FindUserByEmail(users: seq<User>, email: string): (r: Option<User>)
    ensures r.Some? ==> r.value in users && r.value.email == email
    ensures r.Nothing? ==> forall i :: 0 <= i < |users| ==> users[i].email != email
    decreases |users|
  {
    if |users| == 0 then Nothing
    else if users[0].email == email then Some(users[0])
    else FindUserByEmail(users[1..], email)
  }

  /**
   * The `$sync` map `save` builds: every listed user except the owner whose permission is
   * 'read' or 'write', at that level; 'none' and any other value are dropped.
   */
  function SyncOf(permissions: map<UserId, string>, ownerId: UserId): (sync: map<UserId, Grant>)
    ensures ownerId !in sync
    ensures forall u :: u in sync <==> u in permissions && u != ownerId && (permissions[u] == "read" || permissions[u] == "write")
    ensures forall u :: u in sync ==> GrantName(sync[u]) == permissions[u]
  {
    map u | u in permissions && u != ownerId && ParseGrant(permissions[u]).Some? :: ParseGrant(permissions[u]).value
  }

  /** A non-empty set of user ids has a member to pick. */
  lemma HasMember(todo: set<UserId>)
    requires todo != {}
    ensures exists u: UserId :: u in todo
  {
    if !exists u: UserId :: u in todo {
      assert false;
    }
  }

  /** The foreach of `save` that builds `$sync`. */
  method BuildSync(permissions: map<UserId, string>, ownerId: UserId) returns (sync: map<UserId, Grant>)
    ensures sync == SyncOf(permissions, ownerId)
  {
    sync := map[];
    var todo := permissions.Keys;
    while todo != {}
      invariant todo <= permissions.Keys
      invariant sync == SyncOf(permissions - todo, ownerId)
      decreases todo
    {
      HasMember(todo);
      var userId: UserId :| userId in todo;
      var permission := permissions[userId];
      if userId != ownerId && (permission == "read" || permission == "write") {
        sync := sync[userId := ParseGrant(permission).value];
      }
      todo := todo - {userId};
    }
    assert permissions - todo == permissions;
  }

  /** The permission column of each user's row, as `reloadPermissions` lists it. */
  function PermissionRows(grants: map<UserId, Grant>): (rows: map<UserId, string>)
    ensures rows.Keys == grants.Keys
    ensures forall u :: u in rows ==> ParseGrant(rows[u]) == Some(grants[u])
  {
    map u | u in grants :: GrantName(grants[u])
  }

  /** The foreach of `reloadPermissions` over the share's grant rows. */
  method CollectPermissions(grants: map<UserId, Grant>) returns (rows: map<UserId, string>)
    ensures rows == PermissionRows(grants)
  {
    rows := map[];
    var todo := grants.Keys;
    while todo != {}
      invariant todo <= grants.Keys
      invariant rows == PermissionRows(grants - todo)
      decreases todo
    {
      HasMember(todo);
      var userId: UserId :| userId in todo;
      rows := rows[userId := GrantName(grants[userId])];
      todo := todo - {userId};
    }
    assert grants - todo == grants;
  }

  /** Saving the rows just loaded, unedited, writes back the same grants. */
  lemma {:induction false} ReloadThenSaveKeepsGrants(grants: map<UserId, Grant>, ownerId: UserId)
    requires ownerId !in grants
    ensures SyncOf(PermissionRows(grants), ownerId) == grants
  {
    var sync := SyncOf(PermissionRows(grants), ownerId);
    forall u | u in sync ensures sync[u] == grants[u] {
      assert ParseGrant(GrantName(sync[u])) == Some(sync[u]);
    }
  }

  /**
   * After a save, every user other than the owner has exactly the level chosen for them:
   * 'read' gives Read, 'write' gives Write, and a user left out or set to anything else
   * loses access.
   */
  lemma SavedGrantsGiveChosenLevel(share: Share, grants: GrantTable, permissions: map<UserId, string>, user: User)
    requires user.id != share.ownerId
    ensures var after := grants[share.id := SyncOf(permissions, share.ownerId)];
      GetUserPermission(share, after, Some(user)) ==
        if user.id in permissions && permissions[user.id] == "read" then Read
        else if user.id in permissions && permissions[user.id] == "write" then Write
        else None
  {
    var sync := SyncOf(permissions, share.ownerId);
    if user.id in sync {
      assert ParseGrant(GrantName(sync[user.id])) == Some(sync[user.id]);
    }
  }

  /** A user added and then saved unchanged ends up with a 'read' grant. */
  lemma AddedUserIsSavedAsReader(permissions: map<UserId, string>, ownerId: UserId, userId: UserId)
    requires userId != ownerId
    ensures var sync := SyncOf(permissions[userId := "read"], ownerId);
      userId in sync && sync[userId] == GrantRead
  {
    var sync := SyncOf(permissions[userId := "read"], ownerId);
    assert ParseGrant(GrantName(sync[userId])) == Some(sync[userId]);
  }

  /** The component's state: the share it edits, the pending rows and the email field. */
  class EditAccessForm {
    const shareId: ShareId
    var permissions: map<UserId, string>
    var email: string

    constructor (shareId: ShareId)
      ensures this.shareId == shareId && permissions == map[] && email == ""
    {
      this.shareId := shareId;
      permissions := map[];
      email := "";
    }

    /** `reloadPermissions` (and `mount`): one row per grant on the share. */
    method ReloadPermissions(db: Database) returns (r: Outcome<Error>)
      requires db.Valid()
      modifies this`permissions
      ensures shareId !in db.shares ==> r == Fail(NotFound) && permissions == old(permissions)
      ensures shareId in db.shares ==> r == Pass && permissions == PermissionRows(GrantsOf(db.grants, shareId))
    {
      if shareId !in db.shares {
        return Fail(NotFound);
      }
      var share := db.shares[shareId];
      permissions := CollectPermissions(GrantsOf(db.grants, share.id));
      r := Pass;
    }

    /**
     * `save`: a missing share is not found; a non-owner changes nothing (no grant, no
     * audit entry); for the owner the share's grants become exactly the sync map, one
     * `share_access_change` entry is appended and the rows are reloaded.
     * `Ok(true)` stands for the saved share, `Ok(false)` for the silent refusal.
     */
    method Save(db: Database, actor: Option<User>, now: int) returns (r: Result<bool, Error>)
      requires db.Valid()
      modifies this`permissions, db`grants, db`auditLogs
      ensures db.Valid()
      ensures shareId !in db.shares ==>
        r == Err(NotFound) && permissions == old(permissions) &&
        db.grants == old(db.grants) && db.auditLogs == old(db.auditLogs)
      ensures shareId in db.shares && !IsOwner(db.shares[shareId], actor) ==>
        r == Ok(false) && permissions == old(permissions) &&
        db.grants == old(db.grants) && db.auditLogs == old(db.auditLogs)
      ensures shareId in db.shares && IsOwner(db.shares[shareId], actor) ==>
        var sync := SyncOf(old(permissions), db.shares[shareId].ownerId);
        r == Ok(true) &&
        db.grants == old(db.grants)[shareId := sync] &&
        db.auditLogs == old(db.auditLogs) + [AuditEntry(now, shareId, Nothing, ActorId(actor), ShareAccessChange, NoDetails)] &&
        permissions == PermissionRows(sync)
    {
      if shareId !in db.shares {
        return Err(NotFound);
      }
      var share := db.shares[shareId];
      var isOwner := ShareAuthorization.HasSharePermission(share, db.grants, "owner", actor);
      if !isOwner.value {
        return Ok(false);
      }
      var sync := BuildSync(permissions, share.ownerId);
      db.SyncUserAccess(share.id, sync);
      var _ := db.AddAuditLog(share, ShareAccessChange, NoDetails, actor, now);
      var _ := ReloadPermissions(db);
      r := Ok(true);
    }

    /**
     * `addUser`: an unknown email fails "No such user"; a user already listed, or the
     * owner, fails "already been added"; otherwise the user is listed once, at 'read',
     * and the email field is cleared. A failure changes nothing.
     */
    method AddUser(db: Database) returns (r: Outcome<Error>)
      modifies this`permissions, this`email
      ensures shareId !in db.shares ==>
        r == Fail(NotFound) && permissions == old(permissions) && email == old(email)
      ensures shareId in db.shares && FindUserByEmail(db.users, old(email)).Nothing? ==>
        r == Fail(ValidationFailed("email", NoSuchUserMessage)) &&
        permissions == old(permissions) && email == old(email)
      ensures shareId in db.shares && FindUserByEmail(db.users, old(email)).Some? ==>
        var user := FindUserByEmail(db.users, old(email)).value;
        if user.id in old(permissions) || user.id == db.shares[shareId].ownerId then
          r == Fail(ValidationFailed("email", AlreadyAddedMessage)) &&
          permissions == old(permissions) && email == old(email)
        else
          r == Pass && permissions == old(permissions)[user.id := "read"] && email == ""
    {
      if shareId !in db.shares {
        return Fail(NotFound);
      }
      var share := db.shares[shareId];
      var user := FindUserByEmail(db.users, email);
      if user.Nothing? {
        return Fail(ValidationFailed("email", NoSuchUserMessage));
      }
      if user.value.id in permissions || user.value.id == share.ownerId {
        return Fail(ValidationFailed("email", AlreadyAddedMessage));
      }
      permissions := permissions[user.value.id := "read"];
      email := "";
      r := Pass;
    }
  }
}
