/**
 * The share record, its per-user grants and audit entries, and the two pure queries
 * over them: the permission a user holds and the "user has access" filter. The
 * mutable tables are the `Database` class.
 */
module ShareModel {
  import opened Wrappers
  import opened Permissions

  type UserId = int
  type ShareId = string
  type FileId = string

  datatype User = User(id: UserId, name: string, email: string)

  /**
   * A row of `shares`. `publicToken` is present exactly when the share is public and
   * `password` holds the password hash, never the password itself.
   */
  datatype Share = Share(
    id: ShareId,
    ownerId: UserId,
    name: string,
    description: string,
    publicToken: Option<string>,
    password: Option<string>)

  /** A row of `files`; only its share and uploader matter to the policies. */
  datatype File = File(id: FileId, shareId: ShareId, uploaderId: UserId, name: string)

  /** The `permission` column of `share_user_access`, an enum of 'read' and 'write'. */
  datatype Grant = GrantRead | GrantWrite

  function GrantName(g: Grant): string {
    match g
    case GrantRead => "read"
    case GrantWrite => "write"
  }

  /** The column value a string stands for, if the enum admits it. */
  function ParseGrant(s: string): (r: Option<Grant>)
    ensures r.Some? <==> s == "read" || s == "write"
    ensures r.Some? ==> GrantName(r.value) == s
  {
    if s == "read" then Some(GrantRead)
    else if s == "write" then Some(GrantWrite)
    else Nothing
  }

  lemma GrantNameRoundTrip(g: Grant)
    ensures ParseGrant(GrantName(g)) == Some(g)
  {
  }

  /**
   * `share_user_access`, grouped by share: at most one grant per (user, share), as the
   * table's unique index demands.
   */
  type GrantTable = map<ShareId, map<UserId, Grant>>

  /** The grants held on one share, keyed by user. */
  function GrantsOf(grants: GrantTable, id: ShareId): (r: map<UserId, Grant>)
    ensures id in grants ==> r == grants[id]
    ensures id !in grants ==> r == map[]
  {
    if id in grants then grants[id] else map[]
  }

  /** The (optional) user is the share's owner. */
  predicate IsOwner(share: Share, user: Option<User>): (r: bool)
    ensures r ==> user.Some?
  {
    user.Some? && user.value.id == share.ownerId
  }

  /**
   * The permission level `user` has on `share`: the owner is Owner whatever grants exist,
   * a 'read' or 'write' grant gives Read or Write, anybody else has None.
   */
  function GetUserPermission(share: Share, grants: GrantTable, user: Option<User>): (p: SharePermission)
    ensures user.Nothing? ==> p == None
    ensures p == Owner <==> IsOwner(share, user)
    ensures p == Read <==>
      user.Some? && !IsOwner(share, user) && Get(GrantsOf(grants, share.id), user.value.id) == Some(GrantRead)
    ensures p == Write <==>
      user.Some? && !IsOwner(share, user) && Get(GrantsOf(grants, share.id), user.value.id) == Some(GrantWrite)
    ensures p == None <==>
      user.Nothing? || (!IsOwner(share, user) && user.value.id !in GrantsOf(grants, share.id))
  {
    if user.Nothing? then None
    else if user.value.id == share.ownerId then Owner
    else
      var row := Get(GrantsOf(grants, share.id), user.value.id);
      var permission := if row.Some? then Some(GrantName(row.value)) else Nothing;
      if permission == Some("read") then Read
      else if permission == Some("write") then Write
      else None
  }

  /** The condition of `whereUserHasAccess`: the user owns the share or holds any grant on it. */
  predicate HasAccess(share: Share, grants: GrantTable, user: Option<User>): (r: bool)
    ensures r ==> user.Some?
    ensures IsOwner(share, user) ==> r
  {
    user.Some? && (share.ownerId == user.value.id || user.value.id in GrantsOf(grants, share.id))
  }

  /** Having access is the same as holding a permission level above None. */
  lemma HasAccessIffAnyPermission(share: Share, grants: GrantTable, user: Option<User>)
    ensures HasAccess(share, grants, user) <==> GetUserPermission(share, grants, user) != None
    ensures HasAccess(share, grants, user) <==> Implies(GetUserPermission(share, grants, user), Read)
  {
  }

  /**
   * The ids of the shares `user` may see: none without a user, otherwise exactly those
   * the user owns or holds a grant on.
   */
  function WhereUserHasAccess(shares: map<ShareId, Share>, grants: GrantTable, user: Option<User>): (r: set<ShareId>)
    ensures user.Nothing? ==> r == {}
    ensures forall id :: id in r <==> id in shares && GetUserPermission(shares[id], grants, user) != None
  {
    if user.Nothing? then {}
    else set id | id in shares && HasAccess(shares[id], grants, user)
  }

  /** The closed set of audit event types of `share_audit_logs.type`. */
  datatype AuditType =
    | ShareCreate | ShareUpdate | ShareDelete | ShareAccessChange
    | FileCreate | FileUpdate | FileDelete | FileDownload

  function AuditTypeName(t: AuditType): string {
    match t
    case ShareCreate => "share_create"
    case ShareUpdate => "share_update"
    case ShareDelete => "share_delete"
    case ShareAccessChange => "share_access_change"
    case FileCreate => "file_create"
    case FileUpdate => "file_update"
    case FileDelete => "file_delete"
    case FileDownload => "file_download"
  }

  /** The eight type names are distinct, so a stored `type` column names one event kind. */
  lemma AuditTypeNamesDistinct(a: AuditType, b: AuditType)
    ensures AuditTypeName(a) == AuditTypeName(b) ==> a == b
  {
  }

  /** A row of `share_audit_logs`; `details` is the JSON text of the details array. */
  datatype AuditEntry = AuditEntry(
    timestamp: int,
    shareId: ShareId,
    fileId: Option<FileId>,
    userId: Option<UserId>,
    kind: AuditType,
    details: string)

  /** `json_encode([])`, the details every share-level entry of the core records. */
  const NoDetails := "[]"

  /** The id of the acting user, or null for a guest. */
  function ActorId(actor: Option<User>): (r: Option<UserId>)
    ensures r.Some? <==> actor.Some?
    ensures r.Some? ==> r.value == actor.value.id
  {
    if actor.Some? then Some(actor.value.id) else Nothing
  }

  /** The tables the core reads and writes. */
  class Database {
    var users: seq<User>
    var shares: map<ShareId, Share>
    var grants: GrantTable
    var auditLogs: seq<AuditEntry>

    /**
     * Every share row is stored under its own primary key, and grant rows only exist for
     * shares that exist (the `share_user_access.share_id` foreign key).
     */
    ghost predicate Valid()
      reads this
    {
      (forall id :: id in shares ==> shares[id].id == id) &&
      grants.Keys <= shares.Keys
    }

    constructor (users: seq<User>)
      ensures Valid()
      ensures this.users == users && shares == map[] && grants == map[] && auditLogs == []
    {
      this.users := users;
      shares := map[];
      grants := map[];
      auditLogs := [];
    }

    /**
     * `Share::addAuditLog`: appends exactly one entry for `share`, with no file, the acting
     * user (or null) and the given type and details; earlier entries stay as they were.
     */
    method AddAuditLog(share: Share, kind: AuditType, details: string, actor: Option<User>, now: int)
      returns (entry: AuditEntry)
      modifies this`auditLogs
      ensures entry.shareId == share.id && entry.fileId == Nothing && entry.timestamp == now
      ensures entry.userId == ActorId(actor) && entry.kind == kind && entry.details == details
      ensures auditLogs == old(auditLogs) + [entry]
    {
      var userId: Option<UserId> := Nothing;
      if actor.Some? {
        userId := Some(actor.value.id);
      }
      entry := AuditEntry(now, share.id, Nothing, userId, kind, details);
      auditLogs := auditLogs + [entry];
    }

    /** `$share->save()`: writes the row under its id. */
    method SaveShare(share: Share)
      requires Valid()
      modifies this`shares
      ensures Valid()
      ensures shares == old(shares)[share.id := share]
    {
      shares := shares[share.id := share];
    }

    /**
     * `$share->userAccess()->sync($sync)`: afterwards the share's grants are exactly
     * `sync`; other shares' grants are untouched.
     */
    method SyncUserAccess(shareId: ShareId, sync: map<UserId, Grant>)
      requires Valid() && shareId in shares
      modifies this`grants
      ensures Valid()
      ensures grants == old(grants)[shareId := sync]
      ensures GrantsOf(grants, shareId) == sync
      ensures forall id :: id != shareId ==> GrantsOf(grants, id) == GrantsOf(old(grants), id)
    {
      grants := grants[shareId := sync];
    }
  }
}
