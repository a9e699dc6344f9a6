/**
 * The file policy: viewing a file is viewing its share, deleting one needs write access
 * to the share.
 */
module FilePolicy {
  import opened Wrappers
  import opened PhpSemantics
  import opened Permissions
  import opened Errors
  import opened ShareModel
  import opened SessionStore
  import SharePolicy

  /**
   * `view`: the share policy's `view` decision on the file's share, for the same user
   * and token.
   */
  function View(user: Option<User>, file: File, share: Share, grants: GrantTable, publicToken: Option<string>, session: map<string, string>)
    : (r: Result<Response, Error>)
    requires file.shareId == share.id
    ensures r == SharePolicy.View(user, share, grants, publicToken, session)
    ensures r == Ok(Allow) ==>
      HasAccess(share, grants, user) || (user.Nothing? && share.publicToken == publicToken && TruthyOpt(publicToken))
  {
    SharePolicy.View(user, share, grants, publicToken, session)
  }

  /** `delete`: the owner or a user with a 'write' grant on the file's share. */
  function Delete(user: User, file: File, share: Share, grants: GrantTable): (r: Response)
    requires file.shareId == share.id
    ensures r.Allow? <==> Implies(GetUserPermission(share, grants, Some(user)), Write)
    ensures r.Allow? <==> user.id == share.ownerId || Get(GrantsOf(grants, share.id), user.id) == Some(GrantWrite)
    ensures r.Deny? ==> r.reason == MissingPermission
  {
    var permission := GetUserPermission(share, grants, Some(user));
    if permission == Owner || permission == Write then Allow
    else Deny(SharePolicy.NoWriteAccessMessage, MissingPermission)
  }

  /** Having uploaded a file grants nothing: only the share permission decides. */
  lemma DeleteIgnoresUploader(user: User, file: File, share: Share, grants: GrantTable)
    requires file.shareId == share.id
    ensures Delete(user, file, share, grants) == Delete(user, file.(uploaderId := user.id), share, grants)
  {
  }
}
