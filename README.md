# Share tool access control, modelled in Dafny

The share tool lets a registered user create a *share*, a named collection of files. The
owner can hand other users a `read` or `write` grant, publish the share under a secret
public token (a link), and protect it with a password. Anyone who enters the password
gets a *session elevation*: the share's current password hash stored in their session.
This project models the part of the tool that decides who may do what to a share, and
the owner-side forms that change that state:

- **Permission levels** (`Permissions`): `None < Read < Write < Owner`, with "a higher
  level implies the lower ones" defined as that order, not as the enum's declaration order.
- **Permission resolution** (`ShareModel`, `ShareBuilder`): `getUserPermission`, and the
  `whereUserHasAccess` filter ("owner, or holds any grant") both as a set of ids and as a
  filter that can be chained with other conditions.
- **The gate** (`ShareAuthorization`): `hasSharePermission`, and `authorizeShare` with
  its three credential paths (public token, session user, password elevation) and its
  fixed failure order. Also the throttled `shareLogin`, which updates a rate-limit counter
  and the session.
- **Policies** (`SharePolicy`, `FilePolicy`): every decision returns Allow, or Deny with
  one `ShareAccessDenyReason`.
- **Owner-side forms**. Each successful save appends exactly one audit entry.
  - The grant editor (`ShareEditAccess`): `reloadPermissions`, `save`, `addUser`.
  - The settings form (`ShareForm`, `ShareEdit`): `mount`, `save`, the public-token
    toggle and the password placeholder.
  - The create form (`ShareCreate`): `save`.

State is one `Database` object holding users, shares (id → row), grants
(share id → user id → `read`/`write`) and the audit log, which only grows. There is also a
`Session` object (a string map) and a `RateLimiter` object (a counter map). Code that
changes state step by step is written as methods on these classes, and each
method's `ensures` ties its result to a pure specification function. Decisions are pure
functions that return `Result`/`Outcome` values instead of throwing exceptions.

Some things the system does not decide itself. These become parameters:

- `Hash::check` becomes a predicate `check`.
- `Hash::make` becomes a given `passwordHash`.
- `SecureRandom::urlSafeToken(64)` becomes a given `freshToken`. `IsUrlSafeToken` states
  what the generator guarantees.
- `Str::ulid()` becomes a given `newId` that is not yet in the table.
- The clock becomes `now`, `RateLimiter::availableIn` becomes `availableIn`, and the
  client's IP address becomes `ip`.
- The signed-in user (`auth()->user()`) becomes an `Option<User>` argument.

PHP semantics the decisions depend on are stated explicitly (`PhpSemantics`):

- Truthiness: `""` and `"0"` are false. This matters for `if ($publicToken)`,
  `$share->password && …`, `!$share->public_token` and `$this->password ? … : null`.
- The characters `trim` removes, which decide Laravel's `required` rule.

Where the code can raise PHP's `TypeError`, the model returns that error instead of
requiring the input away. This happens at SharePolicy.php:32: a guest's token is checked
against a share whose token is null, and `hash_equals(null, …)` under `strict_types`
throws.

## Model

| member | source | states |
|---|---|---|
| Permissions.Rank | sharetool/app/SharePermission.php:5-9 | Each level has a rank below 4; rank 0 is exactly None and rank 3 exactly Owner. |
| Permissions.Implies | sharetool/app/SharePermission.php:5-9 | The implication rule: nothing is needed to hold None, the owner holds every level, and only the owner holds Owner. |
| Permissions.ExactlyFourLevels | sharetool/app/SharePermission.php:14-20 | There are exactly four levels. Listing them in ascending order puts each one at its own rank. |
| Permissions.OwnerImpliesWriteAndRead | sharetool/app/SharePermission.php:8 | Owner implies Write and Read. No lower level implies Owner. |
| Permissions.WriteImpliesRead | sharetool/app/SharePermission.php:9 | Write implies Read, and Read does not imply Write. |
| Permissions.ImpliesIsRankOrder | sharetool/app/SharePermission.php:5-9 | Implication holds exactly when the held rank is at least the required rank. |
| Permissions.ImpliesIsTotalOrder | sharetool/app/SharePermission.php:5-9 | Implication is reflexive, antisymmetric, transitive and total, whatever the declaration order. |
| ShareModel.ParseGrant | sharetool/database/migrations/2024_10_30_160740_create_sharing_tables.php:28 | A grant column parses exactly when it is 'read' or 'write', and printing the parsed grant gives the column back. |
| ShareModel.GrantNameRoundTrip | sharetool/database/migrations/2024_10_30_160740_create_sharing_tables.php:28 | Printing a grant and parsing it again gives the same grant. |
| ShareModel.GrantsOf | sharetool/app/Models/Share.php:71-76 | The `userAccess` rows of one share: the share's entry in the grant table, or none when it has no rows. |
| ShareModel.IsOwner | sharetool/app/Services/ShareAuthorization.php:49 | Only a signed-in user can be the owner, namely the one whose id is `owner_id`. |
| ShareModel.HasAccess | sharetool/app/Models/Share.php:145-153 | The `whereUserHasAccess` condition: only a signed-in user passes it, and the owner always does. |
| ShareModel.GetUserPermission | sharetool/app/Models/Share.php:81-104 | A guest gets None. The owner gets Owner whatever grants exist. A non-owner's 'read' or 'write' grant gives Read or Write. Anyone else gets None. Each case is stated as an if-and-only-if. |
| ShareModel.HasAccessIffAnyPermission | sharetool/app/Models/Share.php:145-153 | "Owns it or holds any grant" holds exactly when the permission is above None, which is the same as implying Read. |
| ShareModel.WhereUserHasAccess | sharetool/app/Models/Share.php:133-154 | With no user, no share is selected. Otherwise exactly the shares on which the user's permission is not None are selected. |
| ShareModel.ActorId | sharetool/app/Models/Share.php:121 | The audit user id is the acting user's id, or null for a guest. |
| ShareModel.AuditTypeNamesDistinct | sharetool/database/migrations/2024_10_30_160740_create_sharing_tables.php:50-59 | The eight audit type names are pairwise distinct, so a stored `type` names exactly one event kind. |
| ShareModel.Database.AddAuditLog | sharetool/app/Models/Share.php:116-126 | Appends exactly one entry: this share's id, no file, the actor or null, and the given type and details. Earlier entries are unchanged. |
| ShareModel.Database.SaveShare | sharetool/resources/views/livewire/share/share-edit.blade.php:72 | The row is stored under its id, no other row changes, and the table stays keyed by id. |
| ShareModel.Database.SyncUserAccess | sharetool/resources/views/livewire/share/share-edit-access.blade.php:69 | The share's grant set becomes exactly the given map. Grants of other shares are untouched. |
| ShareBuilder.WhereUserHasAccess | sharetool/app/Builders/ShareBuilder.php:16-37 | The result is a subset of the query. With no user it is empty. Every owned share and every share with any grant row is selected, and every selected share is owned or granted. |
| ShareBuilder.FilterIsIntersection | sharetool/app/Builders/ShareBuilder.php:28-36 | The filter is the query intersected with the accessible shares. |
| ShareBuilder.HasAccessOfSelected | sharetool/app/Builders/ShareBuilder.php:28-36 | A share in the query is selected exactly when the user owns it or holds a grant on it. |
| ShareBuilder.ChainedConditionIntersects | sharetool/app/Builders/ShareBuilder.php:27-28 | Adding another condition before or after the filter gives the same intersection. In the set model this is set algebra; the grouped closure is what makes modelling the builder as a set filter sound. |
| ShareBuilder.AgreesWithModelFilter | sharetool/app/Builders/ShareBuilder.php:16-37 | Applied to the whole table, the builder filter selects the same shares as `Share::whereUserHasAccess`. |
| SessionStore.PasswordKey | sharetool/app/Services/ShareAuthorization.php:140 | The session key is the prefix "share-password." followed by the share id. |
| SessionStore.PasswordKeyInjective | sharetool/app/Services/ShareAuthorization.php:55 | Distinct shares have distinct session keys, so an elevation belongs to one share only. |
| SessionStore.Session.Put | sharetool/app/Services/ShareAuthorization.php:140 | Stores one key; every other key keeps its value. |
| RateLimiting.ThrottleKey | sharetool/app/Services/ShareAuthorization.php:124 | The throttle key is the share id, '|', then the IP address. |
| RateLimiting.ThrottleKeyInjective | sharetool/app/Services/ShareAuthorization.php:124 | For share ids without '|', the key determines both the share and the IP, so each (share, client) pair has its own counter. |
| RateLimiting.RateLimiter.Attempts | sharetool/app/Services/ShareAuthorization.php:126 | The attempts recorded for a key, zero for a key never hit. |
| RateLimiting.RateLimiter.TooManyAttempts | sharetool/app/Services/ShareAuthorization.php:126 | A limit of zero is always reached; otherwise the limit is reached only by a key that was hit at least that many times. |
| RateLimiting.RateLimiter.Hit | sharetool/app/Services/ShareAuthorization.php:133 | The key's count goes up by one and no other key changes. |
| ShareAuthorization.RequiredLevel | sharetool/app/Services/ShareAuthorization.php:83-85 | Only 'owner', 'write' and 'read' name a level, each its own, and none of them names None. |
| ShareAuthorization.HasSharePermission | sharetool/app/Services/ShareAuthorization.php:78-121 | An unknown level is an invalid-argument error, even for a guest. Otherwise the answer is whether the user's permission implies the required level. |
| ShareAuthorization.HasSharePermissionRules | sharetool/app/Services/ShareAuthorization.php:91-120 | A guest gets false, and the owner gets true at every level. read is met by any grant, write only by a write grant, and owner by no grant. |
| ShareAuthorization.LookUpShare | sharetool/app/Services/ShareAuthorization.php:32-47 | With a truthy token, the share is found exactly when it has that token. A null token means not found, and a different token means invalid-public-token. Without a token, the share is found exactly when the user owns it or holds a grant on it. |
| ShareAuthorization.PasswordGatePasses | sharetool/app/Services/ShareAuthorization.php:51-58 | The gate passes when skipped, for the owner, and for a share without a truthy password; otherwise passing means the session holds exactly the current hash under the share's key. |
| ShareAuthorization.PermissionSatisfied | sharetool/app/Services/ShareAuthorization.php:60-66 | A token request for 'read' is satisfied; any other request is satisfied exactly when `hasSharePermission` answers true, which needs a known level. |
| ShareAuthorization.AuthorizeShare | sharetool/app/Services/ShareAuthorization.php:19-69 | Succeeds, returning the stored share, exactly when the lookup passes, the password gate passes, and a token covers 'read' or the user holds the level. The password gate passes when skipped, for the owner, for a share without a password, or when the session holds exactly the current hash. Failures come in order: a failed lookup gives its own error (not found, wrong token); then a failed password gate gives the expired-password error; then a failed permission check gives invalid-argument for an unknown level and permission-denied otherwise. The possible errors form a closed set. |
| ShareAuthorization.TokenReadIgnoresGrants | sharetool/app/Services/ShareAuthorization.php:60-66 | A 'read' request that carries a token has the same outcome whatever the grant table holds. |
| ShareAuthorization.ReaderAskingForWriteIsDenied | sharetool/app/Services/ShareAuthorization.php:60-66 | A non-owner with a 'read' grant who passes the password gate and asks for 'write' without a token gets the missing-permission error. |
| ShareAuthorization.TokenAloneNeverImpliesWrite | sharetool/app/Services/ShareAuthorization.php:60-66 | A successful request for any level other than 'read' means `hasSharePermission` held for the user. |
| ShareAuthorization.PasswordRotationInvalidatesElevation | sharetool/app/Services/ShareAuthorization.php:49-58 | A non-owner who was let in fails with "expired" once the share's hash is replaced by one their session does not hold. |
| ShareAuthorization.LoginElevationOpensGate | sharetool/app/Services/ShareAuthorization.php:138-140 | The value a login stores opens that share's password gate and leaves every other share's gate as it was. |
| ShareAuthorization.ShareLogin | sharetool/app/Services/ShareAuthorization.php:123-141 | At 5 or more attempts the login fails as rate-limited and changes nothing. A missing password or a rejected one adds one attempt, fails as invalid-password and leaves the session alone. Success stores the current hash under the share's key and leaves the counter alone. |
| ShareAuthorization.SixthAttemptIsRateLimited | sharetool/app/Services/ShareAuthorization.php:124-136 | Starting from no attempts, five wrong logins make the sixth rate-limited even with the right password. The counter is then 5 and the session is untouched. |
| SharePolicy.ViewShareLogin | sharetool/app/Policies/SharePolicy.php:18-38 | Allows exactly a user with some permission, or a guest whose truthy token equals the share's. A guest's token on a tokenless share is a TypeError. A guest with a token is denied PublicTokenIncorrect; everyone else is denied MissingCredentials. |
| SharePolicy.View | sharetool/app/Policies/SharePolicy.php:43-65 | Denials from `viewShareLogin` come back unchanged. Otherwise it allows exactly the owner, a share without a password, or a session holding exactly the current hash, and denies InvalidSharePassword otherwise. |
| SharePolicy.OwnerOnly | sharetool/app/Policies/SharePolicy.php:71-139 | The decision shared by the four owner-only policies: allows exactly the owner and denies anyone else "You do not own this Share." with MissingPermission. |
| SharePolicy.ViewAudit | sharetool/app/Policies/SharePolicy.php:71-78 | Allows exactly the Owner; anyone else is denied MissingPermission. |
| SharePolicy.Create | sharetool/app/Policies/SharePolicy.php:84-87 | Allows every registered user. |
| SharePolicy.CreateFile | sharetool/app/Policies/SharePolicy.php:92-99 | Allows exactly a permission implying Write, which means the owner or a write grant. Anyone else is denied MissingPermission. |
| SharePolicy.Update | sharetool/app/Policies/SharePolicy.php:106-113 | Allows exactly the Owner; anyone else is denied MissingPermission. |
| SharePolicy.UpdateAccess | sharetool/app/Policies/SharePolicy.php:119-126 | Allows exactly the Owner; anyone else is denied MissingPermission. |
| SharePolicy.Delete | sharetool/app/Policies/SharePolicy.php:132-139 | Allows exactly the Owner; anyone else is denied MissingPermission. |
| SharePolicy.GrantsNeverConferOwnership | sharetool/app/Policies/SharePolicy.php:71-139 | Whatever grant a non-owner holds, all four owner-only decisions deny them. |
| SharePolicy.ViewAgreesWithAuthorizeShare | sharetool/app/Policies/SharePolicy.php:43-65 | For a signed-in user without a token, and for a guest with a token on a share that has one, `view` allows exactly when `authorizeShare` grants 'read'. |
| SharePolicy.SignedInTokenHolderDeniedByView | sharetool/app/Policies/SharePolicy.php:20-37 | A signed-in user with no permission who holds the correct token is denied by `view` but let in by `authorizeShare`. |
| FilePolicy.View | sharetool/app/Policies/FilePolicy.php:20-23 | The decision is the share `view` decision on the file's share, for the same user, token and session. |
| FilePolicy.Delete | sharetool/app/Policies/FilePolicy.php:28-35 | Allows exactly a permission implying Write on the file's share; anyone else is denied MissingPermission. |
| FilePolicy.DeleteIgnoresUploader | sharetool/app/Policies/FilePolicy.php:30-32 | Being the file's uploader changes nothing: the decision is the same as when the user is made the uploader. |
| ShareEditAccess.FindUserByEmail | sharetool/resources/views/livewire/share/share-edit-access.blade.php:84 | Finds a listed user with that email, or none exactly when no user has it. |
| ShareEditAccess.SyncOf | sharetool/resources/views/livewire/share/share-edit-access.blade.php:62-67 | The sync map holds exactly the listed non-owner users set to 'read' or 'write', at that level. The owner never appears in it. |
| ShareEditAccess.BuildSync | sharetool/resources/views/livewire/share/share-edit-access.blade.php:62-67 | The foreach loop builds exactly `SyncOf` of the rows. |
| ShareEditAccess.PermissionRows | sharetool/resources/views/livewire/share/share-edit-access.blade.php:29-37 | There is one row per grant, and each row's permission parses back to that grant. |
| ShareEditAccess.CollectPermissions | sharetool/resources/views/livewire/share/share-edit-access.blade.php:29-37 | The foreach loop builds exactly `PermissionRows` of the grants. |
| ShareEditAccess.ReloadThenSaveKeepsGrants | sharetool/resources/views/livewire/share/share-edit-access.blade.php:62-69 | Saving the rows just loaded, with no edits, writes back the same grants. |
| ShareEditAccess.SavedGrantsGiveChosenLevel | sharetool/resources/views/livewire/share/share-edit-access.blade.php:62-69 | After the sync, a non-owner has Read for 'read', Write for 'write', and None when left out or given any other value. |
| ShareEditAccess.AddedUserIsSavedAsReader | sharetool/resources/views/livewire/share/share-edit-access.blade.php:93-97 | An added user, saved unchanged, ends up with a read grant. |
| ShareEditAccess.EditAccessForm.ReloadPermissions | sharetool/resources/views/livewire/share/share-edit-access.blade.php:25-38 | A missing share is not found and the rows are unchanged. Otherwise the rows become `PermissionRows` of the share's grants. |
| ShareEditAccess.EditAccessForm.Save | sharetool/resources/views/livewire/share/share-edit-access.blade.php:51-79 | A missing share is not found. A non-owner changes no grant and appends no entry. For the owner, the grants become exactly `SyncOf` the rows, one `share_access_change` entry is appended and the rows are reloaded. |
| ShareEditAccess.EditAccessForm.AddUser | sharetool/resources/views/livewire/share/share-edit-access.blade.php:81-99 | Fails with "No such user" for an unknown email, and with the "already been added" message for a listed user or the owner; a failure changes nothing. Otherwise exactly one 'read' row is added and the email field is cleared. |
| ShareForm.Validate | sharetool/resources/views/livewire/share/share-edit.blade.php:21-25 | The form passes exactly when neither name nor description is blank after trimming. Otherwise the first blank field is reported, with the message the rule produces (both fields carry the display name "string"). |
| ShareForm.PasswordColumn | sharetool/resources/views/livewire/share/share-create.blade.php:40 | The stored password is the hash exactly when the typed password is truthy, and null otherwise. |
| ShareForm.GeneratedTokenIsTruthy | sharetool/app/Services/SecureRandom.php:21-26 | A generated 64-character token is truthy. |
| ShareEdit.MountedFields | sharetool/resources/views/livewire/share/share-edit.blade.php:33-40 | The form shows the name and description. `public` is set exactly when a token exists. The password field is the sentinel exactly when the stored password is truthy, and empty otherwise. |
| ShareEdit.ApplyEdit | sharetool/resources/views/livewire/share/share-edit.blade.php:58-71 | The id and owner are kept and the name and description are taken from the form. The token exists exactly when `public` is set. A truthy token is kept; otherwise the fresh token is used. The sentinel keeps the stored password; any other value becomes `PasswordColumn`. |
| ShareEdit.MountThenSaveKeepsShare | sharetool/resources/views/livewire/share/share-edit.blade.php:38-71 | For a share as the forms store it, mount followed by an unedited save leaves the row exactly as it was, token and password included. |
| ShareEdit.EditKeepsWellFormed | sharetool/resources/views/livewire/share/share-edit.blade.php:63-71 | Saving with a generated token and a truthy hash keeps the share's token and password truthy or null. |
| ShareEdit.UnpublishingClosesOldLink | sharetool/resources/views/livewire/share/share-edit.blade.php:65-67 | Once public is cleared, `authorizeShare` reports the old token as not found, for any level and any user. |
| ShareEdit.RepublishingNeverRevivesOldLink | sharetool/resources/views/livewire/share/share-edit.blade.php:61-67 | Toggling public off and back on gives the new token, and the old token is then refused as incorrect. |
| ShareEdit.NewPasswordExpiresElevation | sharetool/resources/views/livewire/share/share-edit.blade.php:69-71 | A new password typed into the mounted form makes `authorizeShare` fail with "expired" for a non-owner who passed before. |
| ShareEdit.ClearingPasswordOpensGate | sharetool/resources/views/livewire/share/share-edit.blade.php:70 | An empty (or "0") password field removes the password gate for everybody. |
| ShareEdit.EditForm.Mount | sharetool/resources/views/livewire/share/share-edit.blade.php:33-40 | A missing share is not found and leaves the form unchanged. Otherwise the form becomes `MountedFields` of the stored share. |
| ShareEdit.EditForm.Save | sharetool/resources/views/livewire/share/share-edit.blade.php:48-80 | Checks run in order: validation, lookup, then the gate, which turns a guest away before any policy runs, then the `update` policy. Any failure changes nothing. It succeeds exactly for the owner with a valid form: the row becomes `ApplyEdit` of it and exactly one `share_update` entry is appended. |
| ShareCreate.NewShare | sharetool/resources/views/livewire/share/share-create.blade.php:34-41 | The new row has the given id, the creator as owner and the typed name and description. It has the fresh token exactly when public, and the hash exactly when the password is truthy. |
| ShareCreate.CreatedShareIsWellFormed | sharetool/resources/views/livewire/share/share-create.blade.php:39-40 | A created share's token and password are truthy or null. |
| ShareCreate.StoredPasswordVerifies | sharetool/resources/views/livewire/share/share-create.blade.php:40 | If the hash verifies against the typed password, so does the stored password. This only carries the assumed contract of the hash oracle, `Hash::check(p, Hash::make(p))`, over to the stored row. |
| ShareCreate.EditFormShowsCreatedShare | sharetool/resources/views/livewire/share/share-create.blade.php:34-41 | The edit form opened on a new share shows what was typed, with a truthy password shown as the sentinel and a falsy one as empty. |
| ShareCreate.CreatorOwnsNewShare | sharetool/resources/views/livewire/share/share-create.blade.php:36 | The creator gets Owner and passes `authorizeShare` for 'owner' with no token and no password in the session. |
| ShareCreate.OnlyCreatorHasAccess | sharetool/resources/views/livewire/share/share-create.blade.php:33-44 | Before any grant, anyone other than the creator has None, and without a token the share is not found for them. |
| ShareCreate.PublicLinkOpensForReading | sharetool/resources/views/livewire/share/share-create.blade.php:39 | A public share created without a password lets anyone with the generated token read it. |
| ShareCreate.CreateForm.Save | sharetool/resources/views/livewire/share/share-create.blade.php:25-46 | A guest's save does nothing. An invalid form fails validation and changes nothing. Otherwise `NewShare` is stored under the new id and exactly one `share_create` entry by the creator is appended. |

## Left out

- Blade markup, Livewire events (`dispatch`), modals, redirects and routes: these are
  user interface and transport, not decisions.
- File storage, uploads, downloads, temporary URLs, broadcasting and the thumbnail job:
  these are external side effects. `FilePolicy` is modelled; the file components are not.
- Password hashing: `Hash::make` is a given hash value and `Hash::check` is a predicate
  parameter. `hash_equals` is plain string equality, so constant-time comparison is not stated.
- Token and id generation: `SecureRandom` and `Str::ulid()` are given values. ULIDs are
  assumed fresh (`newId !in db.shares`), which stands for the primary key.
- RateLimiting.RateLimiter: the decay window, the clock and `availableIn` are not
  modelled. A counter stays until its window would end, and `availableIn` is an opaque number.
- Database transactions, rollbacks and soft deletes: every operation is sequential and
  runs to completion. The `share_user_access` foreign key is kept as an invariant of
  `Database`; the other foreign keys are not.
- Ambient identity (`auth()->user()`, `NotSet`): the acting user is always an explicit
  argument.
- `ShareEdit.EditForm.Save`: when Laravel's gate meets a guest it refuses before any
  policy runs. This is modelled as `Unauthorized(Nothing)` rather than the framework's
  exception text.
- `ShareForm.Validate`: Laravel collects every failing field. The model reports only the
  first one (name before description). Its messages are Laravel's default English text;
  translated messages are not modelled.
- `ShareEditAccess.PermissionRows`: the rows keep only the permission. The email and name
  shown next to it, and the sorting by email, are display data.
- Concurrency: no two requests interleave, including on the rate-limit counters.
- The factories, the seeder, `channels.php`, `AppServiceProvider` and the TypeScript files
  are not part of this model.
- Form-field quirks that follow from the code as written, not bugs:
  - A password typed as "0" clears the password, because PHP treats "0" as false.
  - A password exactly equal to the ten-space placeholder cannot be set from the edit form.
  - A stored token or password that is falsy but not null would be replaced on an
    unedited save; the forms never store one, which `ShareEdit.WellFormed` states.
