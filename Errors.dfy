/**
 * The exceptions the access-control core throws, as one closed error type.
 */
module Errors {
  import opened Wrappers
  import Permissions

  datatype Error =
    /** `firstOrFail` found no row: missing and inaccessible shares look the same. */
    | NotFound
    /** ShareInvalidPublicTokenException. */
    | InvalidPublicToken(message: string)
    /** ShareInvalidPasswordException. */
    | InvalidPassword(message: string)
    /** SharePermissionException, naming the required level. */
    | PermissionDenied(required: string)
    /** InvalidArgumentException: a required level outside owner, write and read. */
    | InvalidArgument
    /** ShareLoginRateLimited, with the seconds until the next attempt is allowed. */
    | RateLimited(availableInSeconds: int)
    /** PHP's TypeError: `hash_equals` was handed `null` under strict types. */
    | TypeError
    /**
     * AuthorizationException thrown by `Gate::authorize`: with the policy's deny reason,
     * or without one when the gate turns a guest away before any policy runs.
     */
    | Unauthorized(reason: Option<Permissions.ShareAccessDenyReason>)
    /** ValidationException for one form field. */
    | ValidationFailed(field: string, message: string)

  const TokenMismatchMessage := "Invalid public token for share"
  const SessionExpiredMessage := "Password for share in session has expired"
  const WrongPasswordMessage := "Invalid password for share"
  const NoSuchUserMessage := "No such user"
  const AlreadyAddedMessage := "This user has already been added"
}
