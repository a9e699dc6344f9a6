/**
 * What the share create and share edit forms have in common: their four fields, the
 * `required` rule on name and description, the password placeholder and the token
 * the forms generate.
 */
module ShareForm {
  import opened Wrappers
  import opened PhpSemantics
  import opened Errors

  /** The form's public properties: `name`, `description`, `public` and `password`. */
  datatype Fields = Fields(name: string, description: string, public: bool, password: string)

  /**
   * Ten spaces: the value the edit form shows for a share that has a password, meaning
   * "leave the password as it is".
   */
  const PasswordSentinel := "          "

  /** `SecureRandom::urlSafeToken(64)` draws 64 characters from this alphabet. */
  const TokenLength: nat := 64
  const TokenAlphabet := "0123456789abcdefghijklmnopqrstuvwxyzABCDEFGHIJKLMNOPQRSTUVWXYZ-_"

  predicate IsUrlSafeToken(t: string) {
    |t| == TokenLength && forall i :: 0 <= i < |t| ==> t[i] in TokenAlphabet
  }

  /**
   * The messages the `required` rule produces. The second argument of `#[Validate]` is
   * the field's display name, so both fields are called "string" in their messages.
   */
  const NameRequiredMessage := "The string field is required."
  const DescriptionRequiredMessage := "The string field is required."

  /**
   * `$this->validate()`: name and description must not be blank after trimming; the
   * first offending field is reported. `public` and `password` are always a bool and a
   * string, so their rules never fail.
   */
  function Validate(f: Fields): (r: Outcome<Error>)
    ensures r.Pass? <==> !IsBlank(f.name) && !IsBlank(f.description)
    ensures IsBlank(f.name) ==> r == Fail(ValidationFailed("name", NameRequiredMessage))
    ensures !IsBlank(f.name) && IsBlank(f.description) ==>
      r == Fail(ValidationFailed("description", DescriptionRequiredMessage))
  {
    if IsBlank(f.name) then Fail(ValidationFailed("name", NameRequiredMessage))
    else if IsBlank(f.description) then Fail(ValidationFailed("description", DescriptionRequiredMessage))
    else Pass
  }

  /**
   * The stored password column for an entered password: the hash when the password is
   * truthy, `null` otherwise (so both "" and "0" mean "no password").
   */
  function PasswordColumn(password: string, passwordHash: string): (r: Option<string>)
    ensures r.Some? <==> Truthy(password)
    ensures r.Some? ==> r.value == passwordHash
  {
    if Truthy(password) then Some(passwordHash) else Nothing
  }

  /** A generated token is never falsy, so a share that got one counts as public. */
  lemma {:induction false} GeneratedTokenIsTruthy(t: string)
    requires IsUrlSafeToken(t)
    ensures Truthy(t)
  {
    LongStringIsTruthy(t);
  }
}
