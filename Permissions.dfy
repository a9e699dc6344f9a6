/**
 * The permission levels a user can hold on a share, the reasons a policy gives for a
 * denial, and the policy response itself.
 */
module Permissions {

  /**
   * The four levels, in the order the enum declares them. The declaration order is not
   * the semantic order: `Rank` fixes None < Read < Write < Owner.
   */
  datatype SharePermission = None | Owner | Write | Read

  /** The position of a level in the total order None < Read < Write < Owner. */
  function Rank(p: SharePermission): (r: nat)
    ensures r < 4
    ensures r == 0 <==> p == None
    ensures r == 3 <==> p == Owner
  {
    match p
    case None => 0
    case Read => 1
    case Write => 2
    case Owner => 3
  }

  /** The levels listed from lowest to highest. */
  const Ascending: seq<SharePermission> := [None, Read, Write, Owner]

  /**
   * Holding `held` implies holding `required`, as the enum's documentation puts it:
   * owner implies write and read, write implies read, and every level implies itself.
   * No level is required to hold None.
   */
  predicate Implies(held: SharePermission, required: SharePermission): (r: bool)
    ensures required == None ==> r
    ensures held == Owner ==> r
    ensures r && required == Owner ==> held == Owner
  {
    held == required
    || required == None
    || (held == Owner && (required == Write || required == Read))
    || (held == Write && required == Read)
  }

  /** The enumeration is closed: exactly four levels, each at its own rank. */
  lemma ExactlyFourLevels()
    ensures |Ascending| == 4
    ensures forall p :: Ascending[Rank(p)] == p
    ensures forall i :: 0 <= i < 4 ==> Rank(Ascending[i]) == i
  {
  }

  lemma OwnerImpliesWriteAndRead()
    ensures Implies(Owner, Write) && Implies(Owner, Read)
    ensures !Implies(Write, Owner) && !Implies(Read, Owner) && !Implies(None, Owner)
  {
  }

  lemma WriteImpliesRead()
    ensures Implies(Write, Read)
    ensures !Implies(Read, Write)
  {
  }

  /** The implication rule is exactly the comparison of ranks, so it is a total order. */
  lemma ImpliesIsRankOrder(a: SharePermission, b: SharePermission)
    ensures Implies(a, b) <==> Rank(a) >= Rank(b)
  {
  }

  lemma ImpliesIsTotalOrder(a: SharePermission, b: SharePermission, c: SharePermission)
    ensures Implies(a, a)
    ensures Implies(a, b) && Implies(b, a) ==> a == b
    ensures Implies(a, b) && Implies(b, c) ==> Implies(a, c)
    ensures Implies(a, b) || Implies(b, a)
  {
    ImpliesIsRankOrder(a, b);
    ImpliesIsRankOrder(b, a);
    ImpliesIsRankOrder(b, c);
    ImpliesIsRankOrder(a, c);
  }

  /** Why a policy denied access; callers branch on the reason, not the message. */
  datatype ShareAccessDenyReason =
    | MissingCredentials
    | PublicTokenIncorrect
    | InvalidSharePassword
    | MissingPermission

  /** Laravel's authorization response: allow, or deny with a message and a reason code. */
  datatype Response = Allow | Deny(message: string, reason: ShareAccessDenyReason)
}
