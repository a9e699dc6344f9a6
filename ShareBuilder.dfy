/**
 * The query-builder form of the accessibility filter: it narrows a query that already
 * selects some shares, so it composes with further conditions.
 */
module ShareBuilder {
  import opened Wrappers
  import opened ShareModel

  /**
   * `whereUserHasAccess` on a builder that currently selects `query`: no share without a
   * user, otherwise the selected shares the user owns or holds any grant on, whether
   * 'read' or 'write'.
   */
  function WhereUserHasAccess(query: set<ShareId>, shares: map<ShareId, Share>, grants: GrantTable, user: Option<User>)
    : (r: set<ShareId>)
    requires query <= shares.Keys
    ensures r <= query
    ensures user.Nothing? ==> r == {}
    ensures forall id :: id in query && IsOwner(shares[id], user) ==> id in r
    ensures forall id :: id in query && user.Some? && user.value.id in GrantsOf(grants, shares[id].id) ==> id in r
    ensures forall id :: id in r ==> HasAccess(shares[id], grants, user)
  {
    if user.Nothing? then {}
    else
      var userId := user.value.id;
      set id | id in query && (shares[id].ownerId == userId || userId in GrantsOf(grants, shares[id].id))
  }

  /**
   * The filter is one grouped condition: applied to a query it gives the intersection of
   * that query with the shares the model's own `whereUserHasAccess` selects.
   */
  lemma FilterIsIntersection(query: set<ShareId>, shares: map<ShareId, Share>, grants: GrantTable, user: Option<User>)
    requires query <= shares.Keys
    ensures WhereUserHasAccess(query, shares, grants, user) == query * ShareModel.WhereUserHasAccess(shares, grants, user)
  {
    HasAccessOfSelected(query, shares, grants, user);
  }

  lemma HasAccessOfSelected(query: set<ShareId>, shares: map<ShareId, Share>, grants: GrantTable, user: Option<User>)
    requires query <= shares.Keys
    ensures forall id :: id in query ==>
      (id in WhereUserHasAccess(query, shares, grants, user) <==> HasAccess(shares[id], grants, user))
  {
    forall id | id in query
      ensures id in WhereUserHasAccess(query, shares, grants, user) <==> HasAccess(shares[id], grants, user)
    {
      HasAccessIffAnyPermission(shares[id], grants, user);
    }
  }

  /**
   * A further condition chained before or after the filter narrows the result as a
   * conjunction does. The grouping of the closure is what makes modelling the builder as
   * a set filter sound; in that model this commutation is set algebra.
   */
  lemma ChainedConditionIntersects(
    query: set<ShareId>, further: set<ShareId>,
    shares: map<ShareId, Share>, grants: GrantTable, user: Option<User>)
    requires query <= shares.Keys
    ensures WhereUserHasAccess(query, shares, grants, user) * further
         == WhereUserHasAccess(query * further, shares, grants, user)
  {
    FilterIsIntersection(query, shares, grants, user);
    FilterIsIntersection(query * further, shares, grants, user);
  }

  /** With every share as the query, the builder selects what the model's static filter selects. */
  lemma AgreesWithModelFilter(shares: map<ShareId, Share>, grants: GrantTable, user: Option<User>)
    ensures WhereUserHasAccess(shares.Keys, shares, grants, user) == ShareModel.WhereUserHasAccess(shares, grants, user)
  {
    FilterIsIntersection(shares.Keys, shares, grants, user);
  }
}
