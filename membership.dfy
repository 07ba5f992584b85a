/**
 * lib/membership.js: the membership of a person in a role, optionally within an
 * organization, and the access status it is created with.
 */
module Memberships {
  import opened Wrappers
  import opened Text
  import opened Store
  import opened Config

  const MembershipResourceBaseUri := ResourceBaseUri + "/lidmaatschap/"

  function MembershipUri(id: string): string {
    MembershipResourceBaseUri + id
  }

  datatype MembershipRef = MembershipRef(membershipUri: string, membershipId: string, membershipStatus: string)

  /**
   * The lookup of `ensureMembership`: same person and role, and the same organization only
   * when an organization URI is given (a falsy one drops that condition).
   */
  predicate MembershipMatches(m: Membership, personUri: string, roleUri: string, organizationUri: Option<string>) {
    m.person == personUri && m.role == roleUri && (Truthy(organizationUri) ==> m.organization == organizationUri)
  }

  /**
   * The status lookup of `insertNewMembership` as written: the query projects
   * ?organizationStatus but binds ?organizationUri, so when the organization has a status the
   * row comes back without the projected variable and reading its value fails (None here);
   * when it has none, the membership is allowed.
   */
  function MembershipStatusAsWritten(organizations: map<string, Organization>, organizationUri: Option<string>): (status: Option<string>)
    ensures status.None? <==>
      organizationUri.Some? && organizationUri.value in organizations && organizations[organizationUri.value].status.Some?
    ensures status.Some? ==> status.value == AccessAllowedStatusUri
  {
    if organizationUri.Some? && organizationUri.value in organizations && organizations[organizationUri.value].status.Some?
    then None
    else Some(AccessAllowedStatusUri)
  }

  /** The status a new membership evidently should get: the organization's own status, or allowed when it has none. */
  function MembershipStatus(organizations: map<string, Organization>, organizationUri: Option<string>): (status: string)
    ensures organizationUri.Some? && organizationUri.value in organizations && organizations[organizationUri.value].status.Some? ==>
      status == organizations[organizationUri.value].status.value
    ensures !(organizationUri.Some? && organizationUri.value in organizations && organizations[organizationUri.value].status.Some?) ==>
      status == AccessAllowedStatusUri
  {
    if organizationUri.Some? && organizationUri.value in organizations && organizations[organizationUri.value].status.Some?
    then organizations[organizationUri.value].status.value
    else AccessAllowedStatusUri
  }

  /**
   * As written, a membership in an organization that has a status can never be created,
   * in particular not in a blocked one, whose status the new membership should inherit.
   */
  lemma BlockedOrganizationStatusLost(organizations: map<string, Organization>, organizationUri: string)
    requires organizationUri in organizations
    requires organizations[organizationUri].status == Some(AccessBlockedStatusUri)
    ensures MembershipStatusAsWritten(organizations, Some(organizationUri)).None?
    ensures MembershipStatus(organizations, Some(organizationUri)) == AccessBlockedStatusUri
  {
  }

  /** The two lookups agree wherever the as-written one does not fail. */
  lemma MembershipStatusAgrees(organizations: map<string, Organization>, organizationUri: Option<string>)
    ensures MembershipStatusAsWritten(organizations, organizationUri).Some? ==>
      MembershipStatusAsWritten(organizations, organizationUri).value == MembershipStatus(organizations, organizationUri)
  {
  }

  /** The membership `insertNewMembership` writes. */
  function NewMembership(organizations: map<string, Organization>, personUri: string, roleUri: string, organizationUri: Option<string>, id: string, now: Instant): Membership {
    Membership(id, personUri, roleUri, organizationUri, MembershipStatus(organizations, organizationUri), now)
  }

  /** `insertNewMembership`: a fresh membership at the base URI plus a new uuid, with the inherited status. */
  method InsertNewMembership(store: GraphStore, personUri: string, roleUri: string, organizationUri: Option<string>, id: string, now: Instant)
    returns (membership: MembershipRef)
    requires MembershipUri(id) !in store.memberships
    modifies store`memberships
    ensures membership == MembershipRef(MembershipUri(id), id, MembershipStatus(store.organizations, organizationUri))
    ensures store.memberships ==
      old(store.memberships)[MembershipUri(id) := NewMembership(store.organizations, personUri, roleUri, organizationUri, id, now)]
  {
    var status := MembershipStatus(store.organizations, organizationUri);
    membership := MembershipRef(MembershipUri(id), id, status);
    store.memberships := store.memberships[MembershipUri(id) := NewMembership(store.organizations, personUri, roleUri, organizationUri, id, now)];
  }

  ghost predicate HasMatch(store: GraphStore, personUri: string, roleUri: string, organizationUri: Option<string>)
    reads store
  {
    exists m :: m in store.memberships && MembershipMatches(store.memberships[m], personUri, roleUri, organizationUri)
  }

  /**
   * `ensureMembership`: an existing matching membership is returned with its uuid and status
   * and nothing changes; otherwise one is created. No two memberships end up sharing person,
   * role and organization.
   */
  method EnsureMembership(store: GraphStore, personUri: string, roleUri: string, organizationUri: Option<string>, id: string, now: Instant)
    returns (membership: MembershipRef)
    requires MembershipUri(id) !in store.memberships
    modifies store`memberships
    ensures membership.membershipUri in store.memberships
    ensures MembershipMatches(store.memberships[membership.membershipUri], personUri, roleUri, organizationUri)
    ensures membership.membershipId == store.memberships[membership.membershipUri].id
    ensures membership.membershipStatus == store.memberships[membership.membershipUri].status
    ensures old(HasMatch(store, personUri, roleUri, organizationUri)) ==> store.memberships == old(store.memberships)
    ensures !old(HasMatch(store, personUri, roleUri, organizationUri)) ==>
      membership.membershipUri == MembershipUri(id) &&
      store.memberships == old(store.memberships)[MembershipUri(id) := NewMembership(store.organizations, personUri, roleUri, organizationUri, id, now)]
    ensures old(store.MembershipsUnique()) ==> store.MembershipsUnique()
  {
    if m :| m in store.memberships && MembershipMatches(store.memberships[m], personUri, roleUri, organizationUri) {
      var found := store.memberships[m];
      membership := MembershipRef(m, found.id, found.status);
    } else {
      membership := InsertNewMembership(store, personUri, roleUri, organizationUri, id, now);
    }
  }

  /**
   * A second call with the same person, role and organization URI adds nothing. When the
   * organization URI is given it finds the very membership the first call returned; without
   * one, any membership of the person in that role may be returned.
   */
  method EnsureMembershipTwice(store: GraphStore, personUri: string, roleUri: string, organizationUri: Option<string>, id1: string, id2: string, now: Instant)
    returns (first: MembershipRef, second: MembershipRef)
    requires store.MembershipsUnique()
    requires MembershipUri(id1) !in store.memberships && MembershipUri(id2) !in store.memberships && id1 != id2
    modifies store`memberships
    ensures Truthy(organizationUri) ==> first == second
    ensures second.membershipUri in store.memberships
    ensures MembershipMatches(store.memberships[second.membershipUri], personUri, roleUri, organizationUri)
    ensures |store.memberships| <= old(|store.memberships|) + 1
    ensures store.MembershipsUnique()
  {
    first := EnsureMembership(store, personUri, roleUri, organizationUri, id1, now);
    assert MembershipUri(id1)[|MembershipResourceBaseUri|..] == id1;
    assert MembershipUri(id2)[|MembershipResourceBaseUri|..] == id2;
    second := EnsureMembership(store, personUri, roleUri, organizationUri, id2, now);
  }

}
