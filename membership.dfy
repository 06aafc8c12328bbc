/** The organization-membership state both dashboards keep
    (`userOrgStatus`) and the two invite handlers that change it. The
    simulated delay before each change is not modelled: each handler is one
    transition. */
module Membership {

  import opened Wrappers

  datatype Organization = Organization(
    id: string, name: string, logo: string, kind: string, memberSince: string, totalMembers: int)

  datatype Invite = Invite(
    id: string, organization: Organization, invitedBy: string, inviteDate: string, expiryDate: string)

  /** `UserOrganizationStatus`; the page holds `null` (None) until it loads. */
  datatype OrgStatus = OrgStatus(
    isPartOfOrg: bool, organization: Option<Organization>, hasActiveInvite: bool, activeInvite: Option<Invite>)

  /** `userOrgStatus?.activeInvite` is set. */
  predicate HasInvite(st: Option<OrgStatus>)
  {
    st.Some? && st.value.activeInvite.Some?
  }

  /** `handleAcceptInvite`: without an active invite nothing happens;
      otherwise the user joins the invite's organization, recorded with
      `memberSince` set to `today`, and the invite is gone. */
  function Accept(st: Option<OrgStatus>, today: string): (r: Option<OrgStatus>)
    ensures !HasInvite(st) ==> r == st
    ensures HasInvite(st) ==>
      && r.Some? && r.value.isPartOfOrg && !r.value.hasActiveInvite && !HasInvite(r)
      && r.value.organization.Some?
      && r.value.organization.value.memberSince == today
      && r.value.organization.value.(memberSince := st.value.activeInvite.value.organization.memberSince)
         == st.value.activeInvite.value.organization
  {
    if !HasInvite(st) then st
    else Some(OrgStatus(true, Some(st.value.activeInvite.value.organization.(memberSince := today)), false, None))
  }

  /** `handleDeclineInvite`: whatever the state, the user is left outside
      any organization and without an invite. */
  function Decline(st: Option<OrgStatus>): (r: Option<OrgStatus>)
    ensures r.Some? && !r.value.isPartOfOrg && !r.value.hasActiveInvite
    ensures r.value.organization.None? && !HasInvite(r)
  {
    Some(OrgStatus(false, None, false, None))
  }

  /** Accepting twice is accepting once: the first accept consumes the
      invite. */
  lemma AcceptIdempotent(st: Option<OrgStatus>, today: string, later: string)
    ensures Accept(Accept(st, today), later) == Accept(st, today)
  {
  }

  /** After a decline there is nothing left to accept. */
  lemma AcceptAfterDeclineDoesNothing(st: Option<OrgStatus>, today: string)
    ensures Accept(Decline(st), today) == Decline(st)
  {
  }

  /** A state whose invite flag is backed by an invite. */
  predicate Coherent(st: Option<OrgStatus>)
  {
    st.Some? ==> (st.value.hasActiveInvite ==> st.value.activeInvite.Some?)
  }

  /** Both handlers keep states coherent and leave no invite flag set. */
  lemma HandlersKeepCoherent(st: Option<OrgStatus>, today: string)
    requires Coherent(st)
    ensures Coherent(Accept(st, today)) && Coherent(Decline(st))
    ensures HasInvite(st) ==> !Accept(st, today).value.hasActiveInvite
  {
  }
}
