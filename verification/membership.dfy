/** Joining and leaving an organization: the two membership handlers and the
    shared view that resolves the organization and turns a handler's answer
    into a response.
 */
module Membership {
  import opened OrgTypes
  import opened OrgMessages

  /** What a membership handler leaves behind: the profile as saved, the
      message it answered with (`None` when it succeeded), and the cache keys
      it deleted. */
  datatype HandlerResult = HandlerResult(
    profile: Profile,
    message: Option<Message>,
    invalidated: set<CacheKey>
  )

  /** A rejection: the message, and nothing saved or deleted. */
  function Rejected(p: Profile, m: Message): HandlerResult
  {
    HandlerResult(p, Some(m), {})
  }

  /** Join `org` at time `now`. Only a profile without an organization may join;
      it then records the organization and the join time and drops the
      organization's cached member count. */
  function Join(p: Profile, org: Organization, now: Instant): (r: HandlerResult)
    ensures r.message.None? <==> p.organization.None?
    ensures p.organization.Some? ==>
              r.message == Some(AlreadyInOrganizationOnJoin) && r.profile == p && r.invalidated == {}
    ensures p.organization.None? ==>
              && r.profile.organization == Some(org.id)
              && r.profile.joinTime == Some(now)
              && OnlyMembershipDiffers(p, r.profile)
              && r.invalidated == {MemberCountKey(org.id)}
  {
    if p.organization.Some? then
      Rejected(p, AlreadyInOrganizationOnJoin)
    else
      HandlerResult(p.(organization := Some(org.id), joinTime := Some(now)), None, {MemberCountKey(org.id)})
  }

  /** Leave `org`. Only a member of `org` may leave it (a profile with no
      organization is not a member of any); it then clears the organization
      and the join time and drops the organization's cached member count. */
  function Leave(p: Profile, org: Organization): (r: HandlerResult)
    ensures r.message.None? <==> p.organization == Some(org.id)
    ensures p.organization != Some(org.id) ==>
              r.message == Some(NotInOrganization(org.key)) && r.profile == p && r.invalidated == {}
    ensures p.organization == Some(org.id) ==>
              && r.profile.organization.None?
              && r.profile.joinTime.None?
              && OnlyMembershipDiffers(p, r.profile)
              && r.invalidated == {MemberCountKey(org.id)}
  {
    if p.organization != Some(org.id) then
      Rejected(p, NotInOrganization(org.key))
    else
      HandlerResult(p.(organization := None, joinTime := None), None, {MemberCountKey(org.id)})
  }

  /** Which of the two membership views is being served. */
  datatype ChangeKind = JoinKind | LeaveKind

  function Handler(kind: ChangeKind, p: Profile, org: Organization, now: Instant): HandlerResult
  {
    match kind
    case JoinKind => Join(p, org, now)
    case LeaveKind => Leave(p, org)
  }

  /** Both handlers keep a profile consistent: it has a join time exactly when
      it is in an organization. */
  lemma HandlerPreservesConsistency(kind: ChangeKind, p: Profile, org: Organization, now: Instant)
    requires Consistent(p)
    ensures Consistent(Handler(kind, p, org, now).profile)
  {
  }

  /** A handler fails exactly when it changes nothing: a rejection leaves the
      profile as it was and deletes no key, and a success always deletes the
      organization's member-count key. */
  lemma HandlerFailsExactlyWhenNothingChanges(kind: ChangeKind, p: Profile, org: Organization, now: Instant)
    ensures var r := Handler(kind, p, org, now);
            r.message.Some? <==> r.invalidated == {}
    ensures var r := Handler(kind, p, org, now);
            r.message.Some? ==> r.profile == p
    ensures var r := Handler(kind, p, org, now);
            r.message.None? <==> r.invalidated == {MemberCountKey(org.id)}
  {
  }

  /** The outcome of one membership request: the saved profile, the response and
      the deleted cache keys. */
  datatype Exchange = Exchange(profile: Profile, response: Response, invalidated: set<CacheKey>)

  /** Serve a join or leave request for the slug `key` among the organizations
      `orgs` (indexed by slug). An unknown slug gets the not-found page; a
      handler's message is the response; otherwise the browser is sent to the
      organization's home page. */
  function MembershipChange(kind: ChangeKind, orgs: map<string, Organization>, key: string,
                            p: Profile, now: Instant): (r: Exchange)
    ensures key !in orgs ==>
              r == Exchange(p, MessagePage(NotFound(Some(key))), {})
    ensures key in orgs ==>
              var h := Handler(kind, p, orgs[key], now);
              && r.profile == h.profile
              && r.invalidated == h.invalidated
              && (h.message.Some? ==> r.response == MessagePage(h.message.value))
              && (h.message.None? ==> r.response == Redirect(OrganizationHomeRoute(orgs[key].key)))
  {
    if key !in orgs then
      Exchange(p, MessagePage(NotFound(Some(key))), {})
    else
      var org := orgs[key];
      var h := Handler(kind, p, org, now);
      match h.message
      case Some(m) => Exchange(h.profile, MessagePage(m), h.invalidated)
      case None => Exchange(h.profile, Redirect(OrganizationHomeRoute(org.key)), h.invalidated)
  }

  /** The member-count key is dropped exactly when the request redirects home,
      and a request answered with a message page changes nothing. */
  lemma RedirectExactlyWhenInvalidated(kind: ChangeKind, orgs: map<string, Organization>, key: string,
                                       p: Profile, now: Instant)
    ensures var r := MembershipChange(kind, orgs, key, p, now);
            r.response.Redirect? <==> r.invalidated != {}
    ensures var r := MembershipChange(kind, orgs, key, p, now);
            r.response.MessagePage? ==> r.profile == p && r.invalidated == {}
    ensures var r := MembershipChange(kind, orgs, key, p, now);
            r.response.Redirect? ==> key in orgs && r.invalidated == {MemberCountKey(orgs[key].id)}
  {
  }

  /** From a profile in no organization, joining X and then leaving X both
      succeed and give back the original profile; a join of any organization
      in between is refused. */
  lemma JoinThenLeaveRestores(p: Profile, x: Organization, y: Organization, now: Instant, later: Instant)
    requires p.organization.None? && p.joinTime.None?
    ensures Join(p, x, now).message.None?
    ensures Leave(Join(p, x, now).profile, x).message.None?
    ensures Leave(Join(p, x, now).profile, x).profile == p
    ensures Join(Join(p, x, now).profile, y, later) == Rejected(Join(p, x, now).profile, AlreadyInOrganizationOnJoin)
  {
  }
}
