/** Records shared by the organization views: profiles, organizations,
    the rendered-fragment cache keys and the user-facing message page.
 */
module OrgTypes {

  /** Some value or nothing, in place of Python's `None`. */
  datatype Option<+T> = None | Some(value: T)

  type OrgId = nat
  type ProfileId = nat

  /** A point in time, as supplied by the caller; only equality matters. */
  datatype Instant = Instant(ticks: int)

  /** A judge user profile: its reputation points and its (at most one)
      organization membership with the time it joined. */
  datatype Profile = Profile(
    id: ProfileId,
    points: real,
    organization: Option<OrgId>,
    joinTime: Option<Instant>
  )

  /** An organization record: its numeric id, its slug `key`, display name,
      free-text description and the profile that registered it. */
  datatype Organization = Organization(
    id: OrgId,
    key: string,
    name: string,
    about: string,
    registrant: ProfileId
  )

  /** A template fragment cache key: the fragment name and the values it varies on. */
  datatype CacheKey = FragmentKey(fragment: string, varyOn: seq<OrgId>)

  /** The key of the cached member-count fragment of one organization. */
  function MemberCountKey(org: OrgId): CacheKey
  {
    FragmentKey("org_member_count", [org])
  }

  /** Distinct organizations never share a member-count cache key, so deleting
      one organization's key leaves every other organization's fragment cached. */
  lemma MemberCountKeyInjective(a: OrgId, b: OrgId)
    ensures MemberCountKey(a) == MemberCountKey(b) <==> a == b
  {
    if MemberCountKey(a) == MemberCountKey(b) {
      assert MemberCountKey(a).varyOn[0] == a;
    }
  }

  /** The generic message page: a title and a message body. */
  datatype Message = Message(title: string, body: string)

  /** Where a view sends the browser after it has run. */
  datatype Route = OrganizationHomeRoute(key: string)

  /** What a view answers: a message page or a redirect. */
  datatype Response = MessagePage(message: Message) | Redirect(route: Route)

  /** The profile may differ from `before` only in its organization and join
      time: its identity and points are untouched. */
  predicate OnlyMembershipDiffers(before: Profile, after: Profile)
  {
    after.(organization := before.organization, joinTime := before.joinTime) == before
  }

  /** A profile is in an organization exactly when it has a join time. */
  predicate Consistent(p: Profile)
  {
    p.organization.Some? <==> p.joinTime.Some?
  }
}
