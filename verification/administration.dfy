/** Creating an organization and editing one: the points-and-membership gate in
    front of the creation form, and the membership check in front of the edit
    form.
 */
module Administration {
  import opened OrgTypes
  import opened OrgMessages

  /** Fewest points a profile needs before it may register an organization. */
  const MinimumPoints: real := 50.0

  /** The gate in front of the creation form: `None` lets the request through,
      otherwise the rejection message. Too few points is reported before an
      existing membership. */
  function CreationGate(p: Profile): (r: Option<Message>)
    ensures r.None? <==> p.points >= MinimumPoints && p.organization.None?
    ensures p.points < MinimumPoints ==> r == Some(NotEnoughPoints)
    ensures p.points >= MinimumPoints && p.organization.Some? ==> r == Some(AlreadyInOrganizationOnCreate)
  {
    if p.points < MinimumPoints then Some(NotEnoughPoints)
    else if p.organization.Some? then Some(AlreadyInOrganizationOnCreate)
    else None
  }

  /** The fields of the creation form. */
  datatype CreationForm = CreationForm(name: string, key: string, about: string)

  /** Either the organization that was registered or the rejection message. */
  datatype Creation = Created(org: Organization) | CreationRejected(message: Message)

  /** Register a new organization from a valid form, with the requesting profile
      as its registrant. `newId` stands for the id the database assigns. The
      requester's own membership is not touched here. */
  function NewOrganization(p: Profile, form: CreationForm, newId: OrgId): (r: Creation)
    ensures r.Created? <==> p.points >= MinimumPoints && p.organization.None?
    ensures r.CreationRejected? ==> Some(r.message) == CreationGate(p)
    ensures r.Created? ==>
              && r.org.registrant == p.id
              && r.org.id == newId
              && r.org.name == form.name
              && r.org.key == form.key
              && r.org.about == form.about
  {
    match CreationGate(p)
    case Some(m) => CreationRejected(m)
    case None => Created(Organization(newId, form.key, form.name, form.about, p.id))
  }

  /** No profile short of the minimum points ever registers an organization,
      whatever its membership and whatever the form says. */
  lemma TooFewPointsNeverCreates(p: Profile, form: CreationForm, newId: OrgId)
    requires p.points < MinimumPoints
    ensures NewOrganization(p, form, newId) == CreationRejected(NotEnoughPoints)
  {
  }

  /** The permission check in front of the edit form: `None` when the profile is
      a member of `org`, otherwise the rejection message. */
  function EditPermission(p: Profile, org: Organization): (r: Option<Message>)
    ensures r.None? <==> p.organization == Some(org.id)
    ensures r.Some? ==> r.value == NotInThisOrganization
  {
    if p.organization != Some(org.id) then Some(NotInThisOrganization) else None
  }

  /** The fields of the edit form: only the display name and the description. */
  datatype EditForm = EditForm(name: string, about: string)

  /** Either the organization as saved or the message page shown instead. */
  datatype Edit = Edited(org: Organization) | EditRejected(message: Message)

  /** Serve an edit of the organization with slug `key`: an unknown slug gets
      the not-found page, a non-member gets the permission message, and a
      member's form replaces the name and description and nothing else. */
  function EditOrganization(orgs: map<string, Organization>, key: string, p: Profile, form: EditForm): (r: Edit)
    ensures key !in orgs ==> r == EditRejected(NotFound(Some(key)))
    ensures key in orgs && p.organization != Some(orgs[key].id) ==> r == EditRejected(NotInThisOrganization)
    ensures r.Edited? <==> key in orgs && p.organization == Some(orgs[key].id)
    ensures r.Edited? ==>
              && r.org.name == form.name
              && r.org.about == form.about
              && r.org.(name := orgs[key].name, about := orgs[key].about) == orgs[key]
  {
    if key !in orgs then EditRejected(NotFound(Some(key)))
    else
      var org := orgs[key];
      match EditPermission(p, org)
      case Some(m) => EditRejected(m)
      case None => Edited(org.(name := form.name, about := form.about))
  }

  /** An edit never costs its author the right to edit: the saved organization
      keeps its id and slug, so the same member may edit it again, and
      submitting the same form again saves the same record. */
  lemma EditKeepsPermission(orgs: map<string, Organization>, key: string, p: Profile, form: EditForm)
    ensures var r := EditOrganization(orgs, key, p, form);
            r.Edited? ==>
              && EditPermission(p, r.org).None?
              && r.org.key == orgs[key].key
              && EditOrganization(orgs[key := r.org], key, p, form) == r
  {
  }
}
