# Organization membership in the judge site

This project models the decision logic in the organization views of a
contest-judging site (`judge/views/organization.py`). A user profile belongs to
at most one organization. It may join an organization only when it is in none,
and it may leave only the organization it is in. Each successful change
records or clears the join time. It also deletes the cached member-count
fragment of that organization. A refused change shows a message page and
changes nothing. Registering a new organization needs at least 50 points and
no current membership. Editing an organization is reserved to its members. An
unknown organization slug gets a "No such organization" page, which quotes the
slug when one was given.

Each view is a pure function of the requesting profile (an authenticated user
is assumed). The join and leave view also takes the organizations indexed by
slug and the current time as an opaque `Instant`. It returns the profile as
saved, the response (a message page or a redirect to the organization's home
page), and the set of cache keys it deleted. The creation and edit functions
return either the created or edited organization record or the rejection
message; they touch neither the profile nor the cache. Requests against one
profile are handled one at a time.

Modules:

- `OrgTypes` (`types.dfy`): profiles, organizations, cache keys, messages and responses. `MemberCountKey` is the `org_member_count` fragment key varying on the organization id (judge/views/organization.py:89, 99).
- `OrgMessages` (`messages.dfy`): the message pages, including the not-found page.
- `Membership` (`membership.dfy`): the join and leave handlers, and the view that dispatches to them. `Handler` picks the join or leave handler, as the overridden `handle` does (judge/views/organization.py:73, 78-79).
- `Administration` (`administration.dfy`): the creation gate, the creation itself, and edit permission.
- `Sessions` (`sessions.dfy`): a profile's history of join and leave requests, and what holds of whole histories.

## Model

| member | source | states |
|---|---|---|
| OrgTypes.MemberCountKeyInjective | judge/views/organization.py:89-99 | in the model's structured key (fragment name plus the varied-on organization id), two organizations share a member-count key only if they are the same organization; the digest the framework makes of that key is not modelled |
| OrgMessages.NotFound | judge/views/organization.py:21-27 | the page is always titled "No such organization"; with a present (non-empty) key the body is the keyed sentence around the key, otherwise it is the generic sentence |
| OrgMessages.NotFoundNamesKeyExactlyWhenPresent | judge/views/organization.py:21-27 | the key can be read back from the not-found page exactly when it was present, and nothing can be read back from the generic page |
| Membership.Join | judge/views/organization.py:83-89 | join succeeds exactly when the profile has no organization; on refusal it returns the "already in an organization" message with profile and cache untouched; on success it sets the organization and the join time to now, changes no other profile field, and deletes exactly that organization's member-count key |
| Membership.Leave | judge/views/organization.py:93-99 | leave succeeds exactly when the profile's organization is the target (so never for a profile in none); on refusal it returns the "not in <key>" message with profile and cache untouched; on success it clears the organization and the join time, changes nothing else, and deletes exactly that organization's member-count key |
| Membership.HandlerPreservesConsistency | judge/views/organization.py:84-98 | both handlers keep "has a join time exactly when in an organization" |
| Membership.HandlerFailsExactlyWhenNothingChanges | judge/views/organization.py:83-99 | a handler answers with a message exactly when it deletes no key; then the profile is unchanged; it succeeds exactly when it deletes the organization's member-count key |
| Membership.MembershipChange | judge/views/organization.py:67-76 | an unknown slug gets the keyed not-found page and changes nothing; otherwise the handler's message, when it has one, is the response; when it has none the response redirects to the organization's home page; the saved profile and deleted keys are the handler's |
| Membership.RedirectExactlyWhenInvalidated | judge/views/organization.py:73-76 | a request redirects home exactly when it deleted a cache key, which is then the member-count key of the requested organization; a message-page answer changes neither profile nor cache |
| Membership.JoinThenLeaveRestores | judge/views/organization.py:84-98 | from a profile in no organization, join X then leave X both succeed and give back the original profile, and a join of any organization in between is refused and changes nothing |
| Administration.CreationGate | judge/views/organization.py:111-119 | the creation form is reached exactly when points are at least 50 and the profile has no organization; fewer than 50 points is reported first, even for a member; otherwise a member gets "already in an organization" |
| Administration.NewOrganization | judge/views/organization.py:105-119 | an organization is created exactly when the gate lets the request through, with the form's name, key and description and the requester as registrant; otherwise the response is the gate's message |
| Administration.TooFewPointsNeverCreates | judge/views/organization.py:113-115 | a profile with fewer than 50 points never creates an organization, whatever its membership or form |
| Administration.EditPermission | judge/views/organization.py:126-136 | editing is permitted exactly when the profile's organization is the one being edited; otherwise the answer is "You are not in this organization." |
| Administration.EditOrganization | judge/views/organization.py:122-136 | an unknown slug gets the not-found page; a non-member gets the permission message; a member's edit replaces the name and description and leaves every other organization field as it was |
| Sessions.Run | judge/views/organization.py:83-99 | over any sequence of join and leave requests the profile keeps its identity and points, and a consistent profile stays consistent |
| Sessions.FailuresChangeNothing | judge/views/organization.py:84-95 | dropping every refused request from a history gives the same final profile and the same deleted keys |
| Sessions.SuccessfulIsIdempotent | judge/views/organization.py:84-98 | replaying only the successful requests of a history refuses none of them |
| Sessions.InvalidatedAreSuccessfulKeys | judge/views/organization.py:89-99 | the keys a history deletes are exactly the member-count keys of the organizations its successful requests joined or left |
| Sessions.AllSucceedIffAlternates | judge/views/organization.py:84-98 | every request of a history succeeds exactly when it follows the protocol "from no organization only a join, from organization X only a leave of X" |
| Sessions.SuccessfulAlternates | judge/views/organization.py:84-98 | the successful part of any history follows the join/leave protocol |
| Administration.EditKeepsPermission | judge/views/organization.py:123-129 | an edit keeps the organization's id and slug, so its author may edit it again, and resubmitting the same form saves the same record |
| Sessions.InKeysOf | judge/views/organization.py:89-99 | a member-count key is among the keys of a list of requests exactly when some request targets that organization |
| Sessions.OnlyTargetedCountsDropped | judge/views/organization.py:89-99 | a history drops an organization's cached member count exactly when one of its successful requests joined or left that organization |
| Sessions.LastSuccessDecides | judge/views/organization.py:84-98 | the last successful request decides the final membership (a join: that organization and that request's time; a leave: none); with no success the profile is unchanged |

## Left out

- Listing, home page and member roster (`OrganizationList`, `OrganizationHome`, `OrganizationUsers`): these only render. The roster ranking comes from `judge/utils/ranker`, which is not part of this model.
- Routing, templates, titles, the URL reversal for the redirect, and form validation: the redirect is modelled as a route naming the organization's slug. The creation and edit forms are assumed valid.
- Login enforcement: every view takes an authenticated requester's profile.
- Persistence: `save()` and the ORM lookup are modelled as returning the updated record and as a map from slug to organization. The id a new organization gets is a parameter.
- The clock and the cache backend: the current time is a parameter. The cache is the set of keys a request deleted.
- Profile points: their storage type is defined outside this file. They are modelled as real numbers, with no floating-point rounding.
- `OrganizationMixin.dispatch` (judge/views/organization.py:43-47) passes the view object to the parent dispatch a second time, in the request's place. The model follows the evident intent: the view runs, and an unknown slug gets the not-found page.
- `EditOrganization.get_object` (judge/views/organization.py:126-129) raises on a non-member but never returns the object it looked up. As written, the update form therefore gets no object, and a member's submitted edit never updates the found organization. `Administration.EditOrganization`'s `Edited` branch (name and description replaced, line 123) is the intended behaviour, not the source's.
- The not-found path for a request with no slug at all: routing always supplies one. `OrgMessages.NotFound` still models the absent-key case.
- The success response of creation and edit: on success the framework's create and update views redirect, to a target defined outside this file. `Administration.NewOrganization` and `Administration.EditOrganization` return the saved record instead of that redirect.
- Concurrency: requests against one profile are modelled one at a time. In the source, join and leave check the guard and then save, with no locking (judge/views/organization.py:84-88, 94-98), and `save()` writes the whole profile row. Two simultaneous joins of X and Y from a profile in no organization can both pass the guard, and the profile then moves from X to Y without a leave. This check-then-save race and the whole-row save are not modelled, so `Sessions.Run` and `Sessions.AllSucceedIffAlternates` describe serialized histories only.
