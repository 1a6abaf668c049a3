/** The user-facing messages the organization views answer with, and the
    "no such organization" page shown for an unknown slug.
 */
module OrgMessages {
  import opened OrgTypes

  const NotFoundTitle := "No such organization"
  const KeyedPrefix := "Could not find an organization with the key \""
  const KeyedSuffix := "\"."
  const GenericBody := "Could not find such organization."

  /** A present key is one Python treats as true: given and not empty. */
  predicate KeyPresent(key: Option<string>)
  {
    key.Some? && |key.value| > 0
  }

  /** The page for an organization slug that does not resolve. The body quotes
      the key when one is present and is generic otherwise. */
  function NotFound(key: Option<string>): (m: Message)
    ensures m.title == NotFoundTitle
    ensures KeyPresent(key) ==> |m.body| == |KeyedPrefix| + |key.value| + |KeyedSuffix|
    ensures !KeyPresent(key) ==> m.body == GenericBody
  {
    if KeyPresent(key) then
      Message(NotFoundTitle, KeyedPrefix + key.value + KeyedSuffix)
    else
      Message(NotFoundTitle, GenericBody)
  }

  /** Reads the quoted key back out of a not-found page, if its body has the
      keyed shape. */
  function KeyFromNotFound(m: Message): Option<string>
  {
    var b := m.body;
    if |b| >= |KeyedPrefix| + |KeyedSuffix|
       && b[..|KeyedPrefix|] == KeyedPrefix
       && b[|b| - |KeyedSuffix|..] == KeyedSuffix
    then Some(b[|KeyedPrefix|..|b| - |KeyedSuffix|])
    else None
  }

  /** The not-found page names the key exactly when the key is present: the
      key can be read back from the page, and from a generic page nothing can. */
  lemma NotFoundNamesKeyExactlyWhenPresent(key: Option<string>)
    ensures KeyPresent(key) ==> KeyFromNotFound(NotFound(key)) == Some(key.value)
    ensures !KeyPresent(key) ==> KeyFromNotFound(NotFound(key)) == None
  {
    if KeyPresent(key) {
      var b := KeyedPrefix + key.value + KeyedSuffix;
      assert b[..|KeyedPrefix|] == KeyedPrefix;
      assert b[|b| - |KeyedSuffix|..] == KeyedSuffix;
      assert b[|KeyedPrefix|..|b| - |KeyedSuffix|] == key.value;
    }
  }

  /** Join rejected because the profile already belongs to an organization. */
  const AlreadyInOrganizationOnJoin := Message("Joining organization", "You are already in an organization.")

  /** Leave rejected because the profile is not in the organization with this key. */
  function NotInOrganization(orgKey: string): Message
  {
    Message("Leaving organization", "You are not in \"" + orgKey + "\".")
  }

  /** Creation rejected for too few points. */
  const NotEnoughPoints := Message("Can't add organization", "You need 50 points to add an organization.")

  /** Creation rejected because the profile already belongs to an organization. */
  const AlreadyInOrganizationOnCreate := Message("Can't add organization", "You are already in an organization.")

  /** Edit rejected because the profile is not a member of the organization. */
  const NotInThisOrganization := Message("Can't edit organization", "You are not in this organization.")
}
