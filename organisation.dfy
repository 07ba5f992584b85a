/**
 * lib/organisation.js: the older copy of the OVO-code extraction and of the organization
 * insert. Both behave as their counterparts in lib/organization.js, which the model reuses.
 */
module Organisations {
  import opened Wrappers
  import opened Store
  import Organizations

  /** `ovoCodeFromVoEmail`: the leftmost /OVO\d{6}/ match in a vo-email claim, or null. */
  function OvoCodeFromVoEmail(voEmail: string): (code: Option<string>)
    ensures code.None? <==> forall k :: !Organizations.OvoCodeAt(voEmail, k)
    ensures code.Some? ==> Organizations.IsOvoCode(code.value)
    ensures code.Some? ==>
      exists i :: Organizations.OvoCodeAt(voEmail, i) && code.value == voEmail[i..i + 9] &&
                  forall k :: 0 <= k < i ==> !Organizations.OvoCodeAt(voEmail, k)
  {
    Organizations.OvoCodeFromString(voEmail)
  }

  /**
   * `insertNewOrganisation`: creates the organization at the base URI plus the code and
   * returns that URI with the code as identifier; when the URI was free, exactly one
   * organization is added.
   */
  method InsertNewOrganisation(store: GraphStore, ovoCode: string, id: string)
    returns (uri: string, identifier: string, uuid: string)
    requires Organizations.UrisCarryCodes(store)
    modifies store`organizations
    ensures uri == Organizations.OrganisationResourceBaseUri + ovoCode
    ensures identifier == ovoCode && uuid == id
    ensures uri in store.organizations && store.organizations[uri].identifier == ovoCode
    ensures old(uri !in store.organizations) ==>
      store.organizations == old(store.organizations)[uri := Organization(id, ovoCode, None)] &&
      |store.organizations| == old(|store.organizations|) + 1
    ensures old(uri in store.organizations) ==> store.organizations == old(store.organizations)
    ensures Organizations.UrisCarryCodes(store)
  {
    uri, identifier, uuid := Organizations.InsertNewOrganization(store, ovoCode, id);
  }

}
