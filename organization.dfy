/**
 * lib/organization.js: extracting an OVO organization code from a string, and the
 * lookup-or-insert of an organization keyed by that code.
 */
module Organizations {
  import opened Wrappers
  import opened Store

  const OrganisationResourceBaseUri := "https://data.vlaanderen.be/id/organisatie/"

  /** The URI an organization with this OVO code is created at. */
  function OrganizationUri(ovoCode: string): string {
    OrganisationResourceBaseUri + ovoCode
  }

  predicate IsDigit(c: char) {
    '0' <= c <= '9'
  }

  /** `s` holds a match of /OVO\d{6}/ starting at index `i`. */
  predicate OvoCodeAt(s: string, i: int) {
    && 0 <= i && i + 9 <= |s|
    && s[i] == 'O' && s[i + 1] == 'V' && s[i + 2] == 'O'
    && forall k :: i + 3 <= k < i + 9 ==> IsDigit(s[k])
  }

  /** `code` is exactly an OVO code: "OVO" followed by six decimal digits, nothing more. */
  predicate IsOvoCode(code: string) {
    |code| == 9 && OvoCodeAt(code, 0)
  }

  /** The index of the leftmost match at or after `from`, as the regex engine scans. */
  function FirstOvoCodeFrom(s: string, from: nat): (r: Option<nat>)
    requires from <= |s|
    ensures r.Some? ==> from <= r.value && OvoCodeAt(s, r.value)
    ensures r.Some? ==> forall k :: from <= k < r.value ==> !OvoCodeAt(s, k)
    ensures r.None? ==> forall k :: from <= k ==> !OvoCodeAt(s, k)
    decreases |s| - from
  {
    if from + 9 > |s| then None
    else if OvoCodeAt(s, from) then Some(from)
    else FirstOvoCodeFrom(s, from + 1)
  }

  /**
   * `ovoCodeFromString`: the leftmost match of /OVO\d{6}/ in `s`, or null when there is none.
   * Digits after the sixth are not part of the match.
   */
  function OvoCodeFromString(s: string): (code: Option<string>)
    ensures code.None? <==> forall k :: !OvoCodeAt(s, k)
    ensures code.Some? ==> IsOvoCode(code.value)
    ensures code.Some? ==> exists i :: OvoCodeAt(s, i) && code.value == s[i..i + 9] && forall k :: 0 <= k < i ==> !OvoCodeAt(s, k)
  {
    match FirstOvoCodeFrom(s, 0)
    case None => None
    case Some(i) =>
      var code := s[i..i + 9];
      assert OvoCodeAt(s, i);
      assert forall k :: 3 <= k < 9 ==> code[k] == s[i + k];
      Some(code)
  }

  /** The code found is the one at the leftmost match, wherever that match is. */
  lemma OvoCodeLeftmost(s: string, i: nat)
    requires OvoCodeAt(s, i)
    requires forall k :: 0 <= k < i ==> !OvoCodeAt(s, k)
    ensures OvoCodeFromString(s) == Some(s[i..i + 9])
  {
    var r := FirstOvoCodeFrom(s, 0);
    assert r.Some?;
    assert r.value == i;
  }

  /** An example: a code followed by more digits yields only its first six digits. */
  lemma OvoCodeExample()
    ensures OvoCodeFromString("vo_orgcode:OVO0018271") == Some("OVO001827")
  {
    var s := "vo_orgcode:OVO0018271";
    assert OvoCodeAt(s, 11);
    forall k | 0 <= k < 11 ensures !OvoCodeAt(s, k) {
      assert s[k] != 'O';
    }
    OvoCodeLeftmost(s, 11);
    var expected := "OVO001827";
    assert forall k | 0 <= k < 9 :: s[11..20][k] == expected[k];
    assert s[11..20] == expected;
  }

  /**
   * Organizations stored under the code-derived URI scheme carry the code the URI ends in.
   * This is how the service creates them; the store keeps it.
   */
  ghost predicate UrisCarryCodes(store: GraphStore)
    reads store
  {
    forall u :: u in store.organizations && OrganisationResourceBaseUri <= u ==>
      store.organizations[u].identifier == u[|OrganisationResourceBaseUri|..]
  }

  lemma OrganizationUriCode(code: string)
    ensures OrganisationResourceBaseUri <= OrganizationUri(code)
    ensures OrganizationUri(code)[|OrganisationResourceBaseUri|..] == code
  {
  }

  ghost predicate HasCode(store: GraphStore, ovoCode: string)
    reads store
  {
    exists o :: o in store.organizations && store.organizations[o].identifier == ovoCode
  }

  /**
   * `insertNewOrganization`: an organization at the base URI plus the code, with that code as
   * identifier. When an organization already stands at that URI it carries this code already
   * and the store is left as it is (the second mu:uuid the insert adds there is not kept).
   */
  method InsertNewOrganization(store: GraphStore, ovoCode: string, id: string)
    returns (uri: string, identifier: string, uuid: string)
    requires UrisCarryCodes(store)
    modifies store`organizations
    ensures uri == OrganizationUri(ovoCode) && identifier == ovoCode && uuid == id
    ensures old(uri !in store.organizations) ==>
      store.organizations == old(store.organizations)[uri := Organization(id, ovoCode, None)]
    ensures old(uri in store.organizations) ==>
      store.organizations == old(store.organizations) && store.organizations[uri].identifier == ovoCode
    ensures UrisCarryCodes(store)
  {
    uri, identifier, uuid := OrganizationUri(ovoCode), ovoCode, id;
    OrganizationUriCode(ovoCode);
    if uri !in store.organizations {
      store.organizations := store.organizations[uri := Organization(id, ovoCode, None)];
    }
  }

  /**
   * `ensureOrganization`: the URI of an organization with this code; an existing one is
   * returned and nothing is inserted, otherwise one is created at the code-derived URI.
   */
  method EnsureOrganization(store: GraphStore, ovoCode: string, id: string) returns (organizationUri: string)
    requires UrisCarryCodes(store)
    modifies store`organizations
    ensures organizationUri in store.organizations && store.organizations[organizationUri].identifier == ovoCode
    ensures old(HasCode(store, ovoCode)) ==> store.organizations == old(store.organizations)
    ensures !old(HasCode(store, ovoCode)) ==>
      organizationUri == OrganizationUri(ovoCode) &&
      store.organizations == old(store.organizations)[organizationUri := Organization(id, ovoCode, None)]
    ensures UrisCarryCodes(store)
    ensures old(store.OrganizationCodesUnique()) ==> store.OrganizationCodesUnique()
  {
    if o :| o in store.organizations && store.organizations[o].identifier == ovoCode {
      organizationUri := o;
    } else {
      OrganizationUriCode(ovoCode);
      var uri, _, _ := InsertNewOrganization(store, ovoCode, id);
      organizationUri := uri;
    }
  }

  /**
   * Calling `ensureOrganization` twice with one code returns the same URI both times and
   * adds at most one organization.
   */
  method EnsureOrganizationTwice(store: GraphStore, ovoCode: string, id1: string, id2: string)
    returns (first: string, second: string)
    requires UrisCarryCodes(store) && store.OrganizationCodesUnique()
    modifies store`organizations
    ensures first == second
    ensures |store.organizations| <= old(|store.organizations|) + 1
    ensures old(HasCode(store, ovoCode)) ==> store.organizations == old(store.organizations)
  {
    first := EnsureOrganization(store, ovoCode, id1);
    second := EnsureOrganization(store, ovoCode, id2);
  }

}
