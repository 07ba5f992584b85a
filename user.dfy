/**
 * lib/user.js: the claim-string helpers, the "is the stored value up to date" comparison,
 * the person lookup-or-insert with its opportunistic refresh, the group selection and the
 * linking of a person to the organizations named in the role claims.
 */
module Users {
  import opened Wrappers
  import opened Text
  import opened Store
  import opened Config
  import Organizations

  const ResourceBaseUri := "http://data.lblod.info/"
  const PersonResourceBaseUri := ResourceBaseUri + "id/persoon/"
  const IdentifierResourceBaseUri := ResourceBaseUri + "id/identificator/"

  function PersonUri(id: string): string {
    PersonResourceBaseUri + id
  }

  function IdentifierUri(id: string): string {
    IdentifierResourceBaseUri + id
  }

  // ---------------------------------------------------------------------------------------
  // Claim-string helpers

  /** `voEmailToEmail`: the text before the first ':' ("test@example.com:OVO001827" gives the address), or all of it. */
  function VoEmailToEmail(voEmail: string): (email: string)
    ensures email <= voEmail
    ensures ':' !in email
    ensures |email| == |voEmail| || voEmail[|email|] == ':'
  {
    BeforeFirst(voEmail, ':')
  }

  /** The characters of the class `[/ .]`. */
  predicate IsPhoneSeparator(c: char) {
    c == '/' || c == ' ' || c == '.'
  }

  predicate HasPhoneSeparator(phone: string) {
    exists i :: 0 <= i < |phone| && IsPhoneSeparator(phone[i])
  }

  /**
   * `sanitizePhoneNumber`: `replace` with a non-global pattern, so only the first '/', ' ' or
   * '.' is removed; a number without any of them is returned unchanged.
   */
  function SanitizePhoneNumber(phone: string): (sanitized: string)
    ensures !HasPhoneSeparator(phone) ==> sanitized == phone
    ensures HasPhoneSeparator(phone) ==> |sanitized| == |phone| - 1
    decreases |phone|
  {
    if |phone| == 0 then phone
    else if IsPhoneSeparator(phone[0]) then phone[1..]
    else
      var rest := SanitizePhoneNumber(phone[1..]);
      assert HasPhoneSeparator(phone) ==> HasPhoneSeparator(phone[1..]) by {
        if HasPhoneSeparator(phone) {
          var i :| 0 <= i < |phone| && IsPhoneSeparator(phone[i]);
          assert phone[1..][i - 1] == phone[i];
        }
      }
      assert [phone[0]] + phone[1..] == phone;
      [phone[0]] + rest
  }

  /** Exactly the leftmost separator is cut out; everything before and after it is kept. */
  lemma {:induction false} SanitizeRemovesFirstSeparator(phone: string, i: nat)
    requires i < |phone| && IsPhoneSeparator(phone[i])
    requires forall k :: 0 <= k < i ==> !IsPhoneSeparator(phone[k])
    ensures SanitizePhoneNumber(phone) == phone[..i] + phone[i + 1..]
    decreases i
  {
    if i > 0 {
      SanitizeRemovesFirstSeparator(phone[1..], i - 1);
      assert phone[1..][..i - 1] + phone[1..][i..] == phone[1..i] + phone[i + 1..];
      assert [phone[0]] + phone[1..i] == phone[..i];
    }
  }

  /** `emailToUri`: the address behind a "mailto:" scheme. */
  function EmailToUri(email: string): (uri: string)
    ensures "mailto:" <= uri && uri[|"mailto:"|..] == email
  {
    "mailto:" + email
  }

  /** `uriToEmail`: drops a leading "mailto:" and leaves any other string as it is. */
  function UriToEmail(uri: string): (email: string)
    ensures "mailto:" <= uri ==> EmailToUri(email) == uri
    ensures !("mailto:" <= uri) ==> email == uri
  {
    if "mailto:" <= uri then uri[|"mailto:"|..] else uri
  }

  /** `phoneToUri`: the number behind a "tel:" scheme. */
  function PhoneToUri(phone: string): (uri: string)
    ensures "tel:" <= uri && uri[|"tel:"|..] == phone
  {
    "tel:" + phone
  }

  /** `uriToPhone`: drops a leading "tel:" and leaves any other string as it is. */
  function UriToPhone(uri: string): (phone: string)
    ensures "tel:" <= uri ==> PhoneToUri(phone) == uri
    ensures !("tel:" <= uri) ==> phone == uri
  {
    if "tel:" <= uri then uri[|"tel:"|..] else uri
  }

  /** Unwrapping a wrapped address gives the address back, for every string. */
  lemma EmailUriRoundTrip(email: string)
    ensures UriToEmail(EmailToUri(email)) == email
  {
    assert "mailto:" <= EmailToUri(email);
  }

  /** Unwrapping a wrapped number gives the number back, for every string. */
  lemma PhoneUriRoundTrip(phone: string)
    ensures UriToPhone(PhoneToUri(phone)) == phone
  {
    assert "tel:" <= PhoneToUri(phone);
  }

  // ---------------------------------------------------------------------------------------
  // Staleness of stored person data

  /** The value as JavaScript truthiness sees it: falsy values ("" included) all become None. */
  function Normalized(v: Option<string>): Option<string> {
    if Truthy(v) then v else None
  }

  /**
   * `testIfPropertyUpToDate`: both present and equal, or both absent, where "" counts as
   * absent. Equivalently: the two agree once falsy values are identified.
   */
  function TestIfPropertyUpToDate(result: Option<string>, claim: Option<string>): (upToDate: bool)
    ensures upToDate <==> Normalized(result) == Normalized(claim)
  {
    if Truthy(result) && Truthy(claim) then result.value == claim.value
    else if !Truthy(result) && !Truthy(claim) then true
    else false
  }

  /** The stored mailbox as an address (`result.email && result.email.value && uriToEmail(...)`). */
  function StoredEmail(person: Person): Option<string> {
    if Truthy(person.email) then Some(UriToEmail(person.email.value)) else None
  }

  /** The stored phone URI as a number. */
  function StoredPhone(person: Person): Option<string> {
    if Truthy(person.phone) then Some(UriToPhone(person.phone.value)) else None
  }

  /** The address the vo-email claim carries (`claims[voEmailClaim] && voEmailToEmail(...)`). */
  function ClaimedEmail(claims: Claims): Option<string> {
    if Truthy(claims.voEmail) then Some(VoEmailToEmail(claims.voEmail.value)) else None
  }

  /** The number as it would be stored: the phone claim, sanitised. */
  function ClaimedPhone(claims: Claims): Option<string> {
    if Truthy(claims.phone) then Some(SanitizePhoneNumber(claims.phone.value)) else None
  }

  /** `checkIfFirstNameShouldbeUpdated`: stored and claimed first name differ once falsy values are identified. */
  predicate FirstNameShouldBeUpdated(person: Person, claims: Claims)
    ensures FirstNameShouldBeUpdated(person, claims) <==> Normalized(person.firstName) != Normalized(claims.givenName)
  {
    !TestIfPropertyUpToDate(person.firstName, claims.givenName)
  }

  /** `checkIfFamilyNameShouldbeUpdated`: stored and claimed family name differ once falsy values are identified. */
  predicate FamilyNameShouldBeUpdated(person: Person, claims: Claims)
    ensures FamilyNameShouldBeUpdated(person, claims) <==> Normalized(person.familyName) != Normalized(claims.familyName)
  {
    !TestIfPropertyUpToDate(person.familyName, claims.familyName)
  }

  /** `checkIfEmailShouldBeUpdated`: the stored address (without "mailto:") differs from the claimed one (before its ':'). */
  predicate EmailShouldBeUpdated(person: Person, claims: Claims)
    ensures EmailShouldBeUpdated(person, claims) <==> Normalized(StoredEmail(person)) != Normalized(ClaimedEmail(claims))
  {
    !TestIfPropertyUpToDate(StoredEmail(person), ClaimedEmail(claims))
  }

  /** `checkIfPhoneShouldbeUpdated` as written: the stored number against the raw, unsanitised claim. */
  predicate PhoneShouldBeUpdatedAsWritten(person: Person, claims: Claims)
    ensures PhoneShouldBeUpdatedAsWritten(person, claims) <==> Normalized(StoredPhone(person)) != Normalized(claims.phone)
  {
    !TestIfPropertyUpToDate(StoredPhone(person), claims.phone)
  }

  /** The phone check against the sanitised claim, which is what the refresh stores. */
  predicate PhoneShouldBeUpdated(person: Person, claims: Claims)
    ensures PhoneShouldBeUpdated(person, claims) <==> Normalized(StoredPhone(person)) != Normalized(ClaimedPhone(claims))
  {
    !TestIfPropertyUpToDate(StoredPhone(person), ClaimedPhone(claims))
  }

  /** The refresh condition as written: it fires as soon as one field is up to date, and only then. */
  predicate RefreshFiresAsWritten(person: Person, claims: Claims)
    ensures RefreshFiresAsWritten(person, claims) <==>
      !FirstNameShouldBeUpdated(person, claims) || !FamilyNameShouldBeUpdated(person, claims) ||
      !EmailShouldBeUpdated(person, claims) || !PhoneShouldBeUpdatedAsWritten(person, claims)
  {
    !(FirstNameShouldBeUpdated(person, claims) &&
      FamilyNameShouldBeUpdated(person, claims) &&
      EmailShouldBeUpdated(person, claims) &&
      PhoneShouldBeUpdatedAsWritten(person, claims))
  }

  /** The refresh condition the model uses: some field is stale. */
  predicate RefreshNeeded(person: Person, claims: Claims) {
    FirstNameShouldBeUpdated(person, claims) ||
    FamilyNameShouldBeUpdated(person, claims) ||
    EmailShouldBeUpdated(person, claims) ||
    PhoneShouldBeUpdated(person, claims)
  }

  /** `Some(v)` when the claim is truthy, None otherwise: what a conditional insert stores. */
  function Present(v: Option<string>): Option<string> {
    if Truthy(v) then v else None
  }

  /** The person with names, mailbox and phone replaced by what the claims say (absent when the claim is falsy). */
  function WithClaimedData(person: Person, claims: Claims): Person {
    person.(
      firstName := Present(claims.givenName),
      familyName := Present(claims.familyName),
      email := if Truthy(claims.voEmail) then Some(EmailToUri(VoEmailToEmail(claims.voEmail.value))) else None,
      phone := if Truthy(claims.phone) then Some(PhoneToUri(SanitizePhoneNumber(claims.phone.value))) else None)
  }

  /**
   * After a refresh from the claims, no field of the person is stale with respect to those
   * claims, the phone being compared after sanitising. Compared with the raw claim instead,
   * the phone stays stale exactly when the claim holds a separator.
   */
  lemma RefreshedPersonUpToDate(person: Person, claims: Claims)
    ensures !RefreshNeeded(WithClaimedData(person, claims), claims)
    ensures PhoneShouldBeUpdatedAsWritten(WithClaimedData(person, claims), claims) <==>
      Truthy(claims.phone) && HasPhoneSeparator(claims.phone.value)
  {
    var p := WithClaimedData(person, claims);
    if Truthy(claims.voEmail) {
      EmailUriRoundTrip(VoEmailToEmail(claims.voEmail.value));
      assert StoredEmail(p) == ClaimedEmail(claims);
    }
    if Truthy(claims.phone) {
      PhoneUriRoundTrip(SanitizePhoneNumber(claims.phone.value));
      assert StoredPhone(p) == ClaimedPhone(claims);
      if HasPhoneSeparator(claims.phone.value) {
        assert |SanitizePhoneNumber(claims.phone.value)| != |claims.phone.value|;
      }
    }
  }

  /**
   * The as-written refresh condition skips a person whose four fields are all stale, which
   * is exactly when a refresh is most needed.
   */
  lemma AllFieldsStaleSkipsRefreshAsWritten()
    ensures exists person: Person, claims: Claims ::
      RefreshNeeded(person, claims) && !RefreshFiresAsWritten(person, claims)
  {
    var person := Person("p1", "i1", "u1", Some("Ann"), Some("Peeters"), Some(EmailToUri("a")), Some(PhoneToUri("1")));
    var claims := Claims("u1", "v1", "s1", Some("Anna"), Some("Janssens"), Some("b"), Some("2"), None, None, None);
    EmailUriRoundTrip("a");
    PhoneUriRoundTrip("1");
    assert Split("b", ':') == ["b"];
    assert SanitizePhoneNumber("2") == "2";
    assert FirstNameShouldBeUpdated(person, claims);
    assert FamilyNameShouldBeUpdated(person, claims);
    assert EmailShouldBeUpdated(person, claims);
    assert PhoneShouldBeUpdatedAsWritten(person, claims);
    assert PhoneShouldBeUpdated(person, claims);
    assert RefreshNeeded(person, claims) && !RefreshFiresAsWritten(person, claims);
  }

  /**
   * With the as-written phone check, a number whose claim contains a separator stays stale
   * forever: right after the refresh has stored it, the check still asks for a refresh.
   */
  lemma PhoneStaleAfterRefreshAsWritten(person: Person, claims: Claims)
    requires Truthy(claims.phone) && HasPhoneSeparator(claims.phone.value)
    ensures PhoneShouldBeUpdatedAsWritten(WithClaimedData(person, claims), claims)
    ensures !PhoneShouldBeUpdated(WithClaimedData(person, claims), claims)
  {
    var p := WithClaimedData(person, claims);
    PhoneUriRoundTrip(SanitizePhoneNumber(claims.phone.value));
    assert StoredPhone(p) == Some(SanitizePhoneNumber(claims.phone.value));
    assert |SanitizePhoneNumber(claims.phone.value)| != |claims.phone.value|;
  }

  // ---------------------------------------------------------------------------------------
  // Persons in the store

  /** The person record `insertNewUser` writes. */
  function NewPerson(personId: string, identifierId: string, claims: Claims): Person {
    WithClaimedData(Person(personId, IdentifierUri(identifierId), claims.userId, None, None, None, None), claims)
  }

  /** Some person in `persons` has this identifier notation. */
  ghost predicate NotationIn(persons: map<string, Person>, notation: string) {
    exists p :: p in persons && persons[p].notation == notation
  }

  ghost predicate NotationKnown(store: GraphStore, notation: string)
    reads store
  {
    NotationIn(store.persons, notation)
  }

  /**
   * `insertNewUser`: a person identified by the user-id claim, member of the default group,
   * with name, mailbox and phone only for the claims that are present.
   */
  method InsertNewUser(store: GraphStore, claims: Claims, defaultGroupUri: string, personId: string, identifierId: string)
    returns (personUri: string, newPersonId: string)
    requires PersonUri(personId) !in store.persons
    modifies store`persons, store`groupMembers
    ensures personUri == PersonUri(personId) && newPersonId == personId
    ensures store.persons == old(store.persons)[personUri := NewPerson(personId, identifierId, claims)]
    ensures store.groupMembers == old(store.groupMembers) + {(defaultGroupUri, personUri)}
  {
    personUri, newPersonId := PersonUri(personId), personId;
    store.persons := store.persons[personUri := NewPerson(personId, identifierId, claims)];
    store.groupMembers := store.groupMembers + {(defaultGroupUri, personUri)};
  }

  /**
   * `updateUserData`: replaces the four fields by what the claims say; a person that is
   * not in the store is left alone (the update's WHERE clause requires it).
   */
  method UpdateUserData(store: GraphStore, personUri: string, claims: Claims)
    modifies store`persons
    ensures personUri in old(store.persons) ==>
      store.persons == old(store.persons)[personUri := WithClaimedData(old(store.persons)[personUri], claims)]
    ensures personUri !in old(store.persons) ==> store.persons == old(store.persons)
  {
    if personUri in store.persons {
      store.persons := store.persons[personUri := WithClaimedData(store.persons[personUri], claims)];
    }
  }

  /**
   * `ensureUser`: the person whose identifier notation is the user-id claim. A known person
   * is returned with its own id, no person is inserted, and its data is refreshed when some
   * field is stale; an unknown one is inserted. Afterwards no field is stale.
   */
  method EnsureUser(store: GraphStore, claims: Claims, defaultGroupUri: string, personId: string, identifierId: string)
    returns (personUri: string, foundPersonId: string)
    requires store.PersonsUnique()
    requires PersonUri(personId) !in store.persons
    modifies store`persons, store`groupMembers
    ensures store.PersonsUnique()
    ensures personUri in store.persons
    ensures store.persons[personUri].notation == claims.userId && store.persons[personUri].id == foundPersonId
    ensures !RefreshNeeded(store.persons[personUri], claims)
    ensures old(NotationKnown(store, claims.userId)) ==>
      && personUri in old(store.persons)
      && foundPersonId == old(store.persons)[personUri].id
      && store.persons[personUri] ==
           (if RefreshNeeded(old(store.persons)[personUri], claims)
            then WithClaimedData(old(store.persons)[personUri], claims)
            else old(store.persons)[personUri])
      && store.persons.Keys == old(store.persons).Keys
      && (forall p :: p in store.persons && p != personUri ==> store.persons[p] == old(store.persons)[p])
      && store.groupMembers == old(store.groupMembers)
    ensures !old(NotationKnown(store, claims.userId)) ==>
      && personUri == PersonUri(personId) && foundPersonId == personId
      && store.persons == old(store.persons)[personUri := NewPerson(personId, identifierId, claims)]
      && store.groupMembers == old(store.groupMembers) + {(defaultGroupUri, personUri)}
  {
    if p :| p in store.persons && store.persons[p].notation == claims.userId {
      personUri, foundPersonId := p, store.persons[p].id;
      if RefreshNeeded(store.persons[p], claims) {
        RefreshedPersonUpToDate(store.persons[p], claims);
        UpdateUserData(store, personUri, claims);
      }
    } else {
      personUri, foundPersonId := InsertNewUser(store, claims, defaultGroupUri, personId, identifierId);
      RefreshedPersonUpToDate(Person(personId, IdentifierUri(identifierId), claims.userId, None, None, None, None), claims);
    }
  }

  // ---------------------------------------------------------------------------------------
  // Group selection

  datatype GroupRef = GroupRef(groupUri: string, groupId: string, groupName: string)

  /** The role claim is present and non-empty, or logging in without one is allowed. */
  predicate RoleClaimAccepted(roles: Option<seq<string>>, allowNoRoleClaim: bool) {
    (roles.Some? && |roles.value| > 0) || allowNoRoleClaim
  }

  /** `group` is a group with the account's holder as foaf:member, with that group's uuid and name. */
  ghost predicate GroupOfAccount(store: GraphStore, accountUri: string, group: GroupRef)
    reads store
  {
    && accountUri in store.accounts
    && group.groupUri in store.groups
    && (group.groupUri, store.accounts[accountUri].person) in store.groupMembers
    && group.groupId == store.groups[group.groupUri].id
    && group.groupName == store.groups[group.groupUri].name
  }

  /**
   * `selectUserGroup`: all-null (None) when the role claim is missing or empty and logging in
   * without one is not allowed; otherwise some group of the account's holder, or all-null
   * when the holder is in no group.
   */
  method SelectUserGroup(store: GraphStore, accountUri: string, roles: Option<seq<string>>, allowNoRoleClaim: bool)
    returns (group: Option<GroupRef>)
    ensures group.Some? ==> RoleClaimAccepted(roles, allowNoRoleClaim) && GroupOfAccount(store, accountUri, group.value)
    ensures group.None? ==> !RoleClaimAccepted(roles, allowNoRoleClaim) || forall g :: !GroupOfAccount(store, accountUri, g)
  {
    group := None;
    if RoleClaimAccepted(roles, allowNoRoleClaim) && accountUri in store.accounts {
      var holder := store.accounts[accountUri].person;
      if g :| g in store.groups && (g, holder) in store.groupMembers {
        group := Some(GroupRef(g, store.groups[g].id, store.groups[g].name));
      } else {
        assert forall r :: !GroupOfAccount(store, accountUri, r);
      }
    }
  }

  // ---------------------------------------------------------------------------------------
  // Organizations of a person

  /** The person is org:memberOf some organization with this OVO code. */
  ghost predicate LinkedTo(store: GraphStore, personUri: string, ovoCode: string)
    reads store
  {
    LinkedIn(store.organizations, store.memberOf, personUri, ovoCode)
  }

  ghost predicate LinkedIn(orgs: map<string, Organization>, links: set<(string, string)>, personUri: string, ovoCode: string) {
    exists o :: o in orgs && orgs[o].identifier == ovoCode && (personUri, o) in links
  }

  /** The claims processed so far each carry a code, and the person is linked to an organization with it. */
  ghost predicate LinkedToAll(orgs: map<string, Organization>, links: set<(string, string)>, personUri: string,
                              linkable: bool, roles: seq<string>, processed: nat)
    requires processed <= |roles|
  {
    forall j :: 0 <= j < processed ==>
      && Organizations.OvoCodeFromString(roles[j]).Some?
      && (linkable ==> LinkedIn(orgs, links, personUri, Organizations.OvoCodeFromString(roles[j]).value))
  }

  /** Links only grow and organizations keep their codes, so what was linked stays linked. */
  lemma LinkedToAllKept(orgs0: map<string, Organization>, links0: set<(string, string)>,
                        orgs1: map<string, Organization>, links1: set<(string, string)>,
                        personUri: string, linkable: bool, roles: seq<string>, processed: nat)
    requires processed <= |roles|
    requires LinkedToAll(orgs0, links0, personUri, linkable, roles, processed)
    requires OrganizationsKept(orgs0, orgs1) && links0 <= links1
    ensures LinkedToAll(orgs1, links1, personUri, linkable, roles, processed)
  {
    forall j | 0 <= j < processed && linkable
      ensures LinkedIn(orgs1, links1, personUri, Organizations.OvoCodeFromString(roles[j]).value)
    {
      assert LinkedIn(orgs0, links0, personUri, Organizations.OvoCodeFromString(roles[j]).value);
      var o :| o in orgs0 && orgs0[o].identifier == Organizations.OvoCodeFromString(roles[j]).value && (personUri, o) in links0;
      assert o in orgs1 && (personUri, o) in links1;
    }
  }

  /** The next claim carries a code the person is linked with: one more claim is linked. */
  lemma LinkedToAllStep(orgs: map<string, Organization>, links: set<(string, string)>,
                        personUri: string, linkable: bool, roles: seq<string>, processed: nat)
    requires processed < |roles|
    requires LinkedToAll(orgs, links, personUri, linkable, roles, processed)
    requires Organizations.OvoCodeFromString(roles[processed]).Some?
    requires linkable ==> LinkedIn(orgs, links, personUri, Organizations.OvoCodeFromString(roles[processed]).value)
    ensures LinkedToAll(orgs, links, personUri, linkable, roles, processed + 1)
  {
  }

  /** `addUserToOrganization`: the org:memberOf link, inserted only when both resources exist. */
  method AddUserToOrganization(store: GraphStore, personUri: string, organizationUri: string)
    modifies store`memberOf
    ensures personUri in store.persons && organizationUri in store.organizations ==>
      store.memberOf == old(store.memberOf) + {(personUri, organizationUri)}
    ensures !(personUri in store.persons && organizationUri in store.organizations) ==>
      store.memberOf == old(store.memberOf)
  {
    if personUri in store.persons && organizationUri in store.organizations {
      store.memberOf := store.memberOf + {(personUri, organizationUri)};
    }
  }

  /** What `ensureOrganisationForUser` comes back with. */
  datatype LinkOutcome =
    | Linked(organizationUri: Option<string>)  // the URI when the link existed; nothing when it was just made
    | MissingOvoCode                            // a null code makes the query builder throw

  /** The organizations only grow: every stored one keeps its properties. */
  ghost predicate OrganizationsKept(before: map<string, Organization>, after: map<string, Organization>) {
    forall o :: o in before ==> o in after && after[o] == before[o]
  }

  /**
   * From the state `orgs0`, `links0` to `orgs`, `links` the only changes are new organizations
   * carrying one of `codes` and new links of `personUri` to organizations carrying one of them.
   */
  ghost predicate GrowsOnlyFor(orgs0: map<string, Organization>, links0: set<(string, string)>,
                               orgs: map<string, Organization>, links: set<(string, string)>,
                               personUri: string, codes: set<string>) {
    && OrganizationsKept(orgs0, orgs)
    && links0 <= links
    && (forall o :: o in orgs && o !in orgs0 ==> orgs[o].identifier in codes)
    && (forall l :: l in links && l !in links0 ==> l.0 == personUri && l.1 in orgs && orgs[l.1].identifier in codes)
  }

  /** Two steps that each grow only for some codes together grow only for all of them. */
  lemma GrowsOnlyForTrans(orgs0: map<string, Organization>, links0: set<(string, string)>,
                          orgs1: map<string, Organization>, links1: set<(string, string)>,
                          orgs2: map<string, Organization>, links2: set<(string, string)>,
                          personUri: string, codes1: set<string>, codes2: set<string>, codes: set<string>)
    requires GrowsOnlyFor(orgs0, links0, orgs1, links1, personUri, codes1)
    requires GrowsOnlyFor(orgs1, links1, orgs2, links2, personUri, codes2)
    requires codes1 + codes2 <= codes
    ensures GrowsOnlyFor(orgs0, links0, orgs2, links2, personUri, codes)
  {
  }

  /** One more role claim processed: the growth so far stays within the codes of the claims processed. */
  lemma GrowsOnlyForStep(orgs0: map<string, Organization>, links0: set<(string, string)>,
                         orgs1: map<string, Organization>, links1: set<(string, string)>,
                         orgs2: map<string, Organization>, links2: set<(string, string)>,
                         personUri: string, roles: seq<string>, processed: nat)
    requires processed < |roles| && Organizations.OvoCodeFromString(roles[processed]).Some?
    requires GrowsOnlyFor(orgs0, links0, orgs1, links1, personUri, CodesOf(roles[..processed]))
    requires GrowsOnlyFor(orgs1, links1, orgs2, links2, personUri, {Organizations.OvoCodeFromString(roles[processed]).value})
    ensures GrowsOnlyFor(orgs0, links0, orgs2, links2, personUri, CodesOf(roles[..processed + 1]))
  {
    assert roles[..processed + 1] == roles[..processed] + [roles[processed]];
    GrowsOnlyForTrans(orgs0, links0, orgs1, links1, orgs2, links2, personUri,
                      CodesOf(roles[..processed]), {Organizations.OvoCodeFromString(roles[processed]).value},
                      CodesOf(roles[..processed + 1]));
  }

  /** Growth for the codes of no claim at all is no change. */
  lemma NothingProcessed(orgs0: map<string, Organization>, links0: set<(string, string)>,
                         orgs: map<string, Organization>, links: set<(string, string)>,
                         personUri: string, roles: seq<string>)
    requires GrowsOnlyFor(orgs0, links0, orgs, links, personUri, CodesOf(roles[..0]))
    ensures orgs == orgs0 && links == links0
  {
    assert CodesOf(roles[..0]) == {};
  }

  /** The OVO codes the role claims in `roles` carry. */
  ghost function CodesOf(roles: seq<string>): set<string> {
    set r | r in roles && Organizations.OvoCodeFromString(r).Some? :: Organizations.OvoCodeFromString(r).value
  }

  /**
   * `ensureOrganisationForUser`: when the person is already linked to an organization with
   * this code its URI is returned and nothing changes; otherwise the organization is ensured
   * and the link added (when the person exists).
   */
  method EnsureOrganisationForUser(store: GraphStore, personUri: string, ovoCode: Option<string>, organizationId: string)
    returns (outcome: LinkOutcome)
    requires Organizations.UrisCarryCodes(store)
    modifies store`organizations, store`memberOf
    ensures Organizations.UrisCarryCodes(store)
    ensures old(store.OrganizationCodesUnique()) ==> store.OrganizationCodesUnique()
    ensures GrowsOnlyFor(old(store.organizations), old(store.memberOf), store.organizations, store.memberOf,
                         personUri, if ovoCode.Some? then {ovoCode.value} else {})
    ensures outcome.MissingOvoCode? <==> ovoCode.None?
    ensures outcome.MissingOvoCode? ==> unchanged(store)
    ensures ovoCode.Some? && personUri in store.persons ==> LinkedTo(store, personUri, ovoCode.value)
    ensures ovoCode.Some? && old(LinkedTo(store, personUri, ovoCode.value)) ==>
      && outcome.Linked? && outcome.organizationUri.Some? && unchanged(store)
      && var o := outcome.organizationUri.value;
      o in store.organizations && store.organizations[o].identifier == ovoCode.value && (personUri, o) in store.memberOf
    ensures ovoCode.Some? && !old(LinkedTo(store, personUri, ovoCode.value)) ==>
      && outcome == Linked(None)
      && exists o :: o in store.organizations && store.organizations[o].identifier == ovoCode.value &&
           store.memberOf <= old(store.memberOf) + {(personUri, o)} &&
           store.organizations.Keys <= old(store.organizations).Keys + {o}
  {
    if ovoCode.None? {
      return MissingOvoCode;
    }
    var code := ovoCode.value;
    if o :| o in store.organizations && store.organizations[o].identifier == code && (personUri, o) in store.memberOf {
      outcome := Linked(Some(o));
    } else {
      var organizationUri := Organizations.EnsureOrganization(store, code, organizationId);
      AddUserToOrganization(store, personUri, organizationUri);
      outcome := Linked(None);
      assert store.organizations.Keys <= old(store.organizations).Keys + {organizationUri};
    }
  }

  /**
   * `ensureOrganisationsForUser`: the role claims in order, each linking the person to the
   * organization whose code it carries. `processed` is how many claims were handled: all of
   * them, or up to the first one without an OVO code, where the call fails. An absent role
   * claim changes nothing, and neither does a call that handles no claim.
   */
  method EnsureOrganisationsForUser(store: GraphStore, personUri: string, claims: Claims, organizationIds: seq<string>)
    returns (processed: nat)
    requires Organizations.UrisCarryCodes(store)
    requires claims.roles.Some? ==> |organizationIds| >= |claims.roles.value|
    modifies store`organizations, store`memberOf
    ensures Organizations.UrisCarryCodes(store)
    ensures old(store.OrganizationCodesUnique()) ==> store.OrganizationCodesUnique()
    ensures claims.roles.None? ==> processed == 0 && unchanged(store)
    ensures claims.roles.Some? ==> processed <= |claims.roles.value|
    ensures claims.roles.Some? ==>
      GrowsOnlyFor(old(store.organizations), old(store.memberOf), store.organizations, store.memberOf,
                   personUri, CodesOf(claims.roles.value[..processed]))
    ensures processed == 0 ==> store.organizations == old(store.organizations) && store.memberOf == old(store.memberOf)
    ensures claims.roles.Some? && processed < |claims.roles.value| ==>
      Organizations.OvoCodeFromString(claims.roles.value[processed]).None?
    ensures claims.roles.Some? ==>
      LinkedToAll(store.organizations, store.memberOf, personUri, personUri in store.persons, claims.roles.value, processed)
  {
    processed := 0;
    if claims.roles.Some? {
      processed := EnsureOrganisationsForRoles(store, personUri, claims.roles.value, organizationIds);
      if processed == 0 {
        NothingProcessed(old(store.organizations), old(store.memberOf), store.organizations, store.memberOf,
                         personUri, claims.roles.value);
      }
    }
  }

  /** The `for` loop of `ensureOrganisationsForUser` over the role claims `roles`. */
  method EnsureOrganisationsForRoles(store: GraphStore, personUri: string, roles: seq<string>, organizationIds: seq<string>)
    returns (processed: nat)
    requires Organizations.UrisCarryCodes(store)
    requires |organizationIds| >= |roles|
    modifies store`organizations, store`memberOf
    ensures Organizations.UrisCarryCodes(store)
    ensures old(store.OrganizationCodesUnique()) ==> store.OrganizationCodesUnique()
    ensures processed <= |roles|
    ensures GrowsOnlyFor(old(store.organizations), old(store.memberOf), store.organizations, store.memberOf,
                         personUri, CodesOf(roles[..processed]))
    ensures processed < |roles| ==> Organizations.OvoCodeFromString(roles[processed]).None?
    ensures LinkedToAll(store.organizations, store.memberOf, personUri, personUri in store.persons, roles, processed)
  {
    processed := 0;
    while processed < |roles|
      invariant processed <= |roles|
      invariant Organizations.UrisCarryCodes(store)
      invariant old(store.OrganizationCodesUnique()) ==> store.OrganizationCodesUnique()
      invariant GrowsOnlyFor(old(store.organizations), old(store.memberOf), store.organizations, store.memberOf,
                             personUri, CodesOf(roles[..processed]))
      invariant LinkedToAll(store.organizations, store.memberOf, personUri, personUri in store.persons, roles, processed)
    {
      var ovoCode := Organizations.OvoCodeFromString(roles[processed]);
      ghost var before := store.organizations;
      ghost var linksBefore := store.memberOf;
      var outcome := EnsureOrganisationForUser(store, personUri, ovoCode, organizationIds[processed]);
      if outcome.MissingOvoCode? {
        break;
      }
      LinkedToAllKept(before, linksBefore, store.organizations, store.memberOf, personUri, personUri in store.persons, roles, processed);
      LinkedToAllStep(store.organizations, store.memberOf, personUri, personUri in store.persons, roles, processed);
      GrowsOnlyForStep(old(store.organizations), old(store.memberOf), before, linksBefore,
                       store.organizations, store.memberOf, personUri, roles, processed);
      processed := processed + 1;
    }
  }


}
