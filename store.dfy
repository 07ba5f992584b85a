/**
 * The graph store the service reads and updates through SPARQL, reduced to the resources
 * it touches. Each resource kind is a map from the resource's URI to its properties; a
 * relation between two resources that carries no properties of its own is a set of pairs.
 * The named graphs the queries address are merged into this one store.
 */
module Store {
  import opened Wrappers

  /** A `dateTime` value; the current time is always passed in. */
  type Instant = int

  /** A foaf:Person with its adms:Identifier folded in (`identifier` is the identifier's URI, `notation` its skos:notation). */
  datatype Person = Person(
    id: string,
    identifier: string,
    notation: string,
    firstName: Option<string>,
    familyName: Option<string>,
    email: Option<string>,
    phone: Option<string>)

  /**
   * A foaf:OnlineAccount; `person` is the person whose foaf:account it is. lib/account.js
   * keys it by foaf:accountName, lib/session.js by dcterms:identifier.
   */
  datatype Account = Account(
    id: string,
    person: string,
    homepage: string,
    accountName: Option<string>,
    identifier: Option<string>,
    created: Instant,
    doelgroepCode: Option<string>,
    doelgroepNaam: Option<string>)

  /** An org:Organization, keyed by its OVO code (`identifier`), with an optional adms:status. */
  datatype Organization = Organization(id: string, identifier: string, status: Option<string>)

  /** An org:Membership of a person in a role, optionally within an organization. */
  datatype Membership = Membership(
    id: string,
    person: string,
    role: string,
    organization: Option<string>,
    status: string,
    created: Instant)

  /** A foaf:Group with its uuid and foaf:name (seeded outside this service). */
  datatype Group = Group(id: string, name: string)

  /** The session resource stored under the session URI the client presents. */
  datatype Session = Session(id: string, account: string, group: string, roles: seq<string>, modified: Instant)

  /** An ext:LoginActivity, prov:wasAssociatedWith `user`. */
  datatype LoginActivity = LoginActivity(id: string, user: string, startedAt: Instant)

  class GraphStore {
    var persons: map<string, Person>
    var groups: map<string, Group>
    /** (group, person): the group has the person as foaf:member. */
    var groupMembers: set<(string, string)>
    var accounts: map<string, Account>
    var organizations: map<string, Organization>
    /** (person, organization): the person is org:memberOf the organization. */
    var memberOf: set<(string, string)>
    var memberships: map<string, Membership>
    var sessions: map<string, Session>
    var loginActivities: map<string, LoginActivity>

    constructor ()
      ensures persons == map[] && groups == map[] && groupMembers == {}
      ensures accounts == map[] && organizations == map[] && memberOf == {}
      ensures memberships == map[] && sessions == map[] && loginActivities == map[]
    {
      persons, groups, groupMembers := map[], map[], {};
      accounts, organizations, memberOf := map[], map[], {};
      memberships, sessions, loginActivities := map[], map[], map[];
    }

    /** No two persons share an identifier notation. */
    ghost predicate PersonsUnique()
      reads this
    {
      forall p, q :: p in persons && q in persons && persons[p].notation == persons[q].notation ==> p == q
    }

    /** No person has two accounts with the same foaf:accountName. */
    ghost predicate AccountNamesUnique()
      reads this
    {
      forall a, b ::
        a in accounts && b in accounts && accounts[a].accountName.Some? &&
        accounts[a].person == accounts[b].person && accounts[a].accountName == accounts[b].accountName
        ==> a == b
    }

    /** No person has two accounts with the same dcterms:identifier. */
    ghost predicate AccountIdentifiersUnique()
      reads this
    {
      forall a, b ::
        a in accounts && b in accounts && accounts[a].identifier.Some? &&
        accounts[a].person == accounts[b].person && accounts[a].identifier == accounts[b].identifier
        ==> a == b
    }

    /** No two organizations share an OVO code. */
    ghost predicate OrganizationCodesUnique()
      reads this
    {
      forall o, p :: o in organizations && p in organizations && organizations[o].identifier == organizations[p].identifier ==> o == p
    }

    /** No two memberships share person, role and organization. */
    ghost predicate MembershipsUnique()
      reads this
    {
      forall m, n ::
        m in memberships && n in memberships &&
        memberships[m].person == memberships[n].person &&
        memberships[m].role == memberships[n].role &&
        memberships[m].organization == memberships[n].organization
        ==> m == n
    }

    /** Every stored session carries at least one role (the login flow always stores the group name). */
    ghost predicate SessionsHaveRoles()
      reads this
    {
      forall s :: s in sessions ==> |sessions[s].roles| > 0
    }
  }

}
