/**
 * lib/session.js: the login-flow variants of person and account lookup (names only, accounts
 * keyed by dcterms:identifier), and the session resources a session URI is bound to.
 */
module Sessions {
  import opened Wrappers
  import opened Text
  import opened Store
  import opened Config
  import Users

  // Persons and identifiers are minted under the same bases as in lib/user.js (Users.PersonUri, Users.IdentifierUri).
  const AccountResourceBaseUri := Users.ResourceBaseUri + "id/account/"
  const ServiceHomepage := "https://github.com/lblod/acmidm-login-service"

  function AccountUri(id: string): string {
    AccountResourceBaseUri + id
  }

  // ---------------------------------------------------------------------------------------
  // Persons

  /** The person with first and family name replaced by the claims (absent when the claim is falsy). */
  function WithClaimedNames(person: Person, claims: Claims): Person {
    person.(firstName := Users.Present(claims.givenName), familyName := Users.Present(claims.familyName))
  }

  /** The person record this file's `insertNewUser` writes: identifier and names, no mailbox or phone. */
  function NewPerson(personId: string, identifierId: string, claims: Claims): Person {
    WithClaimedNames(Person(personId, Users.IdentifierUri(identifierId), claims.userId, None, None, None, None), claims)
  }

  /** `updateUserNames`: the names of a stored person replaced by what the claims say. */
  method UpdateUserNames(store: GraphStore, personUri: string, claims: Claims)
    modifies store`persons
    ensures personUri in old(store.persons) ==>
      store.persons == old(store.persons)[personUri := WithClaimedNames(old(store.persons)[personUri], claims)]
    ensures personUri !in old(store.persons) ==> store.persons == old(store.persons)
  {
    if personUri in store.persons {
      store.persons := store.persons[personUri := WithClaimedNames(store.persons[personUri], claims)];
    }
  }

  /** `insertNewUser`: a person identified by the user-id claim, in the default group, with the claimed names. */
  method InsertNewUser(store: GraphStore, claims: Claims, defaultGroupUri: string, personId: string, identifierId: string)
    returns (personUri: string, newPersonId: string)
    requires Users.PersonUri(personId) !in store.persons
    modifies store`persons, store`groupMembers
    ensures personUri == Users.PersonUri(personId) && newPersonId == personId
    ensures store.persons == old(store.persons)[personUri := NewPerson(personId, identifierId, claims)]
    ensures store.groupMembers == old(store.groupMembers) + {(defaultGroupUri, personUri)}
  {
    personUri, newPersonId := Users.PersonUri(personId), personId;
    store.persons := store.persons[personUri := NewPerson(personId, identifierId, claims)];
    store.groupMembers := store.groupMembers + {(defaultGroupUri, personUri)};
  }

  /**
   * `ensureUser`: the person whose identifier notation is the user-id claim. A known one keeps
   * its URI and uuid and gets the claimed names; an unknown one is inserted. Either way the
   * person ends up carrying the claimed names.
   */
  method EnsureUser(store: GraphStore, claims: Claims, defaultGroupUri: string, personId: string, identifierId: string)
    returns (personUri: string, foundPersonId: string)
    requires store.PersonsUnique()
    requires Users.PersonUri(personId) !in store.persons
    modifies store`persons, store`groupMembers
    ensures store.PersonsUnique()
    ensures personUri in store.persons
    ensures store.persons[personUri].notation == claims.userId && store.persons[personUri].id == foundPersonId
    ensures store.persons[personUri].firstName == Users.Present(claims.givenName)
    ensures store.persons[personUri].familyName == Users.Present(claims.familyName)
    ensures old(Users.NotationKnown(store, claims.userId)) ==>
      && personUri in old(store.persons)
      && store.persons == old(store.persons)[personUri := WithClaimedNames(old(store.persons)[personUri], claims)]
      && store.groupMembers == old(store.groupMembers)
    ensures !old(Users.NotationKnown(store, claims.userId)) ==>
      && personUri == Users.PersonUri(personId) && foundPersonId == personId
      && store.persons == old(store.persons)[personUri := NewPerson(personId, identifierId, claims)]
      && store.groupMembers == old(store.groupMembers) + {(defaultGroupUri, personUri)}
  {
    if p :| p in store.persons && store.persons[p].notation == claims.userId {
      personUri, foundPersonId := p, store.persons[p].id;
      UpdateUserNames(store, personUri, claims);
    } else {
      personUri, foundPersonId := InsertNewUser(store, claims, defaultGroupUri, personId, identifierId);
    }
  }

  // ---------------------------------------------------------------------------------------
  // Accounts

  /** The account this file's `insertNewAccountForUser` writes; the target-group fields only when their claims are truthy. */
  function NewAccount(personUri: string, claims: Claims, id: string, now: Instant): Account {
    Account(id, personUri, ServiceHomepage, None, Some(claims.accountId), now,
            Users.Present(claims.doelgroepCode), Users.Present(claims.doelgroepNaam))
  }

  /** `account` is an online account of the person with the claimed account id as dcterms:identifier. */
  predicate AccountWithIdentifier(store: GraphStore, personUri: string, accountId: string, account: string)
    reads store
  {
    account in store.accounts &&
    store.accounts[account].person == personUri &&
    store.accounts[account].identifier == Some(accountId)
  }

  /** Some account in `accounts` belongs to the person and carries `accountId` as identifier. */
  ghost predicate HasAccountIn(accounts: map<string, Account>, personUri: string, accountId: string) {
    exists a :: a in accounts && accounts[a].person == personUri && accounts[a].identifier == Some(accountId)
  }

  ghost predicate HasAccount(store: GraphStore, personUri: string, accountId: string)
    reads store
  {
    HasAccountIn(store.accounts, personUri, accountId)
  }

  /** `insertNewAccountForUser`: a fresh account of the person at the account base plus a new uuid. */
  method InsertNewAccountForUser(store: GraphStore, personUri: string, claims: Claims, id: string, now: Instant)
    returns (accountUri: string, accountId: string)
    requires AccountUri(id) !in store.accounts
    modifies store`accounts
    ensures accountUri == AccountUri(id) && accountId == id
    ensures store.accounts == old(store.accounts)[accountUri := NewAccount(personUri, claims, id, now)]
  {
    accountUri, accountId := AccountUri(id), id;
    store.accounts := store.accounts[accountUri := NewAccount(personUri, claims, id, now)];
  }

  /**
   * `ensureAccountForUser`: an account of the person whose identifier is the account-id claim;
   * an existing one is returned with its own uuid and nothing changes, otherwise one is
   * created. No person ends up with two accounts of one identifier.
   */
  method EnsureAccountForUser(store: GraphStore, personUri: string, claims: Claims, id: string, now: Instant)
    returns (accountUri: string, accountId: string)
    requires AccountUri(id) !in store.accounts
    modifies store`accounts
    ensures AccountWithIdentifier(store, personUri, claims.accountId, accountUri)
    ensures accountId == store.accounts[accountUri].id
    ensures old(HasAccount(store, personUri, claims.accountId)) ==> store.accounts == old(store.accounts)
    ensures !old(HasAccount(store, personUri, claims.accountId)) ==>
      accountUri == AccountUri(id) && accountId == id &&
      store.accounts == old(store.accounts)[accountUri := NewAccount(personUri, claims, id, now)]
    ensures old(store.AccountIdentifiersUnique()) ==> store.AccountIdentifiersUnique()
  {
    if a :| a in store.accounts && AccountWithIdentifier(store, personUri, claims.accountId, a) {
      accountUri, accountId := a, store.accounts[a].id;
    } else {
      accountUri, accountId := InsertNewAccountForUser(store, personUri, claims, id, now);
    }
  }

  /**
   * What `ensureUserAndAccount` does to persons, group members and accounts, from the first
   * three to the last three, returning `accountUri`. The person with the user-id notation gets
   * the claimed names, or is inserted in the default group when there is none; the account
   * of that person with the account-id claim is found, or inserted. Nothing else changes.
   */
  ghost predicate UserAndAccountEnsured(
    persons0: map<string, Person>, members0: set<(string, string)>, accounts0: map<string, Account>,
    persons: map<string, Person>, members: set<(string, string)>, accounts: map<string, Account>,
    claims: Claims, defaultGroupUri: string, personId: string, identifierId: string, accountId: string, now: Instant,
    accountUri: string)
  {
    && accountUri in accounts
    && var p := accounts[accountUri].person;
    && (if Users.NotationIn(persons0, claims.userId) then
          && p in persons0 && persons0[p].notation == claims.userId
          && persons == persons0[p := WithClaimedNames(persons0[p], claims)]
          && members == members0
        else
          && p == Users.PersonUri(personId)
          && persons == persons0[p := NewPerson(personId, identifierId, claims)]
          && members == members0 + {(defaultGroupUri, p)})
    && (if HasAccountIn(accounts0, p, claims.accountId) then
          && accounts == accounts0
          && accounts[accountUri].identifier == Some(claims.accountId)
        else
          && accountUri == AccountUri(accountId)
          && accounts == accounts0[accountUri := NewAccount(p, claims, accountId, now)])
  }

  /**
   * A person known before, with notations unique, is the holder of the ensured account, and
   * keeps every group membership.
   */
  lemma KnownPersonHoldsEnsuredAccount(
    persons0: map<string, Person>, members0: set<(string, string)>, accounts0: map<string, Account>,
    persons: map<string, Person>, members: set<(string, string)>, accounts: map<string, Account>,
    claims: Claims, defaultGroupUri: string, personId: string, identifierId: string, accountId: string, now: Instant,
    accountUri: string, personUri: string, groupUri: string)
    requires forall p, q :: p in persons0 && q in persons0 && persons0[p].notation == persons0[q].notation ==> p == q
    requires UserAndAccountEnsured(persons0, members0, accounts0, persons, members, accounts,
                                   claims, defaultGroupUri, personId, identifierId, accountId, now, accountUri)
    requires personUri in persons0 && persons0[personUri].notation == claims.userId
    requires (groupUri, personUri) in members0
    ensures accounts[accountUri].person == personUri
    ensures (groupUri, personUri) in members
  {
    assert Users.NotationIn(persons0, claims.userId);
  }

  /**
   * `ensureUserAndAccount`: the person of the claims and an account of that person carrying
   * the account-id claim. A person seen for the first time is in the default group.
   */
  method EnsureUserAndAccount(store: GraphStore, claims: Claims, defaultGroupUri: string,
                              personId: string, identifierId: string, accountId: string, now: Instant)
    returns (accountUri: string, foundAccountId: string)
    requires store.PersonsUnique()
    requires Users.PersonUri(personId) !in store.persons
    requires AccountUri(accountId) !in store.accounts
    modifies store`persons, store`groupMembers, store`accounts
    ensures store.PersonsUnique()
    ensures old(store.AccountIdentifiersUnique()) ==> store.AccountIdentifiersUnique()
    ensures accountUri in store.accounts && foundAccountId == store.accounts[accountUri].id
    ensures store.accounts[accountUri].identifier == Some(claims.accountId)
    ensures store.accounts[accountUri].person in store.persons
    ensures store.persons[store.accounts[accountUri].person].notation == claims.userId
    ensures !old(Users.NotationKnown(store, claims.userId)) ==>
      (defaultGroupUri, store.accounts[accountUri].person) in store.groupMembers
    ensures old(store.groupMembers) <= store.groupMembers
    ensures UserAndAccountEnsured(old(store.persons), old(store.groupMembers), old(store.accounts),
                                  store.persons, store.groupMembers, store.accounts,
                                  claims, defaultGroupUri, personId, identifierId, accountId, now, accountUri)
  {
    var personUri, personId' := EnsureUser(store, claims, defaultGroupUri, personId, identifierId);
    accountUri, foundAccountId := EnsureAccountForUser(store, personUri, claims, accountId, now);
  }

  // ---------------------------------------------------------------------------------------
  // Sessions

  /**
   * The sessions left after `removeOldSessions(handle)`. Its DELETE WHERE joins the handle's
   * session:account with every session of that account that has all of uuid, modified, a
   * role and a group: those sessions go, and with them the handle's own account link (the
   * handle's session is dropped as a whole here). When no session matches, nothing goes.
   */
  function WithoutSessionsOf(sessions: map<string, Session>, handle: string): (remaining: map<string, Session>)
    ensures forall s :: s in remaining ==> s in sessions && remaining[s] == sessions[s]
    ensures handle !in sessions ==> remaining == sessions
    ensures handle in sessions ==> forall s :: s in sessions && sessions[s].account != sessions[handle].account ==> s in remaining
    ensures handle in sessions ==> forall s :: s in remaining ==> sessions[s].account != sessions[handle].account || |sessions[s].roles| == 0
    ensures handle in sessions && |sessions[handle].roles| > 0 ==> handle !in remaining
  {
    if handle !in sessions then sessions
    else
      var account := sessions[handle].account;
      if exists s :: s in sessions && sessions[s].account == account && |sessions[s].roles| > 0 then
        map s | s in sessions && !(sessions[s].account == account && (|sessions[s].roles| > 0 || s == handle)) :: sessions[s]
      else sessions
  }

  /** `removeOldSessions`: every session of the account the handle is logged in with goes, the handle's own included. */
  method RemoveOldSessions(store: GraphStore, sessionUri: string)
    modifies store`sessions
    ensures store.sessions == WithoutSessionsOf(old(store.sessions), sessionUri)
    ensures old(store.SessionsHaveRoles()) ==> store.SessionsHaveRoles()
  {
    store.sessions := WithoutSessionsOf(store.sessions, sessionUri);
  }

  /** `removeCurrentSession`: the same removal; afterwards the handle no longer resolves to an account. */
  method RemoveCurrentSession(store: GraphStore, sessionUri: string)
    modifies store`sessions
    ensures store.sessions == WithoutSessionsOf(old(store.sessions), sessionUri)
    ensures old(sessionUri in store.sessions && |store.sessions[sessionUri].roles| > 0) ==>
      SelectAccountBySession(store, sessionUri).None?
  {
    RemoveOldSessions(store, sessionUri);
  }

  /**
   * `insertNewSessionForAccount`: the session URI bound to the account and group, with the
   * roles and a fresh uuid; the URI it returns is the one it was given. Once the account and
   * the group exist, the handle resolves to that account.
   */
  method InsertNewSessionForAccount(store: GraphStore, accountUri: string, sessionUri: string, groupUri: string,
                                    roles: seq<string>, sessionId: string, now: Instant)
    returns (boundUri: string, newSessionId: string)
    modifies store`sessions
    ensures boundUri == sessionUri && newSessionId == sessionId
    ensures store.sessions == old(store.sessions)[sessionUri := Session(sessionId, accountUri, groupUri, roles, now)]
    ensures old(store.SessionsHaveRoles()) && |roles| > 0 ==> store.SessionsHaveRoles()
    ensures accountUri in store.accounts && groupUri in store.groups ==>
      SelectAccountBySession(store, sessionUri) == Some(AccountRef(accountUri, store.accounts[accountUri].id))
  {
    boundUri, newSessionId := sessionUri, sessionId;
    store.sessions := store.sessions[sessionUri := Session(sessionId, accountUri, groupUri, roles, now)];
  }

  datatype AccountRef = AccountRef(accountUri: string, accountId: string)

  /**
   * `selectAccountBySession`: the account a session URI is bound to, with its uuid; null when
   * the URI holds no session or its account or group is not a stored one.
   */
  function SelectAccountBySession(store: GraphStore, sessionUri: string): (account: Option<AccountRef>)
    reads store
    ensures account.Some? <==>
      sessionUri in store.sessions &&
      store.sessions[sessionUri].account in store.accounts &&
      store.sessions[sessionUri].group in store.groups
    ensures account.Some? ==>
      account.value.accountUri == store.sessions[sessionUri].account &&
      account.value.accountId == store.accounts[account.value.accountUri].id
  {
    if sessionUri in store.sessions && store.sessions[sessionUri].account in store.accounts && store.sessions[sessionUri].group in store.groups
    then
      var account := store.sessions[sessionUri].account;
      Some(AccountRef(account, store.accounts[account].id))
    else None
  }

  /** What `selectCurrentSession` returns for a session it finds. */
  datatype SessionView = SessionView(
    sessionUri: string,
    sessionId: string,
    groupUri: string,
    groupId: string,
    groupName: string,
    roles: seq<string>)

  /** `session` is a session of the account with at least one role and a stored group. */
  predicate CurrentSessionOf(store: GraphStore, accountUri: string, session: string)
    reads store
  {
    session in store.sessions &&
    store.sessions[session].account == accountUri &&
    |store.sessions[session].roles| > 0 &&
    store.sessions[session].group in store.groups
  }

  /**
   * `selectCurrentSession`: some session of the account, with its group's uuid and name and
   * its roles as GROUP_CONCAT joins them with ',' and the service splits them again; null
   * when the account has no such session. Roles come back as stored unless one contains ','.
   */
  method SelectCurrentSession(store: GraphStore, accountUri: string) returns (view: Option<SessionView>)
    ensures view.None? <==> forall s :: !CurrentSessionOf(store, accountUri, s)
    ensures view.Some? ==>
      var s := view.value.sessionUri;
      && CurrentSessionOf(store, accountUri, s)
      && view.value.sessionId == store.sessions[s].id
      && view.value.groupUri == store.sessions[s].group
      && view.value.groupId == store.groups[view.value.groupUri].id
      && view.value.groupName == store.groups[view.value.groupUri].name
      && view.value.roles == Split(Join(store.sessions[s].roles, ','), ',')
      && |view.value.roles| >= 1
      && ((forall i :: 0 <= i < |store.sessions[s].roles| ==> ',' !in store.sessions[s].roles[i]) ==>
            view.value.roles == store.sessions[s].roles)
  {
    if s :| s in store.sessions && CurrentSessionOf(store, accountUri, s) {
      var session := store.sessions[s];
      var group := store.groups[session.group];
      var roles := Split(Join(session.roles, ','), ',');
      if forall i :: 0 <= i < |session.roles| ==> ',' !in session.roles[i] {
        SplitJoin(session.roles, ',');
      }
      view := Some(SessionView(s, session.id, session.group, group.id, group.name, roles));
    } else {
      view := None;
    }
  }

}
