/**
 * app.js: the three session endpoints. POST /sessions logs in, DELETE /sessions/current logs
 * out and GET /sessions/current describes the current session. The session URI comes from
 * the request's session header. The outcome of the code exchange with the identity provider
 * is a parameter of the login. The uuids and the time a login mints are parameters too.
 */
module App {
  import opened Wrappers
  import opened Text
  import opened Store
  import opened Config
  import Users
  import Sessions
  import OpenId

  /** What a response carries: nothing, an error message, or a JSON:API session document. */
  datatype Body =
    | Empty
    | ErrorMessage(message: string)
    | CreatedSession(sessionId: string, roles: seq<string>, accountId: string, groupId: string, groupName: string)
    | CurrentSession(currentId: Option<string>, currentRoles: Option<seq<string>>, accountId: string,
                     currentGroupId: Option<string>, currentGroupName: Option<string>)

  /** Status code, whether the `mu-auth-allowed-groups: CLEAR` header is set, and the body. */
  datatype Response = Response(status: nat, clearAllowedGroups: bool, body: Body)

  /** The `error` helper of utils.js: a 400 answer with a message. */
  function BadRequest(message: string): Response {
    Response(400, false, ErrorMessage(message))
  }

  /** The uuids one login may mint. */
  datatype FreshIds = FreshIds(personId: string, identifierId: string, accountId: string, sessionId: string)

  /**
   * The roles a new session gets: each role claim cut at its first ':', then the group name.
   * A missing role claim counts as an empty list.
   */
  function SessionRoles(claims: Claims, groupName: string): (roles: seq<string>)
    ensures claims.roles.None? ==> roles == [groupName]
    ensures claims.roles.Some? ==> |roles| == |claims.roles.value| + 1
    ensures roles[|roles| - 1] == groupName
    ensures claims.roles.Some? ==> forall i :: 0 <= i < |claims.roles.value| ==>
      roles[i] <= claims.roles.value[i] && ':' !in roles[i] &&
      (|roles[i]| == |claims.roles.value[i]| || claims.roles.value[i][|roles[i]|] == ':')
  {
    var claimed := if claims.roles.Some? then claims.roles.value else [];
    seq(|claimed|, i requires 0 <= i < |claimed| => BeforeFirst(claimed[i], ':')) + [groupName]
  }

  /** The role name of a Kaleidos role claim, as the session stores it, is the claim prefix followed by the role the claim parser finds. */
  lemma SessionRoleOfKaleidosClaim(claim: string, role: string)
    requires ParseRoleFromClaim(Some(claim)) == Some(role)
    ensures BeforeFirst(claim, ':') == ClaimPrefix + role
  {
    var p := ClaimPrefix + role;
    assert p + ":" <= claim;
    assert forall i :: 0 <= i < |ClaimPrefix| ==> ClaimPrefix[i] != ':';
    assert forall i :: 0 <= i < |role| ==> IsWordChar(role[i]);
    assert forall i :: 0 <= i < |p| ==> p[i] != ':' by {
      forall i | 0 <= i < |p| ensures p[i] != ':' {
        if i < |ClaimPrefix| {
          assert p[i] == ClaimPrefix[i];
        } else {
          assert p[i] == role[i - |ClaimPrefix|];
        }
      }
    }
    var b := BeforeFirst(claim, ':');
    assert claim[|p|] == ':';
    assert b == claim[..|p|] == p;
  }

  /** Every stored group has a non-empty URI and uuid, as the groups seeded for the application do. */
  ghost predicate GroupsIdentified(store: GraphStore)
    reads store
  {
    forall g :: g in store.groups ==> g != "" && store.groups[g].id != ""
  }

  /** The person with this identifier notation is a foaf:member of some group in `groups`. */
  ghost predicate InSomeGroupIn(persons: map<string, Person>, groups: map<string, Group>, members: set<(string, string)>, userId: string) {
    exists p, g :: p in persons && persons[p].notation == userId && g in groups && (g, p) in members
  }

  ghost predicate InSomeGroup(store: GraphStore, userId: string)
    reads store
  {
    InSomeGroupIn(store.persons, store.groups, store.groupMembers, userId)
  }

  /**
   * After `ensureUserAndAccount`, the account's holder is in some group when the person was
   * in one before, or when the person is new and the default group exists.
   */
  lemma EnsuredAccountHasGroup(store: GraphStore, persons0: map<string, Person>, members0: set<(string, string)>,
                               accounts0: map<string, Account>, claims: Claims, defaultGroupUri: string, ids: FreshIds,
                               now: Instant, accountUri: string)
    requires forall p, q :: p in persons0 && q in persons0 && persons0[p].notation == persons0[q].notation ==> p == q
    requires Sessions.UserAndAccountEnsured(persons0, members0, accounts0, store.persons, store.groupMembers, store.accounts,
                                            claims, defaultGroupUri, ids.personId, ids.identifierId, ids.accountId, now, accountUri)
    requires InSomeGroupIn(persons0, store.groups, members0, claims.userId) ||
             (!Users.NotationIn(persons0, claims.userId) && defaultGroupUri in store.groups)
    ensures exists g :: Users.GroupOfAccount(store, accountUri, g)
  {
    if InSomeGroupIn(persons0, store.groups, members0, claims.userId) {
      var p, g :| p in persons0 && persons0[p].notation == claims.userId && g in store.groups && (g, p) in members0;
      Sessions.KnownPersonHoldsEnsuredAccount(persons0, members0, accounts0, store.persons, store.groupMembers, store.accounts,
                                              claims, defaultGroupUri, ids.personId, ids.identifierId, ids.accountId, now,
                                              accountUri, p, g);
      assert Users.GroupOfAccount(store, accountUri, Users.GroupRef(g, store.groups[g].id, store.groups[g].name));
    } else {
      var d := Users.GroupRef(defaultGroupUri, store.groups[defaultGroupUri].id, store.groups[defaultGroupUri].name);
      assert Users.GroupOfAccount(store, accountUri, d);
    }
  }

  /**
   * The last step of POST /sessions, for an ensured account: a group of the account's holder
   * is selected, and without one the answer is 403 and nothing changes. Otherwise the handle
   * is bound to the account, the group and the roles, and the answer is 201. When the role
   * claim is accepted, the groups are identified and the holder is in some group, the answer
   * is 201.
   */
  method BindSession(store: GraphStore, handle: string, accountUri: string, accountId: string, claims: Claims,
                     allowNoRoleClaim: bool, sessionId: string, now: Instant)
    returns (response: Response)
    requires accountUri in store.accounts && accountId == store.accounts[accountUri].id
    modifies store`sessions
    ensures old(store.SessionsHaveRoles()) ==> store.SessionsHaveRoles()
    ensures response.status == 201 || response.status == 403
    ensures response.status == 403 ==> response == Response(403, true, Empty) && unchanged(store)
    ensures response.status == 201 ==>
      && handle in store.sessions
      && var session := store.sessions[handle];
      && session.account == accountUri
      && Users.RoleClaimAccepted(claims.roles, allowNoRoleClaim)
      && response.clearAllowedGroups && response.body.CreatedSession?
      && store.sessions == old(store.sessions)[handle := session]
      && session.id == sessionId && response.body.sessionId == sessionId
      && session.roles == response.body.roles == SessionRoles(claims, response.body.groupName)
      && response.body.accountId == accountId
      && Users.GroupOfAccount(store, accountUri, Users.GroupRef(session.group, response.body.groupId, response.body.groupName))
      && Sessions.SelectAccountBySession(store, handle) == Some(Sessions.AccountRef(accountUri, accountId))
    ensures (Users.RoleClaimAccepted(claims.roles, allowNoRoleClaim) && old(GroupsIdentified(store)) &&
             old(exists g :: Users.GroupOfAccount(store, accountUri, g))) ==>
      response.status == 201
  {
    ghost var holderGroup: Option<Users.GroupRef> := None;
    if exists g :: Users.GroupOfAccount(store, accountUri, g) {
      ghost var g :| Users.GroupOfAccount(store, accountUri, g);
      holderGroup := Some(g);
    }
    var group := Users.SelectUserGroup(store, accountUri, claims.roles, allowNoRoleClaim);
    if group.None? || group.value.groupUri == "" || group.value.groupId == "" {
      // a group of the holder before the lookup is one after it
      assert holderGroup.Some? ==> Users.GroupOfAccount(store, accountUri, holderGroup.value);
      return Response(403, true, Empty);
    }
    var roles := SessionRoles(claims, group.value.groupName);
    var boundUri, newSessionId := Sessions.InsertNewSessionForAccount(store, accountUri, handle, group.value.groupUri, roles, sessionId, now);
    response := Response(201, true, CreatedSession(newSessionId, roles, accountId, group.value.groupId, group.value.groupName));
  }

  /**
   * POST /sessions past the code exchange, for the handle and the claims it returned. The
   * sessions of the account the handle was logged in with are removed, and the person and
   * the account are ensured; persons, group members and accounts change exactly as
   * `ensureUserAndAccount` says. Then the session is bound as `BindSession` states.
   * A login whose role claim is accepted succeeds when the person already is in a group, or
   * when it is the person's first login and the default group exists.
   */
  method EstablishSession(store: GraphStore, handle: string, claims: Claims, allowNoRoleClaim: bool,
                          defaultGroupUri: string, ids: FreshIds, now: Instant)
    returns (response: Response)
    requires store.PersonsUnique()
    requires Users.PersonUri(ids.personId) !in store.persons
    requires Sessions.AccountUri(ids.accountId) !in store.accounts
    modifies store`persons, store`groupMembers, store`accounts, store`sessions
    ensures store.PersonsUnique()
    ensures old(store.AccountIdentifiersUnique()) ==> store.AccountIdentifiersUnique()
    ensures old(store.SessionsHaveRoles()) ==> store.SessionsHaveRoles()
    ensures response.status == 201 || response.status == 403
    ensures exists a :: Sessions.UserAndAccountEnsured(old(store.persons), old(store.groupMembers), old(store.accounts),
                                                        store.persons, store.groupMembers, store.accounts, claims,
                                                        defaultGroupUri, ids.personId, ids.identifierId, ids.accountId, now, a)
    ensures response.status == 403 ==>
      response == Response(403, true, Empty) && store.sessions == Sessions.WithoutSessionsOf(old(store.sessions), handle)
    ensures response.status == 201 ==>
      && handle in store.sessions
      && var session := store.sessions[handle];
      && Users.RoleClaimAccepted(claims.roles, allowNoRoleClaim)
      && response.clearAllowedGroups && response.body.CreatedSession?
      && store.sessions == Sessions.WithoutSessionsOf(old(store.sessions), handle)[handle := session]
      && Sessions.UserAndAccountEnsured(old(store.persons), old(store.groupMembers), old(store.accounts),
                                        store.persons, store.groupMembers, store.accounts, claims,
                                        defaultGroupUri, ids.personId, ids.identifierId, ids.accountId, now, session.account)
      && session.id == ids.sessionId && response.body.sessionId == ids.sessionId
      && session.roles == response.body.roles == SessionRoles(claims, response.body.groupName)
      && session.account in store.accounts
      && store.accounts[session.account].identifier == Some(claims.accountId)
      && store.accounts[session.account].person in store.persons
      && store.persons[store.accounts[session.account].person].notation == claims.userId
      && response.body.accountId == store.accounts[session.account].id
      && Users.GroupOfAccount(store, session.account, Users.GroupRef(session.group, response.body.groupId, response.body.groupName))
      && Sessions.SelectAccountBySession(store, handle) == Some(Sessions.AccountRef(session.account, response.body.accountId))
    ensures (Users.RoleClaimAccepted(claims.roles, allowNoRoleClaim) && old(GroupsIdentified(store)) &&
             (old(InSomeGroup(store, claims.userId)) ||
              (!old(Users.NotationKnown(store, claims.userId)) && defaultGroupUri in store.groups))) ==>
      response.status == 201
  {
    ghost var groupKnown := GroupsIdentified(store) &&
      (InSomeGroup(store, claims.userId) || (!Users.NotationKnown(store, claims.userId) && defaultGroupUri in store.groups));
    ghost var persons0, members0, accounts0 := store.persons, store.groupMembers, store.accounts;
    Sessions.RemoveOldSessions(store, handle);
    var accountUri, accountId := Sessions.EnsureUserAndAccount(store, claims, defaultGroupUri, ids.personId, ids.identifierId, ids.accountId, now);
    assert Sessions.UserAndAccountEnsured(persons0, members0, accounts0, store.persons, store.groupMembers, store.accounts,
                                          claims, defaultGroupUri, ids.personId, ids.identifierId, ids.accountId, now, accountUri);
    if groupKnown {
      EnsuredAccountHasGroup(store, persons0, members0, accounts0, claims, defaultGroupUri, ids, now, accountUri);
      assert GroupsIdentified(store);
    }
    response := BindSession(store, handle, accountUri, accountId, claims, allowNoRoleClaim, ids.sessionId, now);
    assert Sessions.UserAndAccountEnsured(persons0, members0, accounts0, store.persons, store.groupMembers, store.accounts,
                                          claims, defaultGroupUri, ids.personId, ids.identifierId, ids.accountId, now, accountUri);
  }

  /**
   * POST /sessions. Without a session header, or without an authorization code, the request
   * is rejected with 400. When the code exchange fails the answer is 401. Nothing changes in
   * any of these three cases. Otherwise the session is established for the header's handle
   * and the claims of the exchange, with the outcomes `EstablishSession` states.
   */
  method Login(store: GraphStore, sessionHeader: Option<string>, authorizationCode: Option<string>,
               exchange: OpenId.Attempt, allowNoRoleClaim: bool, defaultGroupUri: string, ids: FreshIds, now: Instant)
    returns (response: Response)
    requires store.PersonsUnique()
    requires Users.PersonUri(ids.personId) !in store.persons
    requires Sessions.AccountUri(ids.accountId) !in store.accounts
    modifies store`persons, store`groupMembers, store`accounts, store`sessions
    ensures store.PersonsUnique()
    ensures old(store.AccountIdentifiersUnique()) ==> store.AccountIdentifiersUnique()
    ensures old(store.SessionsHaveRoles()) ==> store.SessionsHaveRoles()
    ensures !Truthy(sessionHeader) ==> response == BadRequest("Session header is missing") && unchanged(store)
    ensures Truthy(sessionHeader) && !Truthy(authorizationCode) ==>
      response == BadRequest("Authorization code is missing") && unchanged(store)
    ensures Truthy(sessionHeader) && Truthy(authorizationCode) && exchange.Failure? ==>
      response == Response(401, false, Empty) && unchanged(store)
    ensures Truthy(sessionHeader) && Truthy(authorizationCode) && exchange.Success? ==>
      && (response.status == 201 || response.status == 403)
      && exists a :: Sessions.UserAndAccountEnsured(old(store.persons), old(store.groupMembers), old(store.accounts),
                                                     store.persons, store.groupMembers, store.accounts, exchange.claims,
                                                     defaultGroupUri, ids.personId, ids.identifierId, ids.accountId, now, a)
    ensures response.status == 403 ==>
      response == Response(403, true, Empty) &&
      store.sessions == Sessions.WithoutSessionsOf(old(store.sessions), sessionHeader.value)
    ensures response.status == 201 ==>
      && sessionHeader.Some? && sessionHeader.value in store.sessions
      && var handle := sessionHeader.value;
      var session := store.sessions[handle];
      && exchange.Success?
      && Users.RoleClaimAccepted(exchange.claims.roles, allowNoRoleClaim)
      && response.clearAllowedGroups && response.body.CreatedSession?
      && store.sessions == Sessions.WithoutSessionsOf(old(store.sessions), handle)[handle := session]
      && Sessions.UserAndAccountEnsured(old(store.persons), old(store.groupMembers), old(store.accounts),
                                        store.persons, store.groupMembers, store.accounts, exchange.claims,
                                        defaultGroupUri, ids.personId, ids.identifierId, ids.accountId, now, session.account)
      && session.id == ids.sessionId && response.body.sessionId == ids.sessionId
      && session.roles == response.body.roles == SessionRoles(exchange.claims, response.body.groupName)
      && session.account in store.accounts
      && store.accounts[session.account].identifier == Some(exchange.claims.accountId)
      && store.accounts[session.account].person in store.persons
      && store.persons[store.accounts[session.account].person].notation == exchange.claims.userId
      && response.body.accountId == store.accounts[session.account].id
      && Users.GroupOfAccount(store, session.account, Users.GroupRef(session.group, response.body.groupId, response.body.groupName))
      && Sessions.SelectAccountBySession(store, handle) == Some(Sessions.AccountRef(session.account, response.body.accountId))
    ensures (Truthy(sessionHeader) && Truthy(authorizationCode) && exchange.Success? &&
             Users.RoleClaimAccepted(exchange.claims.roles, allowNoRoleClaim) &&
             old(GroupsIdentified(store)) &&
             (old(InSomeGroup(store, exchange.claims.userId)) ||
              (!old(Users.NotationKnown(store, exchange.claims.userId)) && defaultGroupUri in store.groups))) ==>
      response.status == 201
  {
    if !Truthy(sessionHeader) {
      return BadRequest("Session header is missing");
    }
    if !Truthy(authorizationCode) {
      return BadRequest("Authorization code is missing");
    }
    if exchange.Failure? {
      return Response(401, false, Empty);
    }
    response := EstablishSession(store, sessionHeader.value, exchange.claims, allowNoRoleClaim, defaultGroupUri, ids, now);
  }

  /** The handle resolves to no account, or to one with an empty URI: "Invalid session". */
  predicate InvalidSession(account: Option<Sessions.AccountRef>) {
    account.None? || account.value.accountUri == ""
  }

  /**
   * DELETE /sessions/current. A missing header or a handle that resolves to no account gets a
   * 400 and changes nothing. Otherwise the account's sessions are removed and the answer is
   * 204; the handle then resolves to no account any more, whenever its session held a role,
   * as every session does once all sessions hold roles.
   */
  method Logout(store: GraphStore, sessionHeader: Option<string>) returns (response: Response)
    modifies store`sessions
    ensures !Truthy(sessionHeader) ==> response == BadRequest("Session header is missing") && unchanged(store)
    ensures Truthy(sessionHeader) && old(InvalidSession(Sessions.SelectAccountBySession(store, sessionHeader.value))) ==>
      response == BadRequest("Invalid session") && unchanged(store)
    ensures Truthy(sessionHeader) && !old(InvalidSession(Sessions.SelectAccountBySession(store, sessionHeader.value))) ==>
      && response == Response(204, true, Empty)
      && store.sessions == Sessions.WithoutSessionsOf(old(store.sessions), sessionHeader.value)
      && (old(|store.sessions[sessionHeader.value].roles| > 0) ==> Sessions.SelectAccountBySession(store, sessionHeader.value).None?)
      && (old(store.SessionsHaveRoles()) ==> Sessions.SelectAccountBySession(store, sessionHeader.value).None?)
    ensures old(store.SessionsHaveRoles()) ==> store.SessionsHaveRoles()
  {
    if !Truthy(sessionHeader) {
      return BadRequest("Session header is missing");
    }
    var sessionUri := sessionHeader.value;
    var account := Sessions.SelectAccountBySession(store, sessionUri);
    if InvalidSession(account) {
      return BadRequest("Invalid session");
    }
    Sessions.RemoveCurrentSession(store, sessionUri);
    response := Response(204, true, Empty);
  }

  /**
   * GET /sessions/current. A missing header is an internal error (500). A handle that
   * resolves to no account gets a 400. Otherwise the answer is 200 with the account's uuid
   * and with some current session of that account: its uuid, its group's uuid and name, and
   * its roles. When the account has no current session these are all null.
   */
  method CurrentSessionOf(store: GraphStore, sessionHeader: Option<string>) returns (response: Response)
    ensures !Truthy(sessionHeader) ==> response == Response(500, false, ErrorMessage("Session header is missing"))
    ensures Truthy(sessionHeader) && InvalidSession(Sessions.SelectAccountBySession(store, sessionHeader.value)) ==>
      response == BadRequest("Invalid session")
    ensures Truthy(sessionHeader) && !InvalidSession(Sessions.SelectAccountBySession(store, sessionHeader.value)) ==>
      var account := Sessions.SelectAccountBySession(store, sessionHeader.value).value;
      && response.status == 200 && !response.clearAllowedGroups && response.body.CurrentSession?
      && response.body.accountId == account.accountId
      && (response.body.currentId.None? <==> forall s :: !Sessions.CurrentSessionOf(store, account.accountUri, s))
      && (response.body.currentId.None? ==>
            response.body.currentRoles.None? && response.body.currentGroupId.None? && response.body.currentGroupName.None?)
      && (response.body.currentId.Some? ==>
            exists s :: Sessions.CurrentSessionOf(store, account.accountUri, s) &&
              var session := store.sessions[s];
              && response.body.currentId.value == session.id
              && response.body.currentGroupId == Some(store.groups[session.group].id)
              && response.body.currentGroupName == Some(store.groups[session.group].name)
              && response.body.currentRoles == Some(Split(Join(session.roles, ','), ','))
              && ((forall i :: 0 <= i < |session.roles| ==> ',' !in session.roles[i]) ==>
                    response.body.currentRoles == Some(session.roles)))
  {
    if !Truthy(sessionHeader) {
      return Response(500, false, ErrorMessage("Session header is missing"));
    }
    var account := Sessions.SelectAccountBySession(store, sessionHeader.value);
    if InvalidSession(account) {
      return BadRequest("Invalid session");
    }
    var view := Sessions.SelectCurrentSession(store, account.value.accountUri);
    match view {
      case None =>
        response := Response(200, false, CurrentSession(None, None, account.value.accountId, None, None));
      case Some(v) =>
        response := Response(200, false, CurrentSession(Some(v.sessionId), Some(v.roles), account.value.accountId,
                                                        Some(v.groupId), Some(v.groupName)));
    }
  }

}
