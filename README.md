# acmidm-login-service, modelled in Dafny

This project models the core of the ACM/IDM login service. The service turns a successful
OpenID Connect login with the Flemish government's identity provider into a session. The
session is bound to a person, an online account, a user group and a list of roles, all kept
in a triple store. The model covers:

- the parsing of the claims the identity provider returns: the Kaleidos role parser, the
  OVO organization code extractor, the vo-email trimmer, the phone sanitiser and the
  `mailto:`/`tel:` wrappers;
- the staleness test that decides whether stored person data is refreshed;
- the lookup-or-insert operations on persons, accounts, organizations, memberships,
  person-to-organization links and login activities;
- the session table: removing the sessions of an account, binding a session URI, reading
  the current session back;
- the bounded retry of the authorization-code exchange, and the two numeric settings
  `REQUEST_TIMEOUT` and `REQUEST_RETRIES`;
- the decision order of the three HTTP endpoints `POST /sessions`, `DELETE /sessions/current`
  and `GET /sessions/current`.

The triple store becomes one class, `Store.GraphStore`. It holds a map per resource kind,
keyed by resource URI, and two sets of links: group membership and `org:memberOf`. The
named graphs are merged into this one store. Each store operation is a method that names
the fields it changes. Uuids and the current time are parameters. A method that mints a URI
requires that URI to be unused, which stands for the freshness of `uuid()`. Each source file
is one module: `Config` (config/index.js), `Organizations` (lib/organization.js),
`Organisations` (lib/organisation.js), `Users` (lib/user.js), `Accounts` (lib/account.js),
`Memberships` (lib/membership.js), `Sessions` (lib/session.js), `LoginActivities`
(lib/login-activity.js), `OpenId` (lib/openid.js) and `App` (app.js). `Text` models the
JavaScript string operations the code relies on: truthiness, `split` and `join`.

## Model

| member | source | states |
|---|---|---|
| Config.StatusUrisDistinct | config/index.js:17-18 | the allowed and the blocked access status are different concepts |
| Config.WordRunLength | config/index.js:23 | the greedy `[\d\w]*` run: every character in it is a word character, and the character after it is not |
| Config.ParseRoleFromClaim | config/index.js:24-26 | an absent claim gives null; a non-null result is `Kaleidos_` plus word characters, and the claim starts with `KaleidosGebruiker-`, then that result, then `:` |
| Config.ParseRoleCharacterization | config/index.js:23-26 | the parser returns a role exactly when the claim is `KaleidosGebruiker-` + role + `:` + rest, with the role `Kaleidos_` followed by word characters |
| Config.ParseRoleComplete | config/index.js:23-26 | every claim that matches the pattern yields the captured role, the maximal word run after the prefix |
| Config.RoleRunWithoutColon | config/index.js:23-26 | a role run followed by anything other than `:` (or by nothing) yields null |
| Config.ParseRoleExample | config/index.js:20-22 | `KaleidosGebruiker-Kaleidos_Overheidsorganisatie:OVO000617` yields `Kaleidos_Overheidsorganisatie` |
| Text.Split | lib/session.js:346 | `split` on one character gives at least one piece, no piece holds the separator, and joining the pieces gives the string back |
| Text.BeforeFirst | app.js:92 | `split(sep)[0]` is a prefix without the separator, followed in the string by the separator or by nothing |
| Text.SplitJoin | lib/session.js:324-346 | splitting a comma join gives the parts back when no part contains a comma |
| Organizations.FirstOvoCodeFrom | lib/organization.js:8 | the regex scan finds the leftmost index at which `OVO` plus six digits starts, or reports that there is none |
| Organizations.OvoCodeFromString | lib/organization.js:7-10 | null exactly when no `OVO`+6-digit substring exists; otherwise a 9-character `OVO`+6-digit substring of the input at the leftmost match |
| Organizations.OvoCodeLeftmost | lib/organization.js:8-9 | whatever the input, the result is the 9 characters at the leftmost match |
| Organizations.OvoCodeExample | lib/organization.js:8 | digits after the sixth are not part of the code (`OVO0018271` gives `OVO001827`) |
| Organizations.InsertNewOrganization | lib/organization.js:12-31 | returns the base URI plus the code, the code as identifier and the new uuid; the organization stored there carries the code |
| Organizations.EnsureOrganization | lib/organization.js:33-50 | an existing organization with the code is returned and nothing is inserted; otherwise exactly one is added at the code-derived URI; uniqueness of codes is kept |
| Organizations.EnsureOrganizationTwice | lib/organization.js:33-50 | two calls with one code return the same URI and add at most one organization |
| Organisations.OvoCodeFromVoEmail | lib/organisation.js:6-9 | null exactly when no `OVO`+6-digit substring exists; otherwise the leftmost such 9-character substring |
| Organisations.InsertNewOrganisation | lib/organisation.js:11-30 | the organization stands at base URI plus code with the code as identifier, the returned fields match it, and a free URI gains exactly one organization |
| Users.VoEmailToEmail | lib/user.js:17-20 | the text before the first `:`, or the whole claim when it has none |
| Users.EmailToUri | lib/user.js:26-29 | the URI is `mailto:` followed by the address, unchanged |
| Users.PhoneToUri | lib/user.js:36-39 | the URI is `tel:` followed by the number, unchanged |
| Users.SanitizePhoneNumber | lib/user.js:22-24 | a number without `/`, space or `.` is unchanged; otherwise exactly one character is removed |
| Users.SanitizeRemovesFirstSeparator | lib/user.js:22-24 | the character removed is the leftmost separator, and everything before and after it is kept |
| Users.UriToEmail | lib/user.js:31-34 | a leading `mailto:` is dropped, and any other string is returned as is |
| Users.UriToPhone | lib/user.js:41-44 | a leading `tel:` is dropped, and any other string is returned as is |
| Users.EmailUriRoundTrip | lib/user.js:26-34 | unwrapping a wrapped address gives the address back, for every string |
| Users.PhoneUriRoundTrip | lib/user.js:36-44 | unwrapping a wrapped number gives the number back, for every string |
| Users.TestIfPropertyUpToDate | lib/user.js:93-101 | true exactly when both values are present and equal or both are absent, with "" counting as absent |
| Users.FirstNameShouldBeUpdated | lib/user.js:103 | true exactly when stored and claimed first name differ, with "" counting as absent |
| Users.FamilyNameShouldBeUpdated | lib/user.js:104 | true exactly when stored and claimed family name differ, with "" counting as absent |
| Users.EmailShouldBeUpdated | lib/user.js:105 | true exactly when the stored address without `mailto:` differs from the claimed one before its `:` |
| Users.PhoneShouldBeUpdatedAsWritten | lib/user.js:106 | true exactly when the stored number without `tel:` differs from the raw phone claim |
| Users.PhoneShouldBeUpdated | lib/user.js:106 | true exactly when the stored number without `tel:` differs from the sanitised phone claim |
| Users.RefreshFiresAsWritten | lib/user.js:132-135 | the refresh condition as written fires exactly when at least one of the four checks (phone against the raw claim) does not fire |
| Users.RefreshedPersonUpToDate | lib/user.js:103-106 | after `updateUserData` has written the claims to a person, none of the four checks fires for those claims when the phone is compared after sanitising; the as-written phone check fires exactly when the phone claim holds a `/`, space or `.` |
| Users.AllFieldsStaleSkipsRefreshAsWritten | lib/user.js:132-135 | there is a person and claims with every field stale for which the refresh condition as written does not fire |
| Users.PhoneStaleAfterRefreshAsWritten | lib/user.js:106 | when the phone claim holds a separator, the raw-claim phone check still fires right after the refresh, while the sanitised check does not |
| Users.InsertNewUser | lib/user.js:46-91 | adds exactly the new person, identified by the user-id claim, with name, mailbox and phone only for present claims, and puts it in the default group |
| Users.UpdateUserData | lib/user.js:145-188 | each of the four fields becomes its claim-derived value when the claim is present and absent otherwise; nothing else changes |
| Users.EnsureUser | lib/user.js:108-143 | a known identifier notation returns that person's id, and the person becomes its claim-derived record when some field is stale and stays as it was otherwise, with no other person changed; an unknown one inserts a person in the default group; afterwards no field is stale and notations stay unique |
| Users.SelectUserGroup | lib/user.js:190-216 | nothing when the role claim is missing or empty and that is not allowed; otherwise a group the account's holder is a member of, with its uuid and name, or nothing when there is none |
| Users.AddUserToOrganization | lib/user.js:218-237 | the `org:memberOf` link is added exactly when both the person and the organization exist |
| Users.EnsureOrganisationForUser | lib/user.js:239-259 | a null code changes nothing; when the person is already linked to an organization with the code, that organization's URI is returned and nothing changes; otherwise the person is linked to an organization with that code, and at most that one organization and that one link are added; organizations keep their codes, and whatever is added carries this code and this person |
| Users.EnsureOrganisationsForUser | lib/user.js:261-271 | an absent role claim changes nothing; the claims are processed in order up to the first claim without a code; each processed claim links the person (when stored) to an organization of its code; only organizations and links for the processed claims' codes and this person are added |
| Users.EnsureOrganisationsForRoles | lib/user.js:266-269 | the loop over the claims: it stops at the first claim without a code; everything added is for this person and the codes of the claims before it, and each of those claims is linked |
| Users.LinkedToAllKept | lib/user.js:239-259 | a link to an organization with a code survives any step that keeps organizations and only adds links |
| Users.GrowsOnlyForStep | lib/user.js:266-269 | growth for the claims processed so far followed by growth for the next claim's code is growth for the claims up to the next one |
| Accounts.InsertNewAccountForUser | lib/account.js:31-56 | adds exactly one account at base + `/account/` + uuid, linked to the person, with the account-id claim as account name |
| Accounts.EnsureAccountForUser | lib/account.js:5-29 | returns an account of this person with the claimed account name; an existing one means no change; an account of another person is never returned; names stay unique per person |
| Accounts.EnsureAccountTwice | lib/account.js:5-29 | repeating the call with the same person and claim returns the same account and adds at most one |
| Memberships.MembershipStatusAsWritten | lib/membership.js:41-54 | as written, the status lookup fails exactly when the organization has a status, and gives the allowed status otherwise |
| Memberships.MembershipStatus | lib/membership.js:41-54 | a new membership takes its organization's status, or the allowed status when the organization has none |
| Memberships.BlockedOrganizationStatusLost | lib/membership.js:45-53 | for a blocked organization, the as-written lookup fails where the membership should be blocked |
| Memberships.MembershipStatusAgrees | lib/membership.js:41-54 | whenever the as-written lookup gives a status, it is the status the corrected lookup gives |
| Memberships.InsertNewMembership | lib/membership.js:35-75 | adds exactly one membership at base + `/lidmaatschap/` + uuid linking person, role and organization; the returned uri, id and status are the stored ones |
| Memberships.EnsureMembership | lib/membership.js:5-33 | returns a membership of the person in the role, in the organization when one is given; an existing match means no change; person, role and organization stay unique |
| Memberships.EnsureMembershipTwice | lib/membership.js:5-33 | repeating the call adds at most one membership, and with an organization returns the very same membership |
| Sessions.UpdateUserNames | lib/session.js:75-124 | first and family name become the claims when present and absent otherwise; nothing else changes |
| Sessions.InsertNewUser | lib/session.js:126-164 | adds exactly the new person with the user-id notation and the claimed names, and puts it in the default group |
| Sessions.EnsureUser | lib/session.js:47-73 | a known person keeps its URI and uuid and gets the claimed names, with no person inserted; an unknown one is inserted; notations stay unique |
| Sessions.InsertNewAccountForUser | lib/session.js:192-227 | adds exactly one account with the account-id claim as identifier; the target-group fields are stored only when claimed |
| Sessions.EnsureAccountForUser | lib/session.js:166-189 | returns an account of this person with the claimed identifier; an existing one means no change; identifiers stay unique per person |
| Sessions.EnsureUserAndAccount | lib/session.js:40-45 | the account returned carries the account-id claim and belongs to the person with the user-id notation; that person gets the claimed names when known, and is inserted in the default group when new, with no other person or membership changed; an existing account of the person with that identifier is kept, otherwise exactly one account is added |
| Sessions.KnownPersonHoldsEnsuredAccount | lib/session.js:40-73 | with notations unique, a person known before is the holder of the account returned and keeps all its group memberships |
| Sessions.WithoutSessionsOf | lib/session.js:17-34 | only sessions are removed, never changed; an unknown handle removes nothing; other accounts' sessions stay; no session of the handle's account with roles remains |
| Sessions.RemoveOldSessions | lib/session.js:17-34 | the sessions become those left by the removal, and sessions keep having roles |
| Sessions.RemoveCurrentSession | lib/session.js:36-38 | the same removal; afterwards the handle resolves to no account |
| Sessions.InsertNewSessionForAccount | lib/session.js:229-255 | the handle is bound to the account, the group, the roles and a fresh uuid, and is returned unchanged; the handle then resolves to that account |
| Sessions.SelectAccountBySession | lib/session.js:287-315 | an account exactly when the handle holds a session whose account and group are stored; it is that account with its uuid |
| Sessions.SelectCurrentSession | lib/session.js:317-351 | null exactly when the account has no session with roles and a stored group; otherwise such a session with its group's uuid and name and its roles, unchanged when no role holds a comma |
| LoginActivities.InsertLoginActivity | lib/login-activity.js:5-45 | the new activity records the user and the time; at most one earlier activity of the user is deleted; other users' activities are untouched; a user with at most one before has exactly the new one after |
| OpenId.GetAccessToken | lib/openid.js:27-39 | the provider's token set, or its error wrapped in a new message; a value that is not an issuer fails at the client construction |
| OpenId.AttemptBudget | lib/openid.js:41-57 | `requestRetries - retryCount + 1` attempts while a retry is left, and exactly one when none is left; never fewer than one |
| OpenId.RetryCountOrZero | lib/openid.js:42-44 | a missing retry count is 0, and a given one is kept |
| OpenId.Retry | lib/openid.js:41-57 | at most `requestRetries - retryCount + 1` attempts; the first success is returned; all attempts before it failed; a failure comes from the last attempt after the budget is used up |
| OpenId.RetrySucceedsIff | lib/openid.js:41-57 | the exchange succeeds exactly when some attempt within the budget succeeds |
| OpenId.GetAccessTokenWithRetryAsWritten | lib/openid.js:41-57 | as written, the attempts stay within the budget |
| OpenId.AsWrittenExchangeAlwaysFails | lib/openid.js:47 | as written, every call fails with the client-construction error after using up all attempts |
| OpenId.GetAccessTokenWithRetry | lib/openid.js:41-57 | with the issuer passed along, a success is the provider's token set and every earlier attempt failed, and a failure carries the wrapped error of the last attempt after the budget is used up |
| OpenId.ExchangeSucceedsIff | lib/openid.js:41-57 | with the issuer passed along, the login succeeds exactly when the provider answers with a token set within the budget |
| OpenId.EntryCallAttempts | lib/openid.js:42-55 | a call without a retry count counts from 0, so it asks the provider at most `requestRetries + 1` times |
| OpenId.Setting | lib/openid.js:7-8 | `parseInt(x) \|\| default`: a non-zero parsed number is taken; NaN, 0 and an unset variable give the default, so the result is never 0 for a non-zero default |
| OpenId.RequestTimeout | lib/openid.js:7 | never 0; 2500 when unset; a non-zero parsed value is taken |
| OpenId.RequestRetries | lib/openid.js:8 | never 0; 2 when unset; a non-zero parsed value is taken |
| OpenId.ParseDecimal | lib/openid.js:7-8 | `parseInt` of a decimal numeral, with or without a minus sign, gives its number |
| OpenId.SettingFromDecimal | lib/openid.js:7-8 | a non-zero decimal setting is taken as written |
| OpenId.SettingFallbacks | lib/openid.js:7-8 | an unset, zero, empty or non-numeric setting gives the default |
| OpenId.DefaultsWhenUnset | lib/openid.js:7-8 | unset, the timeout is 2500 ms and the retries are 2, so an exchange is tried three times in all |
| App.SessionRoles | app.js:92-93 | one role per role claim, in order: the claim's text before its first `:`; then the group name last; an absent claim gives just the group name |
| App.SessionRoleOfKaleidosClaim | app.js:92 | the session role of a Kaleidos role claim is `KaleidosGebruiker-` followed by the role the claim parser finds |
| App.Login | app.js:52-123 | 400 for a missing header or code, then 401 for a failed exchange, with nothing changed; otherwise the outcome of `App.EstablishSession` for the header's handle and the exchanged claims |
| App.EstablishSession | app.js:72-119 | the account's old sessions go and persons, memberships and accounts change exactly as `ensureUserAndAccount` does; 403 without a group; 201 binds the handle to the account, group and roles returned; with an accepted role claim it is 201 when the person already is in a group, or is new and the default group exists |
| App.BindSession | app.js:85-119 | 403 with nothing changed when the account's holder has no group, the role claim is not accepted, or the selected group has an empty URI or uuid; 201 guaranteed when the claim is accepted, the holder has a group and the groups are identified; on 201, the handle bound to the account, a group of the holder and the roles, and the handle resolving to the account |
| App.EnsuredAccountHasGroup | app.js:84-87 | after the person and account are ensured, the holder is in a group when the person was in one before, or is new and the default group exists |
| App.Logout | app.js:131-148 | 400 for a missing header or an invalid session, with nothing changed; otherwise 204, the account's sessions are removed, and the handle resolves to no account when its session held roles, as every session does once all sessions hold roles |
| App.CurrentSessionOf | app.js:156-207 | 500 for a missing header; 400 for an invalid session; otherwise 200 with the account's uuid and a current session of the account, or null fields when it has none |

## Left out

- SPARQL text, the `sparqlEscape*` helpers and the query client are not modelled. The store is maps and sets, and the named graphs are merged into one store.
- Roles are a sequence. `GROUP_CONCAT` in the triple store gives set semantics (no fixed order, no duplicates), and the model does not capture that.
- Sessions.WithoutSessionsOf: the handle's session is dropped as a whole. The source's DELETE WHERE removes only the joined triples, and a handle without roles keeps its other triples.
- Sessions.InsertNewSessionForAccount: an INSERT DATA on a URI that still holds triples merges with them; the model overwrites the session.
- A missing user-id or account-id claim makes the escaping helper throw; the model takes those claims as always present. A role claim given as a single string instead of a list is not modelled.
- `updateUserData` is fire-and-forget (lib/user.js:136). It is modelled as a synchronous call, and the lookup-then-insert races are not modelled.
- Organizations.InsertNewOrganization: on a URI that already holds an organization, INSERT DATA adds a second `mu:uuid`; in the model the existing record and its uuid are kept, and the returned uuid is the new one, which is not stored.
- Organisations.InsertNewOrganisation: the same; on an occupied URI the existing record and its uuid are kept, and the returned uuid is not stored.
- Users.RefreshedPersonUpToDate: the stored phone is compared with the sanitised claim; with the raw claim, as written, the phone check still fires after the refresh whenever the claim holds a separator, as the lemma's second clause says.
- `updateUserNames` inserts a `foaf:Person` type triple even for a URI that is not yet a person; the model only updates stored persons.
- Memberships.InsertNewMembership: lib/membership.js:48 and :68 hand the organization URI to `sparqlEscapeUri` without a guard, and that helper throws on null. So for a null organization with no matching membership, `ensureMembership` rejects at :48 and the source creates no membership. The model instead inserts one with `organization == None` and the allowed status. An empty organization URI is passed on as written, so the model stores `Some("")`.
- Organizations.UrisCarryCodes: Organizations.InsertNewOrganization, Organizations.EnsureOrganization, Organizations.EnsureOrganizationTwice, Organisations.InsertNewOrganisation, Users.EnsureOrganisationForUser, Users.EnsureOrganisationsForUser and Users.EnsureOrganisationsForRoles require that every organization stored at `OrganisationResourceBaseUri` + X has identifier X. The source also runs on a store where such an organization carries another identifier; its INSERT DATA then adds a second identifier to that URI. The model does not cover that store.
- Users.EnsureOrganisationForUser: a null OVO code is an outcome (`MissingOvoCode`) where the source's escaping helper throws.
- `parseInt` is modelled for decimal and hexadecimal numerals. Its floating-point precision for very large numbers is not modelled.
- Issuer discovery, the HTTP timeout and the token endpoint are network I/O. The provider's answers are an input sequence.
- `LOG_SINK_URL` posting, `DEBUG_LOG_TOKENSETS` logging, `console.log`, and the startup check of the environment with `process.exit` are not modelled.
- lib/exception.js only declares an error class, and nothing in the core throws it.
- utils.js is not part of this model. Its `error` helper is taken as a 400 answer with a message, and its session header reader as an optional string.
- `addUserToOrganisation` in lib/organisation.js is unexported, and it escapes the organization URI as a string literal; it is not modelled separately.
- session.js also has a `selectUserGroup`, but app.js imports the one from lib/user.js, and only that one (`Users.SelectUserGroup`) is modelled.
- The 500 answers for store failures inside the handlers are not modelled: the store never fails.
- `App.CurrentSessionOf` returns some current session of the handle's account, not necessarily the handle's own, as the source's query does.
- Users.EnsureUser: models the corrected refresh condition (some field is stale) and the sanitised phone check. The refresh condition as written is `Users.RefreshFiresAsWritten`; see Findings.
- Memberships.InsertNewMembership: stores the corrected status (the organization's own, or allowed). The status lookup as written is `Memberships.MembershipStatusAsWritten`; see Findings.
- Memberships.EnsureMembershipTwice: returns the same membership twice only when an organization is given. Without one, the lookup may match any membership of the person in that role.
- App.Login: the code exchange is a parameter whose outcome is that of the corrected `OpenId.GetAccessTokenWithRetry`, not of the as-written call that always fails.

## Findings

| source | as written | input that shows it | evidently intended | confidence | as-written member | corrected member |
|---|---|---|---|---|---|---|
| lib/user.js:132-135 | the refresh fires when `!(a && b && c && d)` holds over the four staleness checks, so it fires unless every field is stale | a stored person whose first name, family name, mailbox and phone all differ from the claims | refresh when any field is stale | not executed | Users.AllFieldsStaleSkipsRefreshAsWritten | Users.EnsureUser |
| lib/user.js:106 | the stored phone is compared with the raw claim, but the stored phone was sanitised | phone claim `02 553 00 00`: the stored `02553 00 00` never equals it | compare with the sanitised claim | not executed | Users.PhoneStaleAfterRefreshAsWritten | Users.RefreshedPersonUpToDate |
| lib/membership.js:45-53 | the query projects `?organizationStatus` but binds `?organizationUri`, so a row comes back without the projected variable and reading its value fails | an organization with a blocked status | the membership inherits the organization's status | not executed | Memberships.BlockedOrganizationStatusLost | Memberships.MembershipStatus |
| lib/openid.js:47 | `getAccessToken(authorizationCode)` passes the code where the issuer belongs, so `new issuer.Client` is not a constructor | any authorization code | `getAccessToken(issuer, authorizationCode)` with a discovered issuer | not executed | OpenId.AsWrittenExchangeAlwaysFails | OpenId.ExchangeSucceedsIff |
