/**
 * lib/account.js: the online account of a person, keyed by its foaf:accountName (the
 * account-id claim as this file reads it).
 */
module Accounts {
  import opened Wrappers
  import opened Store
  import opened Config

  const AccountResourceBaseUri := ResourceBaseUri + "/account/"

  function AccountUri(id: string): string {
    AccountResourceBaseUri + id
  }

  /** The account `insertNewAccountForUser` writes: homepage, account name and creation time; no identifier, no target group. */
  function NewAccount(personUri: string, claims: Claims, id: string, now: Instant): Account {
    Account(id, personUri, AccountServiceHomepage, Some(claims.accountName), None, now, None, None)
  }

  /** `account` is an online account of the person with the claimed account name. */
  predicate AccountOf(store: GraphStore, personUri: string, accountName: string, account: string)
    reads store
  {
    account in store.accounts &&
    store.accounts[account].person == personUri &&
    store.accounts[account].accountName == Some(accountName)
  }

  ghost predicate HasAccount(store: GraphStore, personUri: string, accountName: string)
    reads store
  {
    exists a :: AccountOf(store, personUri, accountName, a)
  }

  /** `insertNewAccountForUser`: a fresh account of the person, at the base URI plus a new uuid. */
  method InsertNewAccountForUser(store: GraphStore, personUri: string, claims: Claims, id: string, now: Instant)
    returns (accountUri: string, accountId: string)
    requires AccountUri(id) !in store.accounts
    modifies store`accounts
    ensures accountUri == AccountUri(id) && accountId == id
    ensures store.accounts == old(store.accounts)[accountUri := NewAccount(personUri, claims, id, now)]
  {
    accountUri, accountId := AccountUri(id), id;
    store.accounts := store.accounts[accountUri := NewAccount(personUri, claims, id, now)];
  }

  /**
   * `ensureAccountForUser`: an account of the person with the claimed account name; an
   * existing one is returned with its own uuid and nothing changes, otherwise one is created.
   * No person ends up with two accounts of one name.
   */
  method EnsureAccountForUser(store: GraphStore, personUri: string, claims: Claims, id: string, now: Instant)
    returns (accountUri: string, accountId: string)
    requires AccountUri(id) !in store.accounts
    modifies store`accounts
    ensures AccountOf(store, personUri, claims.accountName, accountUri)
    ensures accountId == store.accounts[accountUri].id
    ensures old(HasAccount(store, personUri, claims.accountName)) ==> store.accounts == old(store.accounts)
    ensures !old(HasAccount(store, personUri, claims.accountName)) ==>
      accountUri == AccountUri(id) && accountId == id &&
      store.accounts == old(store.accounts)[accountUri := NewAccount(personUri, claims, id, now)]
    ensures old(store.AccountNamesUnique()) ==> store.AccountNamesUnique()
  {
    if a :| a in store.accounts && AccountOf(store, personUri, claims.accountName, a) {
      accountUri, accountId := a, store.accounts[a].id;
    } else {
      accountUri, accountId := InsertNewAccountForUser(store, personUri, claims, id, now);
    }
  }

  /** A second login with the same claims finds the account the first one created. */
  method EnsureAccountTwice(store: GraphStore, personUri: string, claims: Claims, id1: string, id2: string, now1: Instant, now2: Instant)
    returns (first: string, second: string)
    requires store.AccountNamesUnique()
    requires AccountUri(id1) !in store.accounts && AccountUri(id2) !in store.accounts && id1 != id2
    modifies store`accounts
    ensures first == second
    ensures |store.accounts| <= old(|store.accounts|) + 1
    ensures store.AccountNamesUnique()
  {
    var firstId, secondId;
    first, firstId := EnsureAccountForUser(store, personUri, claims, id1, now1);
    assert AccountUri(id1)[|AccountResourceBaseUri|..] == id1;
    assert AccountUri(id2)[|AccountResourceBaseUri|..] == id2;
    second, secondId := EnsureAccountForUser(store, personUri, claims, id2, now2);
  }

}
