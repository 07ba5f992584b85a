/**
 * lib/login-activity.js: each user keeps one record of the last time they logged in.
 */
module LoginActivities {
  import opened Store
  import opened Config

  const LoginActivityResourceBaseUri := ResourceBaseUri + "/aanmeldingsactiviteit/"

  function LoginActivityUri(id: string): string {
    LoginActivityResourceBaseUri + id
  }

  /** The login activities associated with `user`. */
  function ActivitiesOf(activities: map<string, LoginActivity>, user: string): set<string> {
    set a | a in activities && activities[a].user == user
  }

  /**
   * `insertLoginActivity`: one earlier activity of the user (if any) is deleted, then a new
   * one at the base URI plus a fresh uuid records `now`. Other users' activities are
   * untouched, and a user who had at most one activity before has exactly the new one after.
   */
  method InsertLoginActivity(store: GraphStore, user: string, id: string, now: Instant)
    requires LoginActivityUri(id) !in store.loginActivities
    modifies store`loginActivities
    ensures LoginActivityUri(id) in store.loginActivities
    ensures store.loginActivities[LoginActivityUri(id)] == LoginActivity(id, user, now)
    ensures old(ActivitiesOf(store.loginActivities, user)) == {} ==>
      store.loginActivities == old(store.loginActivities)[LoginActivityUri(id) := LoginActivity(id, user, now)]
    ensures old(ActivitiesOf(store.loginActivities, user)) != {} ==>
      exists d :: d in old(ActivitiesOf(store.loginActivities, user)) &&
        store.loginActivities == (old(store.loginActivities) - {d})[LoginActivityUri(id) := LoginActivity(id, user, now)]
    ensures forall a :: a in old(store.loginActivities) && old(store.loginActivities)[a].user != user ==>
      a in store.loginActivities && store.loginActivities[a] == old(store.loginActivities)[a]
    ensures old(|ActivitiesOf(store.loginActivities, user)|) <= 1 ==>
      ActivitiesOf(store.loginActivities, user) == {LoginActivityUri(id)}
  {
    var activities := store.loginActivities;
    var uri := LoginActivityUri(id);
    if d :| d in activities && activities[d].user == user {
      activities := activities - {d};
      if |ActivitiesOf(store.loginActivities, user)| <= 1 {
        SingletonMember(ActivitiesOf(store.loginActivities, user), d);
        assert ActivitiesOf(activities, user) == {};
      }
    }
    store.loginActivities := activities[uri := LoginActivity(id, user, now)];
  }

  lemma SingletonMember(s: set<string>, d: string)
    requires d in s && |s| <= 1
    ensures s == {d}
  {
    if s != {d} {
      var e :| e in s && e != d;
      assert {d, e} <= s;
      assert |{d, e}| == 2;
      SubsetCard({d, e}, s);
    }
  }

  lemma SubsetCard(a: set<string>, b: set<string>)
    requires a <= b
    ensures |a| <= |b|
  {
    assert b == a + (b - a);
  }

}
