/**
 * Service configuration: resource base URI, the two access-status concepts and the parser
 * that turns an ACM/IDM role claim into a Kaleidos role name.
 */
module Config {
  import opened Wrappers

  const ResourceBaseUri := "http://themis.vlaanderen.be"
  const AccountServiceHomepage := "https://github.com/kanselarij-vlaanderen/acmidm-login-service"

  const AccessAllowedStatusUri := "http://themis.vlaanderen.be/id/concept/43ba4953-3484-4ec7-9741-6e709befc531"
  const AccessBlockedStatusUri := "http://themis.vlaanderen.be/id/concept/ffd0d21a-3beb-44c4-b3ff-06fe9561282a"

  /** The two access statuses are different concepts. */
  lemma StatusUrisDistinct()
    ensures AccessAllowedStatusUri != AccessBlockedStatusUri
  {
    assert AccessAllowedStatusUri[40] != AccessBlockedStatusUri[40];
  }

  /**
   * The claims the identity provider returns, as the service reads them. Each field holds
   * the value of one configured claim:
   *  - userId: MU_APPLICATION_AUTH_USERID_CLAIM (lib/user.js and lib/session.js, default "rrn");
   *  - accountId: MU_APPLICATION_AUTH_ACCOUNTID_CLAIM as read by lib/session.js (default "vo_id");
   *  - accountName: the same setting as read through this file, AUTH_ACCOUNTID_CLAIM (default "sub");
   *  - givenName, familyName: "given_name", "family_name";
   *  - voEmail: MU_APPLICATION_AUTH_VO_EMAIL_CLAIM (default "vo_email");
   *  - phone: MU_APPLICATION_AUTH_VO_PHONE_CLAIM (default "phone");
   *  - roles: MU_APPLICATION_AUTH_ROLE_CLAIM, a list of role strings;
   *  - doelgroepCode, doelgroepNaam: "vo_doelgroepcode", "vo_doelgroepnaam".
   * An optional claim that is absent is None.
   */
  datatype Claims = Claims(
    userId: string,
    accountId: string,
    accountName: string,
    givenName: Option<string>,
    familyName: Option<string>,
    voEmail: Option<string>,
    phone: Option<string>,
    roles: Option<seq<string>>,
    doelgroepCode: Option<string>,
    doelgroepNaam: Option<string>)

  // The role-claim pattern is  ^KaleidosGebruiker-(Kaleidos_[\d\w]*):
  const ClaimPrefix := "KaleidosGebruiker-"
  const RolePrefix := "Kaleidos_"

  /** A character of the class `[\d\w]`: an ASCII letter, a digit or the underscore. */
  predicate IsWordChar(c: char) {
    'a' <= c <= 'z' || 'A' <= c <= 'Z' || '0' <= c <= '9' || c == '_'
  }

  predicate AllWordChars(s: string) {
    forall i :: 0 <= i < |s| ==> IsWordChar(s[i])
  }

  /** Length of the longest prefix of `s` made of word characters (what the greedy `[\d\w]*` takes). */
  function WordRunLength(s: string): (n: nat)
    ensures n <= |s|
    ensures AllWordChars(s[..n])
    ensures n < |s| ==> !IsWordChar(s[n])
  {
    if |s| == 0 || !IsWordChar(s[0]) then 0
    else
      var n := 1 + WordRunLength(s[1..]);
      assert s[..n] == [s[0]] + s[1..][..n - 1];
      n
  }

  /**
   * `role` is what the role-claim pattern captures in `claim`: the claim starts with
   * "KaleidosGebruiker-", then the role ("Kaleidos_" followed by word characters), then ':'.
   */
  predicate RoleClaimMatches(claim: string, role: string) {
    && |role| >= |RolePrefix|
    && role[..|RolePrefix|] == RolePrefix
    && AllWordChars(role)
    && ClaimPrefix + role + ":" <= claim
  }

  /** `parseRoleFromClaim`: the captured role name, or null when the claim is absent or does not match. */
  function ParseRoleFromClaim(claim: Option<string>): (role: Option<string>)
    ensures claim.None? ==> role.None?
    ensures role.Some? ==> RoleClaimMatches(claim.value, role.value)
  {
    match claim
    case None => None
    case Some(c) =>
      var start := |ClaimPrefix| + |RolePrefix|;
      if |c| < start || c[..start] != ClaimPrefix + RolePrefix then None
      else
        var run := WordRunLength(c[start..]);
        if start + run < |c| && c[start + run] == ':' then
          var role := c[|ClaimPrefix|..start + run];
          assert role == RolePrefix + c[start..][..run];
          assert c[..start + run + 1] == ClaimPrefix + role + ":";
          Some(role)
        else None
  }

  /** A maximal word run stops at the first non-word character. */
  lemma {:induction false} WordRunStops(w: string, t: string)
    requires AllWordChars(w)
    requires |t| == 0 || !IsWordChar(t[0])
    ensures WordRunLength(w + t) == |w|
    decreases |w|
  {
    if |w| > 0 {
      assert (w + t)[1..] == w[1..] + t;
      WordRunStops(w[1..], t);
    } else {
      assert w + t == t;
    }
  }

  /** Every match of the pattern is what the parser returns. */
  lemma ParseRoleComplete(claim: string, role: string)
    requires RoleClaimMatches(claim, role)
    ensures ParseRoleFromClaim(Some(claim)) == Some(role)
  {
    var start := |ClaimPrefix| + |RolePrefix|;
    var w := role[|RolePrefix|..];
    assert role == RolePrefix + w;
    assert AllWordChars(w) by {
      forall i | 0 <= i < |w| ensures IsWordChar(w[i]) {
        assert w[i] == role[|RolePrefix| + i];
      }
    }
    var rest := claim[|ClaimPrefix + role + ":"|..];
    assert claim == ClaimPrefix + role + ":" + rest;
    assert claim[..start] == ClaimPrefix + RolePrefix;
    assert claim[start..] == w + (":" + rest);
    WordRunStops(w, ":" + rest);
    assert WordRunLength(claim[start..]) == |w|;
    assert claim[start + |w|] == ':';
    assert claim[|ClaimPrefix|..start + |w|] == role;
  }

  /** The parser returns `Some(role)` exactly when `role` is what the pattern captures. */
  lemma ParseRoleCharacterization(claim: string, role: string)
    ensures ParseRoleFromClaim(Some(claim)) == Some(role) <==> RoleClaimMatches(claim, role)
  {
    if RoleClaimMatches(claim, role) {
      ParseRoleComplete(claim, role);
    }
  }

  /** A role run that is not immediately followed by ':' gives no role. */
  lemma RoleRunWithoutColon(w: string, t: string)
    requires AllWordChars(w)
    requires |t| == 0 || (!IsWordChar(t[0]) && t[0] != ':')
    ensures ParseRoleFromClaim(Some(ClaimPrefix + RolePrefix + w + t)) == None
  {
    var c := ClaimPrefix + RolePrefix + w + t;
    var start := |ClaimPrefix| + |RolePrefix|;
    assert c[..start] == ClaimPrefix + RolePrefix;
    assert c[start..] == w + t;
    WordRunStops(w, t);
  }

  /** The example from the source comment: a claim on organisation OVO000617. */
  lemma ParseRoleExample()
    ensures ParseRoleFromClaim(Some(ClaimPrefix + "Kaleidos_Overheidsorganisatie" + ":OVO000617"))
         == Some("Kaleidos_Overheidsorganisatie")
  {
    var role := "Kaleidos_Overheidsorganisatie";
    var claim := ClaimPrefix + role + ":OVO000617";
    assert role[..|RolePrefix|] == RolePrefix;
    assert AllWordChars(role);
    assert claim == (ClaimPrefix + role + ":") + "OVO000617";
    ParseRoleComplete(claim, role);
  }

}
