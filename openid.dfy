/**
 * lib/openid.js: exchanging an authorization code for a token set with the identity
 * provider, retried a bounded number of times, and the two numeric settings that bound the
 * exchange. The provider's answers are given as a sequence, one per attempt.
 */
module OpenId {
  import opened Wrappers
  import opened Config

  /** The outcome of one exchange: a token set's claims, or an error message. */
  datatype Attempt = Success(claims: Claims) | Failure(error: string)

  /** The result of the retrying exchange and how many attempts it made. */
  datatype Exchange = Exchange(result: Attempt, attempts: nat)

  /** What `getAccessToken` receives as its first argument. */
  datatype IssuerArgument =
    | Provider(response: Attempt)  // a discovered issuer; `response` is what its token endpoint answers
    | NotAnIssuer(value: string)   // any other value, such as the authorization code itself

  const WrappedErrorPrefix := "Something went wrong while retrieving the access token: "
  const NotAConstructor := "issuer.Client is not a constructor"

  /**
   * `getAccessToken(issuer, code)`: the provider's token set, or its error wrapped in a new
   * message. A value that is not an issuer has no `Client` to construct, so the call fails
   * before the exchange is tried.
   */
  function GetAccessToken(issuer: IssuerArgument): (attempt: Attempt)
    ensures issuer.NotAnIssuer? ==> attempt == Failure(NotAConstructor)
    ensures issuer.Provider? && issuer.response.Success? ==> attempt == issuer.response
    ensures issuer.Provider? && issuer.response.Failure? ==>
      attempt.Failure? && attempt.error == WrappedErrorPrefix + issuer.response.error
  {
    match issuer
    case NotAnIssuer(_) => Failure(NotAConstructor)
    case Provider(Success(claims)) => Success(claims)
    case Provider(Failure(e)) => Failure(WrappedErrorPrefix + e)
  }

  /** How many attempts a call starting at `retryCount` makes at most: one, plus one per retry left. */
  function AttemptBudget(retryCount: int, requestRetries: int): (budget: nat)
    ensures budget >= 1 && budget >= requestRetries - retryCount + 1
    ensures budget == 1 <==> retryCount >= requestRetries
    ensures retryCount < requestRetries ==> budget == requestRetries - retryCount + 1
  {
    if retryCount < requestRetries then requestRetries - retryCount + 1 else 1
  }

  /**
   * The control flow of `getAccessTokenWithRetry`, over the outcomes its successive attempts
   * would have: the first success is returned; after a failure it retries while the retry
   * count is below `requestRetries`, and otherwise fails with that attempt's error. The
   * entry call has no retry count, which counts as 0.
   */
  function Retry(attempts: seq<Attempt>, retryCount: int, requestRetries: int): (r: Exchange)
    requires |attempts| >= AttemptBudget(retryCount, requestRetries)
    ensures 1 <= r.attempts <= AttemptBudget(retryCount, requestRetries)
    ensures r.result == attempts[r.attempts - 1]
    ensures forall k :: 0 <= k < r.attempts - 1 ==> attempts[k].Failure?
    ensures r.result.Failure? ==> r.attempts == AttemptBudget(retryCount, requestRetries)
    decreases if retryCount < requestRetries then requestRetries - retryCount else 0
  {
    if attempts[0].Success? then Exchange(attempts[0], 1)
    else if retryCount < requestRetries then
      var rest := Retry(attempts[1..], retryCount + 1, requestRetries);
      Exchange(rest.result, rest.attempts + 1)
    else Exchange(attempts[0], 1)
  }

  /** The exchange succeeds exactly when one of the attempts within the budget succeeds. */
  lemma RetrySucceedsIff(attempts: seq<Attempt>, retryCount: int, requestRetries: int)
    requires |attempts| >= AttemptBudget(retryCount, requestRetries)
    ensures Retry(attempts, retryCount, requestRetries).result.Success? <==>
      exists k :: 0 <= k < AttemptBudget(retryCount, requestRetries) && attempts[k].Success?
  {
    var r := Retry(attempts, retryCount, requestRetries);
    if r.result.Success? {
      assert attempts[r.attempts - 1].Success?;
    }
  }

  /**
   * `getAccessTokenWithRetry` as written: each attempt calls `getAccessToken(authorizationCode)`,
   * which puts the code where the issuer belongs.
   */
  function GetAccessTokenWithRetryAsWritten(authorizationCode: string, retryCount: int, requestRetries: int): (r: Exchange)
    ensures 1 <= r.attempts <= AttemptBudget(retryCount, requestRetries)
  {
    var budget := AttemptBudget(retryCount, requestRetries);
    Retry(seq(budget, _ => GetAccessToken(NotAnIssuer(authorizationCode))), retryCount, requestRetries)
  }

  /** As written, no authorization code is ever exchanged: every attempt fails, and the retries are all used up. */
  lemma AsWrittenExchangeAlwaysFails(authorizationCode: string, retryCount: int, requestRetries: int)
    ensures GetAccessTokenWithRetryAsWritten(authorizationCode, retryCount, requestRetries) ==
      Exchange(Failure(NotAConstructor), AttemptBudget(retryCount, requestRetries))
  {
    var budget := AttemptBudget(retryCount, requestRetries);
    var attempts := seq(budget, _ => GetAccessToken(NotAnIssuer(authorizationCode)));
    RetrySucceedsIff(attempts, retryCount, requestRetries);
  }

  /**
   * `getAccessTokenWithRetry` with the issuer passed along: attempt k asks the provider,
   * whose k-th answer is `responses[k]`.
   */
  function GetAccessTokenWithRetry(responses: seq<Attempt>, retryCount: int, requestRetries: int): (r: Exchange)
    requires |responses| >= AttemptBudget(retryCount, requestRetries)
    ensures 1 <= r.attempts <= AttemptBudget(retryCount, requestRetries)
    ensures r.result.Success? ==> r.result == responses[r.attempts - 1]
    ensures r.result.Failure? ==> r.attempts == AttemptBudget(retryCount, requestRetries)
    ensures r.result.Failure? ==>
      (responses[r.attempts - 1].Failure? && r.result.error == WrappedErrorPrefix + responses[r.attempts - 1].error)
    ensures forall k :: 0 <= k < r.attempts - 1 ==> responses[k].Failure?
  {
    var attempts := seq(|responses|, k requires 0 <= k < |responses| => GetAccessToken(Provider(responses[k])));
    assert forall k :: 0 <= k < |responses| ==> (attempts[k].Success? <==> responses[k].Success?);
    Retry(attempts, retryCount, requestRetries)
  }

  /** With the issuer passed along, the login succeeds exactly when the provider answers with a token set within the budget. */
  lemma ExchangeSucceedsIff(responses: seq<Attempt>, retryCount: int, requestRetries: int)
    requires |responses| >= AttemptBudget(retryCount, requestRetries)
    ensures GetAccessTokenWithRetry(responses, retryCount, requestRetries).result.Success? <==>
      exists k :: 0 <= k < AttemptBudget(retryCount, requestRetries) && responses[k].Success?
  {
    var attempts := seq(|responses|, k requires 0 <= k < |responses| => GetAccessToken(Provider(responses[k])));
    RetrySucceedsIff(attempts, retryCount, requestRetries);
    assert forall k :: 0 <= k < |responses| ==> (attempts[k].Success? <==> responses[k].Success?);
  }

  /** `if (!retryCount) retryCount = 0`: a call without a retry count counts from 0. */
  function RetryCountOrZero(retryCount: Option<int>): (count: int)
    ensures retryCount.None? ==> count == 0
    ensures retryCount.Some? ==> count == retryCount.value
  {
    match retryCount
    case None => 0
    case Some(n) => n
  }

  /** The entry call, made without a retry count, asks the provider at most `requestRetries + 1` times. */
  lemma EntryCallAttempts(responses: seq<Attempt>, requestRetries: nat)
    requires |responses| >= requestRetries + 1
    ensures AttemptBudget(RetryCountOrZero(None), requestRetries) == requestRetries + 1
    ensures GetAccessTokenWithRetry(responses, RetryCountOrZero(None), requestRetries).attempts <= requestRetries + 1
  {
  }

  // ---------------------------------------------------------------------------------------
  // REQUEST_TIMEOUT and REQUEST_RETRIES: `parseInt(process.env.X) || default`

  /** The characters `parseInt` skips before the number (WhiteSpace and LineTerminator of ECMAScript). */
  predicate IsJsWhitespace(c: char) {
    c == '\t' || c == '\n' || c == '\U{000B}' || c == '\U{000C}' || c == '\r' || c == ' ' ||
    c == '\U{00A0}' || c == '\U{1680}' || ('\U{2000}' <= c <= '\U{200A}') || c == '\U{2028}' || c == '\U{2029}' ||
    c == '\U{202F}' || c == '\U{205F}' || c == '\U{3000}' || c == '\U{FEFF}'
  }

  /** The value of `c` as a digit in the given radix (10 or 16), if it is one. */
  function DigitValue(c: char, radix: nat): (d: Option<nat>)
    requires radix == 10 || radix == 16
    ensures d.Some? ==> d.value < radix
  {
    if '0' <= c <= '9' then Some(c as nat - '0' as nat)
    else if radix == 16 && 'a' <= c <= 'f' then Some(c as nat - 'a' as nat + 10)
    else if radix == 16 && 'A' <= c <= 'F' then Some(c as nat - 'A' as nat + 10)
    else None
  }

  predicate AllDigits(s: string, radix: nat)
    requires radix == 10 || radix == 16
  {
    forall i :: 0 <= i < |s| ==> DigitValue(s[i], radix).Some?
  }

  /** Number of leading whitespace characters. */
  function LeadingSpace(s: string): (n: nat)
    ensures n <= |s|
    ensures forall i :: 0 <= i < n ==> IsJsWhitespace(s[i])
    ensures n < |s| ==> !IsJsWhitespace(s[n])
  {
    if |s| == 0 || !IsJsWhitespace(s[0]) then 0 else 1 + LeadingSpace(s[1..])
  }

  /** Length of the longest prefix made of digits of the radix. */
  function DigitRun(s: string, radix: nat): (n: nat)
    requires radix == 10 || radix == 16
    ensures n <= |s|
    ensures AllDigits(s[..n], radix)
    ensures n < |s| ==> DigitValue(s[n], radix).None?
  {
    if |s| == 0 || DigitValue(s[0], radix).None? then 0
    else
      var n := 1 + DigitRun(s[1..], radix);
      assert s[..n] == [s[0]] + s[1..][..n - 1];
      n
  }

  /** The number a string of digits denotes, most significant digit first. */
  function DigitsValue(s: string, radix: nat): nat
    requires radix == 10 || radix == 16
    requires AllDigits(s, radix)
  {
    if |s| == 0 then 0
    else DigitsValue(s[..|s| - 1], radix) * radix + DigitValue(s[|s| - 1], radix).value
  }

  /**
   * `parseInt(s)` with no radix, None standing for NaN: leading whitespace skipped, an optional
   * sign, a "0x"/"0X" prefix selecting radix 16, then the longest run of digits, which must
   * not be empty. What follows the run is ignored.
   */
  function ParseInt(s: string): Option<int> {
    ParseSigned(s[LeadingSpace(s)..])
  }

  /** The number at the start of `t`, after an optional sign. */
  function ParseSigned(t: string): Option<int> {
    if |t| > 0 && t[0] == '-' then
      match ParseUnsigned(t[1..])
      case Some(m) => Some(-(m as int))
      case None => None
    else if |t| > 0 && t[0] == '+' then ParseUnsigned(t[1..])
    else ParseUnsigned(t)
  }

  /** The number at the start of `u`: hexadecimal after "0x" or "0X", decimal otherwise. */
  function ParseUnsigned(u: string): Option<nat> {
    if |u| >= 2 && u[0] == '0' && (u[1] == 'x' || u[1] == 'X') then ParseDigits(u[2..], 16)
    else ParseDigits(u, 10)
  }

  /** The value of the longest run of digits at the start of `body`; none when the run is empty. */
  function ParseDigits(body: string, radix: nat): Option<nat>
    requires radix == 10 || radix == 16
  {
    var run := DigitRun(body, radix);
    if run == 0 then None else Some(DigitsValue(body[..run], radix))
  }

  /** `parseInt(value) || fallback`: NaN and 0 (an unset variable included) give the fallback. */
  function Setting(value: Option<string>, fallback: int): (setting: int)
    ensures fallback != 0 ==> setting != 0
    ensures value.None? ==> setting == fallback
    ensures value.Some? && ParseInt(value.value).Some? && ParseInt(value.value).value != 0 ==>
      setting == ParseInt(value.value).value
    ensures value.Some? && (ParseInt(value.value).None? || ParseInt(value.value).value == 0) ==> setting == fallback
  {
    match value
    case None => fallback
    case Some(s) =>
      match ParseInt(s)
      case Some(n) => if n != 0 then n else fallback
      case None => fallback
  }

  const DefaultRequestTimeout := 2500
  const DefaultRequestRetries := 2

  /** The HTTP timeout of the provider requests, in milliseconds. */
  function RequestTimeout(env: Option<string>): (timeout: int)
    ensures timeout != 0
    ensures env.None? ==> timeout == 2500
    ensures env.Some? && ParseInt(env.value).Some? && ParseInt(env.value).value != 0 ==> timeout == ParseInt(env.value).value
  {
    Setting(env, DefaultRequestTimeout)
  }

  /** How many times a failed exchange is retried. */
  function RequestRetries(env: Option<string>): (retries: int)
    ensures retries != 0
    ensures env.None? ==> retries == 2
    ensures env.Some? && ParseInt(env.value).Some? && ParseInt(env.value).value != 0 ==> retries == ParseInt(env.value).value
  {
    Setting(env, DefaultRequestRetries)
  }

  /** The decimal numeral of `n`, as `String(n)` writes it. */
  function DecimalString(n: nat): (s: string)
    ensures |s| >= 1 && AllDigits(s, 10)
    ensures '0' <= s[0] <= '9'
  {
    if n < 10 then [('0' as nat + n) as char]
    else DecimalString(n / 10) + [('0' as nat + n % 10) as char]
  }

  /** Reading a numeral back gives its number. */
  lemma {:induction false} DecimalValue(n: nat)
    ensures DigitsValue(DecimalString(n), 10) == n
  {
    var s := DecimalString(n);
    if n >= 10 {
      DecimalValue(n / 10);
      assert s[..|s| - 1] == DecimalString(n / 10);
    }
  }

  /** `parseInt(String(n))` is `n`, and a minus sign in front negates it. */
  lemma {:induction false} DigitRunAll(s: string, radix: nat)
    requires radix == 10 || radix == 16
    requires AllDigits(s, radix)
    ensures DigitRun(s, radix) == |s|
    decreases |s|
  {
    if |s| > 0 {
      DigitRunAll(s[1..], radix);
    }
  }

  lemma ParseDecimal(n: nat, negative: bool)
    ensures ParseInt((if negative then "-" else "") + DecimalString(n)) == Some(if negative then -(n as int) else n)
  {
    var d := DecimalString(n);
    DigitRunAll(d, 10);
    assert d[..|d|] == d;
    DecimalValue(n);
    assert ParseDigits(d, 10) == Some(n);
    assert ParseUnsigned(d) == Some(n);
    var s := (if negative then "-" else "") + d;
    assert !IsJsWhitespace(s[0]);
    assert LeadingSpace(s) == 0;
    assert s[0..] == s;
    if negative {
      assert s[1..] == d;
    }
  }

  /** A positive setting written out in decimal is taken as is, and so is a negative one. */
  lemma SettingFromDecimal(n: nat, negative: bool, fallback: int)
    requires n > 0
    ensures Setting(Some((if negative then "-" else "") + DecimalString(n)), fallback) == (if negative then -(n as int) else n)
  {
    ParseDecimal(n, negative);
  }

  /** An unset, zero or non-numeric setting falls back to the default. */
  lemma SettingFallbacks(fallback: int)
    ensures Setting(None, fallback) == fallback
    ensures Setting(Some("0"), fallback) == fallback
    ensures Setting(Some(""), fallback) == fallback
    ensures Setting(Some("abc"), fallback) == fallback
  {
    assert DigitRun("abc", 10) == 0;
    assert LeadingSpace("abc") == 0;
    assert "abc"[0..] == "abc";
    assert "0"[0..] == "0";
    assert LeadingSpace("0") == 0;
    assert DigitRun("0", 10) == 1;
    assert "0"[..1] == "0";
  }

  /** With the environment unset, the provider gets 2.5 seconds per request and a failed exchange is tried three times in all. */
  lemma DefaultsWhenUnset()
    ensures RequestTimeout(None) == 2500
    ensures RequestRetries(None) == 2
    ensures AttemptBudget(0, RequestRetries(None)) == 3
  {
  }

}
