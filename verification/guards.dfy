/**
 * The two route guards. The token's payload is decoded by the parameter
 * `decodeExp`: `None` when the token cannot be parsed (the guard's `catch`),
 * otherwise the payload's `exp` claim, itself absent or a number of seconds.
 */
module Guards {
  import opened Common
  import opened LocalStorage
  import opened TokenService

  /** A guard's answer, the storage after it ran, and the route it navigated to, if any. */
  datatype Outcome = Outcome(allowed: bool, store: Store, navigate: Option<string>)

  const LoginRoute := "/login"
  const DashboardRoute := "/dashboard"

  /** The `exp` claim is truthy (present and non-zero) and lies after `now`. */
  predicate Unexpired(payload: Option<Option<int>>, now: int) {
    payload.Some? && payload.value.Some? && payload.value.value != 0 && payload.value.value > now
  }

  /**
   * `AuthGuard.canActivate` at clock reading `nowMs` milliseconds: a token whose
   * payload carries an unexpired `exp` passes; any other token is cleared with
   * the user before redirecting to the login; no token just redirects.
   */
  function AuthCanActivate(s: Store, decodeExp: string -> Option<Option<int>>, nowMs: nat): (r: Outcome)
    ensures r.allowed <==> HasToken(s) && Unexpired(decodeExp(s[TokenKey]), nowMs / 1000)
    ensures r.allowed ==> r.store == s && r.navigate == None
    ensures !r.allowed ==> r.navigate == Some(LoginRoute)
    ensures !r.allowed && HasToken(s) ==> r.store == ClearAuth(s)
    ensures !HasToken(s) ==> r.store == s
  {
    var token := GetToken(s);
    if Truthy(token) then
      var payload := decodeExp(token.value);
      var now := nowMs / 1000;
      if Unexpired(payload, now) then Outcome(true, s, None)
      else Outcome(false, ClearAuth(s), Some(LoginRoute))
    else Outcome(false, s, Some(LoginRoute))
  }

  /** `NoAuthGuard.canActivate`: only visitors without a token pass; storage is never touched. */
  function NoAuthCanActivate(s: Store): (r: Outcome)
    ensures r.allowed <==> !HasToken(s)
    ensures r.store == s
    ensures r.navigate == (if r.allowed then None else Some(DashboardRoute))
  {
    if Truthy(GetToken(s)) then Outcome(false, s, Some(DashboardRoute)) else Outcome(true, s, None)
  }

  /** No store passes both guards: the protected pages and the login page exclude each other. */
  lemma GuardsExclusive(s: Store, decodeExp: string -> Option<Option<int>>, nowMs: nat)
    ensures !(AuthCanActivate(s, decodeExp, nowMs).allowed && NoAuthCanActivate(s).allowed)
  {
  }

  /** After the auth guard rejects a session, the login page becomes reachable and the guard keeps rejecting. */
  lemma RejectionLogsOut(s: Store, decodeExp: string -> Option<Option<int>>, nowMs: nat, laterMs: nat)
    requires !AuthCanActivate(s, decodeExp, nowMs).allowed
    ensures var s1 := AuthCanActivate(s, decodeExp, nowMs).store;
      NoAuthCanActivate(s1).allowed && !AuthCanActivate(s1, decodeExp, laterMs).allowed
  {
  }

  /** A token that passes now also passes at any earlier time, and fails from its `exp` second on. */
  lemma ExpiryMonotone(s: Store, decodeExp: string -> Option<Option<int>>, nowMs: nat, earlierMs: nat)
    requires earlierMs <= nowMs
    requires AuthCanActivate(s, decodeExp, nowMs).allowed
    ensures AuthCanActivate(s, decodeExp, earlierMs).allowed
    ensures AuthCanActivate(s, decodeExp, decodeExp(s[TokenKey]).value.value * 1000).allowed == false
  {
    assert earlierMs / 1000 <= nowMs / 1000;
  }

  /** A payload without `exp`, or one that cannot be parsed, logs the user out at once. */
  lemma MissingExpLogsOut(s: Store, decodeExp: string -> Option<Option<int>>, nowMs: nat)
    requires HasToken(s) && (decodeExp(s[TokenKey]).None? || decodeExp(s[TokenKey]).value.None?)
    ensures AuthCanActivate(s, decodeExp, nowMs) == Outcome(false, ClearAuth(s), Some(LoginRoute))
  {
  }
}
