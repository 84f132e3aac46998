/** `KeyCloakAuthenticationMechanism`: the per-request decision of the
    Soteria authentication mechanism. Every Keycloak and container answer is
    an input fact of the request; the result is a status (or a thrown
    exception) plus the trace of observable interactions. */
module AuthenticationMechanism {
  import opened Wrappers
  import opened JwtPrincipal
  import opened IdentityStore

  /** The Authorization-header prefix, matched case-sensitively. */
  const BearerTokenPrefix: string := "Bearer "

  /** `KeycloakDeploymentBuilder.build(config)`: null, built but not
      configured, or configured. */
  datatype Deployment = NoDeployment | Unconfigured | Configured

  /** The Keycloak adapter's answers for this request. */
  datatype Keycloak = Keycloak(
    deployment: Deployment,
    // FilterRequestAuthenticator.authenticate()
    outcome: AuthOutcome,
    // getChallenge() != null
    hasChallenge: bool,
    // AuthenticatedActionsHandler.handledRequest()
    actionsHandled: bool,
    // the token in the facade's security context after authentication
    sessionToken: Option<AccessToken>,
    // the verdict of the bearer authenticator that the identity store runs on
    // the servlet request; it reads that request's Authorization header
    bearerFor: Option<string> -> BearerCheck)

  /** What the container's callback handler does with a `CallerPrincipalCallback`. */
  datatype CallbackResult = Handled | Fails(failure: CallbackFailure)

  /** The facts `validateRequest` consults. */
  datatype Request = Request(
    // adapterConfigInstance.get() != null
    configPresent: bool,
    // req.getUserPrincipal(), by name
    userPrincipal: Option<string>,
    callback: CallbackResult,
    isAuthenticationRequest: bool,
    isProtected: bool,
    // getAuthParameters().isNewAuthentication(): read, then never used
    newAuthentication: bool,
    authorizationHeader: Option<string>,
    keycloak: Keycloak)

  /** The identity registered with the container on SUCCESS. */
  datatype Caller =
    | PlatformCaller(name: string)
    | ValidatedCaller(principal: Principal, groups: set<string>)

  /** `AuthenticationStatus`, with what the container was told: the caller on
      SUCCESS and, on SEND_FAILURE, whether a 401 was sent. */
  datatype Decision =
    | NotDone
    | Success(caller: Caller)
    | SendContinue
    | SendFailure(unauthorized: bool)

  predicate StartsWith(s: string, prefix: string) {
    |prefix| <= |s| && s[..|prefix|] == prefix
  }

  /** `StringUtils.isEmpty`: null or of length zero. */
  predicate IsEmpty(header: Option<string>) {
    header.None? || |header.value| == 0
  }

  /** `substring(BEARER_TOKEN_PREFIX.length())`: the header minus exactly
      the prefix. */
  function StripBearer(header: string): (token: string)
    requires StartsWith(header, BearerTokenPrefix)
    ensures BearerTokenPrefix + token == header
    ensures |token| == |header| - |BearerTokenPrefix|
  {
    header[|BearerTokenPrefix|..]
  }

  /** `ctx.notifyContainerAboutLogin(result)`: a VALID result registers its
      principal and groups and gives SUCCESS; anything else is SEND_FAILURE. */
  function NotifyContainerAboutLogin(r: ValidationResult): (d: Decision)
    ensures d.Success? <==> r.Valid?
    ensures r.Valid? ==> d.caller == ValidatedCaller(r.caller, r.groups)
    ensures !r.Valid? ==> d == SendFailure(false)
  {
    match r
    case Valid(p, groups) => Success(ValidatedCaller(p, groups))
    case _ => SendFailure(false)
  }

  /** The bearer authenticator's verdict on this request's Authorization header. */
  function BearerVerdict(req: Request): BearerCheck {
    req.keycloak.bearerFor(req.authorizationHeader)
  }

  /** The mechanism hands `c` to the identity store and reports its answer
      to the container; exceptions from the store propagate. The store call
      comes first in the trace and the store adds only its success event. */
  function CallStore(c: Credential, bearer: BearerCheck): (t: Traced<Decision>)
    ensures |t.events| >= 1 && t.events[0] == IdentityStoreCalled(c)
    ensures forall i :: 0 < i < |t.events| ==> t.events[i].AuthenticationSucceeded?
    ensures ValidateCredential(c, bearer).outcome.Threw? ==>
      t.outcome == Threw(ValidateCredential(c, bearer).outcome.error)
    ensures ValidateCredential(c, bearer).outcome.Returned? ==>
      t.outcome == Returned(NotifyContainerAboutLogin(ValidateCredential(c, bearer).outcome.value))
    ensures t.outcome.Returned? && t.outcome.value.Success? ==>
      && t.outcome.value.caller.ValidatedCaller?
      && t.events[|t.events| - 1] == AuthenticationSucceeded(t.outcome.value.caller.principal)
  {
    var v := ValidateCredential(c, bearer);
    var outcome :=
      match v.outcome
      case Returned(r) => Returned(NotifyContainerAboutLogin(r))
      case Threw(e) => Threw(e);
    Traced(outcome, [IdentityStoreCalled(c)] + v.events)
  }

  /** The trace and status of a request whose credential `c` went to the store. */
  predicate ReportsStoreResult(t: Traced<Decision>, c: Credential, bearer: BearerCheck) {
    var v := ValidateCredential(c, bearer);
    && t.events == [IdentityStoreCalled(c)] + v.events
    && match v.outcome
       case Returned(r) => t.outcome == Returned(NotifyContainerAboutLogin(r))
       case Threw(e) => t.outcome == Threw(e)
  }

  /** `isLoginRequest`: `principalFound` is fixed to false, so this is an
      authentication request or a protected resource. */
  function IsLoginRequest(isAuthenticationRequest: bool, isProtected: bool): (login: bool)
    ensures login <==> isAuthenticationRequest || isProtected
  {
    var principalFound := false;
    !principalFound && (isAuthenticationRequest || isProtected)
  }

  /** `performKeyCloakLogin`. The deployment check comes before the header
      is read; with no header the authorization-code flow runs; a header with
      the bearer prefix is validated; any other header is ignored. */
  function PerformKeyCloakLogin(req: Request): (t: Traced<Decision>)
    ensures req.keycloak.deployment != Configured ==> t == Traced(Returned(SendFailure(true)), [])
    ensures req.keycloak.deployment == Configured && IsEmpty(req.authorizationHeader) ==>
      if req.keycloak.outcome == Authenticated then
        ReportsStoreResult(t, TokenResponseCredential(req.keycloak.sessionToken), BearerVerdict(req))
      else if req.keycloak.hasChallenge then
        t == Traced(Returned(SendContinue), [ChallengeSent])
      else
        t == Traced(Returned(SendFailure(false)), [])
    ensures req.keycloak.deployment == Configured && !IsEmpty(req.authorizationHeader) ==>
      var header := req.authorizationHeader.value;
      if StartsWith(header, BearerTokenPrefix) then
        ReportsStoreResult(t, AccessTokenCredential(header[|BearerTokenPrefix|..]), BearerVerdict(req))
      else
        t == Traced(Returned(NotDone), [])
    ensures t.outcome.Returned? && t.outcome.value.Success? ==>
      && t.outcome.value.caller.ValidatedCaller?
      && t.events[|t.events| - 1] == AuthenticationSucceeded(t.outcome.value.caller.principal)
  {
    var kc := req.keycloak;
    if kc.deployment != Configured then
      Traced(Returned(SendFailure(true)), [])
    else if IsEmpty(req.authorizationHeader) then
      if kc.outcome == Authenticated then
        // the actions handler's answer is only logged
        CallStore(TokenResponseCredential(kc.sessionToken), BearerVerdict(req))
      else if kc.hasChallenge then
        Traced(Returned(SendContinue), [ChallengeSent])
      else
        Traced(Returned(SendFailure(false)), [])
    else if StartsWith(req.authorizationHeader.value, BearerTokenPrefix) then
      CallStore(AccessTokenCredential(StripBearer(req.authorizationHeader.value)), BearerVerdict(req))
    else
      Traced(Returned(NotDone), [])
  }

  /** `validateRequest`. Without adapter config nothing else is looked at; a
      request that already has a user principal registers it through the
      callback handler and succeeds, or throws if the handler fails; otherwise
      a login request goes to Keycloak and any other request is left alone. */
  function ValidateRequest(req: Request): (t: Traced<Decision>)
    ensures !req.configPresent ==> t == Traced(Returned(NotDone), [])
    ensures req.configPresent && req.userPrincipal.Some? ==>
      && t.events == [CallerPrincipalCallback(req.userPrincipal.value)]
      && match req.callback
         case Handled => t.outcome == Returned(Success(PlatformCaller(req.userPrincipal.value)))
         case Fails(f) => t.outcome == Threw(AuthenticationException(f))
    ensures req.configPresent && req.userPrincipal.None? ==>
      if req.isAuthenticationRequest || req.isProtected then t == PerformKeyCloakLogin(req)
      else t == Traced(Returned(NotDone), [])
    ensures t.outcome.Threw? && t.outcome.error.AuthenticationException? ==>
      req.configPresent && req.userPrincipal.Some?
  {
    if !req.configPresent then
      Traced(Returned(NotDone), [])
    else if req.userPrincipal.Some? then
      var name := req.userPrincipal.value;
      match req.callback
      case Handled => Traced(Returned(Success(PlatformCaller(name))), [CallerPrincipalCallback(name)])
      case Fails(f) => Traced(Threw(AuthenticationException(f)), [CallerPrincipalCallback(name)])
    else
      // the new-authentication flag is read and never used
      if IsLoginRequest(req.isAuthenticationRequest, req.isProtected) then
        PerformKeyCloakLogin(req)
      else
        Traced(Returned(NotDone), [])
  }
}
