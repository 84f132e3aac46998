/** Properties of `validateRequest` that relate several requests: which
    facts can never change the decision, when the identity store is reached,
    and concrete request scenarios. */
module MechanismProperties {
  import opened Wrappers
  import LinkedSet
  import opened JwtPrincipal
  import opened IdentityStore
  import opened AuthenticationMechanism

  /** A login request whose adapter config is present and which carries no
      user principal: the requests that reach `performKeyCloakLogin`. */
  predicate ReachesKeycloak(req: Request) {
    req.configPresent && req.userPrincipal.None? && (req.isAuthenticationRequest || req.isProtected)
  }

  /** Without adapter config the answer is NOT_DONE whatever else the request says. */
  lemma NoConfigDecidesAlone(req: Request, other: Request)
    requires !req.configPresent && !other.configPresent
    ensures ValidateRequest(req) == ValidateRequest(other) == Traced(Returned(NotDone), [])
  {
  }

  /** With a user principal, login classification, the header and every
      Keycloak answer are never consulted. */
  lemma UserPrincipalShortCircuits(req: Request, authRequest: bool, isProtected: bool,
                                   header: Option<string>, kc: Keycloak)
    requires req.configPresent && req.userPrincipal.Some?
    ensures var other := req.(isAuthenticationRequest := authRequest, isProtected := isProtected,
                              authorizationHeader := header, keycloak := kc);
            ValidateRequest(other) == ValidateRequest(req)
    ensures forall c :: IdentityStoreCalled(c) !in ValidateRequest(req).events
  {
  }

  /** The new-authentication flag never affects the result. */
  lemma NewAuthenticationNeverMatters(req: Request, b: bool)
    ensures ValidateRequest(req.(newAuthentication := b)) == ValidateRequest(req)
  {
  }

  /** Whether the authenticated-actions handler took the request never
      affects the result. */
  lemma ActionsHandlerNeverMatters(req: Request, b: bool)
    ensures ValidateRequest(req.(keycloak := req.keycloak.(actionsHandled := b))) == ValidateRequest(req)
  {
  }

  /** A missing or unconfigured deployment gives an unauthorized failure for
      every Authorization header, the bearer one included. */
  lemma UnconfiguredDeploymentIgnoresHeader(req: Request, header: Option<string>)
    requires ReachesKeycloak(req) && req.keycloak.deployment != Configured
    ensures ValidateRequest(req.(authorizationHeader := header))
         == ValidateRequest(req)
         == Traced(Returned(SendFailure(true)), [])
  {
  }

  /** Inside `performKeyCloakLogin` the store is only called with a configured
      deployment, after a completed code flow or with a bearer header. */
  lemma LoginStoreCall(req: Request, c: Credential)
    requires IdentityStoreCalled(c) in PerformKeyCloakLogin(req).events
    ensures req.keycloak.deployment == Configured
    ensures IsEmpty(req.authorizationHeader) ==>
      req.keycloak.outcome == Authenticated && c == TokenResponseCredential(req.keycloak.sessionToken)
    ensures !IsEmpty(req.authorizationHeader) ==>
      && StartsWith(req.authorizationHeader.value, BearerTokenPrefix)
      && c == AccessTokenCredential(StripBearer(req.authorizationHeader.value))
    ensures PerformKeyCloakLogin(req).events[0] == IdentityStoreCalled(c)
    ensures forall i :: 0 < i < |PerformKeyCloakLogin(req).events| ==>
      !PerformKeyCloakLogin(req).events[i].IdentityStoreCalled?
  {
    var kc := req.keycloak;
    var t := PerformKeyCloakLogin(req);
    var c';
    if kc.deployment == Configured && IsEmpty(req.authorizationHeader) && kc.outcome == Authenticated {
      c' := TokenResponseCredential(kc.sessionToken);
    } else if kc.deployment == Configured && !IsEmpty(req.authorizationHeader)
              && StartsWith(req.authorizationHeader.value, BearerTokenPrefix) {
      c' := AccessTokenCredential(StripBearer(req.authorizationHeader.value));
    } else {
      assert false;
    }
    assert t == CallStore(c', BearerVerdict(req));
    var k :| 0 <= k < |t.events| && t.events[k] == IdentityStoreCalled(c);
    assert k == 0;
  }

  /** The identity store is only reached by a login request with a configured
      deployment, either after the code flow authenticated or with a bearer
      header; it is then called with that credential, exactly once. */
  lemma StoreReachedOnlyOnLoginPath(req: Request, c: Credential)
    requires IdentityStoreCalled(c) in ValidateRequest(req).events
    ensures ReachesKeycloak(req) && req.keycloak.deployment == Configured
    ensures IsEmpty(req.authorizationHeader) ==>
      req.keycloak.outcome == Authenticated && c == TokenResponseCredential(req.keycloak.sessionToken)
    ensures !IsEmpty(req.authorizationHeader) ==>
      && StartsWith(req.authorizationHeader.value, BearerTokenPrefix)
      && c == AccessTokenCredential(StripBearer(req.authorizationHeader.value))
    ensures ValidateRequest(req).events[0] == IdentityStoreCalled(c)
    ensures forall i :: 0 < i < |ValidateRequest(req).events| ==>
      !ValidateRequest(req).events[i].IdentityStoreCalled?
  {
    var t := ValidateRequest(req);
    if !ReachesKeycloak(req) {
      assert false;
    }
    assert t == PerformKeyCloakLogin(req);
    LoginStoreCall(req, c);
  }

  /** SUCCESS registers either the request's own principal, without any store
      call, or a principal for which the success event was fired last. */
  lemma SuccessCarriesItsEvidence(req: Request)
    requires ValidateRequest(req).outcome.Returned? && ValidateRequest(req).outcome.value.Success?
    ensures var t := ValidateRequest(req);
            match t.outcome.value.caller
            case PlatformCaller(name) =>
              req.userPrincipal == Some(name) && t.events == [CallerPrincipalCallback(name)]
            case ValidatedCaller(p, groups) =>
              && ReachesKeycloak(req)
              && t.events[|t.events| - 1] == AuthenticationSucceeded(p)
              && groups == LinkedSet.Elements(p.roles)
  {
    var t := ValidateRequest(req);
    if ReachesKeycloak(req) {
      var kc := req.keycloak;
      assert t == PerformKeyCloakLogin(req);
      if IsEmpty(req.authorizationHeader) {
        assert t == CallStore(TokenResponseCredential(kc.sessionToken), BearerVerdict(req));
      } else {
        assert t == CallStore(AccessTokenCredential(StripBearer(req.authorizationHeader.value)), BearerVerdict(req));
      }
    }
  }

  /** A caller that the identity store validated always has a name that is
      neither null nor blank, and it is its login name: the result
      constructor refuses any other. */
  lemma StoreSuccessNamesCaller(req: Request)
    requires ValidateRequest(req).outcome.Returned? && ValidateRequest(req).outcome.value.Success?
    requires ValidateRequest(req).outcome.value.caller.ValidatedCaller?
    ensures var p := ValidateRequest(req).outcome.value.caller.principal;
            NamesCaller(p.loginName) && p.loginName == p.name
  {
    var t := ValidateRequest(req);
    if !ReachesKeycloak(req) {
      assert false;
    }
    var kc := req.keycloak;
    assert t == PerformKeyCloakLogin(req);
    var c;
    if IsEmpty(req.authorizationHeader) {
      c := TokenResponseCredential(kc.sessionToken);
    } else {
      c := AccessTokenCredential(StripBearer(req.authorizationHeader.value));
    }
    assert t == CallStore(c, BearerVerdict(req));
  }

  /** For a bearer header the status is the bearer authenticator's verdict on
      that header: SEND_FAILURE without a 401 for a rejected token, the
      `NullPointerException` of `buildPrincipal` for an accepted token
      without realm roles, the result constructor's exception for an
      accepted token whose preferred username is null or blank, and SUCCESS
      for any other accepted token. So `Bearer <valid>` and `Bearer junk`
      differ. */
  lemma BearerStatusFollowsVerdict(req: Request)
    requires ReachesKeycloak(req) && req.keycloak.deployment == Configured
    requires !IsEmpty(req.authorizationHeader)
    requires StartsWith(req.authorizationHeader.value, BearerTokenPrefix)
    ensures var verdict := BearerVerdict(req);
            var t := ValidateRequest(req);
            && (verdict.outcome != Authenticated ==> t.outcome == Returned(SendFailure(false)))
            && (verdict.outcome == Authenticated && !HasRealmRoles(verdict.token) ==>
                  t.outcome == Threw(NullPointerException))
            && (verdict.outcome == Authenticated && HasRealmRoles(verdict.token)
                && verdict.token.preferredUsername.None? ==>
                  t.outcome == Threw(NullPointerException))
            && (verdict.outcome == Authenticated && HasRealmRoles(verdict.token)
                && verdict.token.preferredUsername.Some? && IsBlank(verdict.token.preferredUsername.value) ==>
                  t.outcome == Threw(IllegalArgumentException))
            && (verdict.outcome == Authenticated && StoreAccepts(verdict.token) ==>
                  && t.outcome.Returned? && t.outcome.value.Success?
                  && t.outcome.value.caller.ValidatedCaller?
                  && MapsToken(t.outcome.value.caller.principal, verdict.token))
  {
    var verdict := BearerVerdict(req);
    var c := AccessTokenCredential(StripBearer(req.authorizationHeader.value));
    assert ValidateRequest(req) == PerformKeyCloakLogin(req) == CallStore(c, verdict);
    var v := ValidateCredential(c, verdict);
    if verdict.outcome == Authenticated {
      assert v.outcome == ResultFromToken(verdict.token);
    }
  }

  /** Two bearer headers on which the authenticator gives the same verdict get
      the same status, whatever tokens follow the prefix: the stripped token
      itself is never validated. */
  lemma BearerDecisionFollowsVerdict(req: Request, h1: string, h2: string)
    requires ReachesKeycloak(req) && req.keycloak.deployment == Configured
    requires StartsWith(h1, BearerTokenPrefix) && StartsWith(h2, BearerTokenPrefix)
    requires req.keycloak.bearerFor(Some(h1)) == req.keycloak.bearerFor(Some(h2))
    ensures ValidateRequest(req.(authorizationHeader := Some(h1))).outcome
         == ValidateRequest(req.(authorizationHeader := Some(h2))).outcome
  {
    AccessTokenIgnoresCredentialString(StripBearer(h1), StripBearer(h2), req.keycloak.bearerFor(Some(h1)));
  }

  /** The prefix is matched exactly: a bare "Bearer " yields the empty token,
      while other spellings or schemes are not bearer headers at all, contrary
      to the case-insensitive scheme names of section 2.1 of RFC 7235. */
  lemma BearerPrefixIsExact()
    ensures StripBearer("Bearer ") == ""
    ensures StripBearer("Bearer abc123") == "abc123"
    ensures !StartsWith("bearer x", BearerTokenPrefix)
    ensures !StartsWith("BEARER x", BearerTokenPrefix)
    ensures !StartsWith("Token x", BearerTokenPrefix)
    ensures !StartsWith("Bearer", BearerTokenPrefix)
    ensures !StartsWith(" ", BearerTokenPrefix)
  {
    assert "bearer x"[0] != BearerTokenPrefix[0];
    assert "BEARER x"[1] != BearerTokenPrefix[1];
    assert "Token x"[0] != BearerTokenPrefix[0];
    assert " "[0] != BearerTokenPrefix[0];
  }

  /** A non-empty header without the exact prefix leaves the request alone and
      never reaches the identity store. */
  lemma MalformedHeaderDoesNothing(req: Request)
    requires ReachesKeycloak(req) && req.keycloak.deployment == Configured
    requires !IsEmpty(req.authorizationHeader)
    requires !StartsWith(req.authorizationHeader.value, BearerTokenPrefix)
    ensures ValidateRequest(req) == Traced(Returned(NotDone), [])
  {
  }

  // ---- scenarios ----

  function Token(login: string, roles: seq<string>): AccessToken {
    AccessToken(Some(login), None, None, None, None, None, None, map[], Some(Access(Some(roles))))
  }

  function LoginRequest(header: Option<string>, kc: Keycloak): Request {
    Request(true, None, Handled, false, true, false, header, kc)
  }

  /** A bearer header whose token Keycloak accepts, for "alice" in role "user". */
  lemma ScenarioBearerAccepted(kc: Keycloak)
    requires kc.deployment == Configured
    requires kc.bearerFor(Some("Bearer abc123")) == BearerCheck(Authenticated, Token("alice", ["user"]))
    ensures var t := ValidateRequest(LoginRequest(Some("Bearer abc123"), kc));
            && t.outcome.Returned? && t.outcome.value.Success?
            && t.outcome.value.caller.ValidatedCaller?
            && t.outcome.value.caller.principal.loginName == Some("alice")
            && t.outcome.value.caller.groups == {"user"}
            && t.events[0] == IdentityStoreCalled(AccessTokenCredential("abc123"))
  {
    BearerPrefixIsExact();
    assert "alice"[0] == 'a';
    assert LinkedSet.Elements(["user"]) == {"user"};
  }

  /** A header with another scheme is not handled here. */
  lemma ScenarioWrongScheme(kc: Keycloak)
    requires kc.deployment == Configured
    ensures ValidateRequest(LoginRequest(Some("Token abc123"), kc)) == Traced(Returned(NotDone), [])
  {
    assert "Token abc123"[0] != BearerTokenPrefix[0];
  }

  /** No header, a protected resource, and no configured deployment: a 401. */
  lemma ScenarioUnconfigured(kc: Keycloak)
    requires kc.deployment != Configured
    ensures ValidateRequest(LoginRequest(None, kc)) == Traced(Returned(SendFailure(true)), [])
  {
  }

  /** No header and a completed code flow for "bob": success with that
      principal, and the success event fired for it. */
  lemma ScenarioCodeFlow(kc: Keycloak)
    requires kc.deployment == Configured && kc.outcome == Authenticated
    requires kc.sessionToken == Some(Token("bob", []))
    ensures var t := ValidateRequest(LoginRequest(None, kc));
            && t.outcome.Returned? && t.outcome.value.Success?
            && t.outcome.value.caller.ValidatedCaller?
            && t.outcome.value.caller.principal.loginName == Some("bob")
            && t.events == [IdentityStoreCalled(TokenResponseCredential(kc.sessionToken)),
                            AuthenticationSucceeded(t.outcome.value.caller.principal)]
  {
    assert "bob"[0] == 'b';
  }

  /** A completed code flow whose preferred username is blank: the result
      constructor throws, so no success event is fired and the request fails
      with that exception. */
  lemma ScenarioBlankUsername(kc: Keycloak)
    requires kc.deployment == Configured && kc.outcome == Authenticated
    requires kc.sessionToken == Some(Token("  ", ["user"]))
    ensures ValidateRequest(LoginRequest(None, kc))
         == Traced(Threw(IllegalArgumentException), [IdentityStoreCalled(TokenResponseCredential(kc.sessionToken))])
  {
    assert IsBlank("  ");
  }

  /** No header and the code flow still in progress: the challenge is written
      and the client is told to continue. */
  lemma ScenarioChallenge(kc: Keycloak)
    requires kc.deployment == Configured && kc.outcome != Authenticated && kc.hasChallenge
    ensures ValidateRequest(LoginRequest(None, kc)) == Traced(Returned(SendContinue), [ChallengeSent])
  {
  }

  /** A request that already carries a principal succeeds with it and never
      reaches Keycloak. */
  lemma ScenarioAlreadyAuthenticated(kc: Keycloak)
    ensures var req := LoginRequest(Some("Bearer x"), kc).(userPrincipal := Some("carol"));
            ValidateRequest(req) == Traced(Returned(Success(PlatformCaller("carol"))),
                                           [CallerPrincipalCallback("carol")])
  {
  }
}
