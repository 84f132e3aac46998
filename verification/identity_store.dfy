/** `OAuthIdentityStore`: turns a credential into a validation result,
    building a `JWTPrincipal` from the Keycloak access token on success and
    firing an `AuthenticationSuccessEvent` exactly when the result is VALID. */
module IdentityStore {
  import opened Wrappers
  import LinkedSet
  import opened JwtPrincipal
  import PrincipalBuilder

  /** Keycloak's realm-access block; its role set may be absent (null). */
  datatype Access = Access(roles: Option<seq<string>>)

  /** The fields of Keycloak's `AccessToken` that the store reads. */
  datatype AccessToken = AccessToken(
    preferredUsername: Option<string>,
    email: Option<string>,
    familyName: Option<string>,
    name: Option<string>,
    givenName: Option<string>,
    issuer: Option<string>,
    id: Option<string>,
    otherClaims: Claims,
    realmAccess: Option<Access>)

  /** Keycloak's `AuthOutcome`. */
  datatype AuthOutcome = NotAttempted | Failed | Authenticated | NotAuthenticated | LoggedOut

  /** What Keycloak's bearer-token authenticator reports when it inspects the
      current servlet request: its outcome, and the token it parsed (read only
      when the outcome is AUTHENTICATED). */
  datatype BearerCheck = BearerCheck(outcome: AuthOutcome, token: AccessToken)

  /** The credentials the store can be handed: the token obtained by the
      authorization-code flow (possibly null), the string stripped from a
      bearer header, or any other `Credential` implementation. */
  datatype Credential =
    | TokenResponseCredential(tokenResponse: Option<AccessToken>)
    | AccessTokenCredential(token: string)
    | OtherCredential

  /** `CredentialValidationResult`; `groups` is the copy of the groups the
      result was built with. */
  datatype ValidationResult =
    | Valid(caller: Principal, groups: set<string>)
    | Invalid
    | NotValidated

  datatype ValidationType = Validate | ProvideGroups

  /** Observable interactions of one request, in order: identity-store calls
      made by the mechanism, success events fired by the store, challenges
      written to the response and caller-principal callbacks. */
  datatype Event =
    | IdentityStoreCalled(credential: Credential)
    | AuthenticationSucceeded(principal: Principal)
    | ChallengeSent
    | CallerPrincipalCallback(name: string)

  /** A call's outcome together with the events it produced. */
  datatype Traced<+T> = Traced(outcome: Raised<T>, events: seq<Event>)

  /** The token carries a realm-access block with a role set. */
  predicate HasRealmRoles(token: AccessToken) {
    token.realmAccess.Some? && token.realmAccess.value.roles.Some?
  }

  /** The field mapping of `buildPrincipal`: name and login name are the
      preferred username, the profile fields are copied (full name from
      `name`, identifier from `id`), the claims are the other claims and the
      roles are the linked copy of the realm roles. */
  predicate MapsToken(p: Principal, token: AccessToken)
    requires HasRealmRoles(token)
  {
    && p.name == token.preferredUsername
    && p.loginName == token.preferredUsername
    && p.emailAddress == token.email
    && p.familyName == token.familyName
    && p.fullName == token.name
    && p.givenName == token.givenName
    && p.issuer == token.issuer
    && p.identifier == token.id
    && p.claims == token.otherClaims
    && p.roles == LinkedSet.FromSeq(token.realmAccess.value.roles.value)
  }

  /** `buildPrincipal`: reads the realm roles first (a token without a
      realm-access block throws there), then fills a fresh builder; a null
      role set throws inside `setRoles`. */
  function BuildPrincipal(token: AccessToken): (r: Raised<Principal>)
    ensures r.Threw? <==> !HasRealmRoles(token)
    ensures r.Threw? ==> r.error == NullPointerException
    ensures r.Returned? ==> MapsToken(r.value, token)
    ensures r.Returned? ==>
      && LinkedSet.NoDuplicates(r.value.roles)
      && LinkedSet.Elements(r.value.roles) == LinkedSet.Elements(token.realmAccess.value.roles.value)
  {
    match token.realmAccess
    case None => Threw(NullPointerException)
    case Some(access) =>
      var s0 := PrincipalBuilder.GetInstance(PrincipalBuilder.Heap([]), token.preferredUsername);
      var s1 := PrincipalBuilder.SetClaims(s0.heap, s0.builder, token.otherClaims);
      var s2 := PrincipalBuilder.SetString(s1.heap, s1.builder, EmailAddress, token.email);
      var s3 := PrincipalBuilder.SetString(s2.heap, s2.builder, FamilyName, token.familyName);
      var s4 := PrincipalBuilder.SetString(s3.heap, s3.builder, FullName, token.name);
      var s5 := PrincipalBuilder.SetString(s4.heap, s4.builder, GivenName, token.givenName);
      var s6 := PrincipalBuilder.SetString(s5.heap, s5.builder, Issuer, token.issuer);
      var s7 := PrincipalBuilder.SetString(s6.heap, s6.builder, Identifier, token.id);
      var s8 := PrincipalBuilder.SetString(s7.heap, s7.builder, LoginName, token.preferredUsername);
      match access.roles
      case None => Threw(NullPointerException)
      case Some(roles) =>
        var s9 := PrincipalBuilder.SetRoles(s8.heap, s8.builder, roles);
        Returned(s9.heap.objects[PrincipalBuilder.Build(s9.heap, s9.builder)])
  }

  /** `String.trim().isEmpty()`: every character is one that `trim` strips,
      that is, at most U+0020. */
  predicate IsBlank(s: string) {
    forall i :: 0 <= i < |s| ==> s[i] <= ' '
  }

  /** A caller name that a VALID result accepts: not null and not blank. */
  predicate NamesCaller(name: Option<string>) {
    name.Some? && !IsBlank(name.value)
  }

  /** A token the store turns into a VALID result: it has realm roles, and
      its preferred username, which becomes the caller name, names a caller. */
  predicate StoreAccepts(token: AccessToken) {
    HasRealmRoles(token) && NamesCaller(token.preferredUsername)
  }

  /** `new CredentialValidationResult(principal, principal.getRoles())`. The
      constructor of a VALID result reads `getName().trim()`, so a null
      caller name throws `NullPointerException` and a blank one
      `IllegalArgumentException`; otherwise it records the principal and a
      copy of the groups. */
  function ResultFor(p: Principal): (r: Raised<ValidationResult>)
    ensures r.Returned? <==> NamesCaller(p.name)
    ensures p.name.None? ==> r == Threw(NullPointerException)
    ensures p.name.Some? && IsBlank(p.name.value) ==> r == Threw(IllegalArgumentException)
    ensures r.Returned? ==>
      && r.value.Valid? && r.value.caller == p
      && CallerGroups(r.value) == LinkedSet.Elements(p.roles)
      && (forall role :: role in CallerGroups(r.value) <==> role in p.roles)
  {
    match p.name
    case None => Threw(NullPointerException)
    case Some(name) =>
      if IsBlank(name) then Threw(IllegalArgumentException)
      else Returned(Valid(p, LinkedSet.Elements(p.roles)))
  }

  /** `buildPrincipal(token)` followed by the result constructor, as both
      validation paths do: `buildPrincipal`'s exceptions come first, then the
      constructor's. */
  function ResultFromToken(token: AccessToken): (r: Raised<ValidationResult>)
    ensures !HasRealmRoles(token) ==> r == Threw(NullPointerException)
    ensures HasRealmRoles(token) && token.preferredUsername.None? ==> r == Threw(NullPointerException)
    ensures HasRealmRoles(token) && token.preferredUsername.Some? && IsBlank(token.preferredUsername.value) ==>
      r == Threw(IllegalArgumentException)
    ensures r.Returned? <==> StoreAccepts(token)
    ensures r.Returned? ==>
      && r.value.Valid?
      && MapsToken(r.value.caller, token)
      && r.value.groups == LinkedSet.Elements(r.value.caller.roles)
  {
    match BuildPrincipal(token)
    case Returned(p) => ResultFor(p)
    case Threw(e) => Threw(e)
  }

  /** `validate(TokenResponseCredential)`: a null token is INVALID; otherwise
      the result is built from the token, VALID exactly when the store
      accepts it. */
  function ValidateTokenResponse(token: Option<AccessToken>): (r: Raised<ValidationResult>)
    ensures token.None? ==> r == Returned(Invalid)
    ensures token.Some? ==> r == ResultFromToken(token.value)
    ensures r.Returned? && r.value.Valid? <==> token.Some? && StoreAccepts(token.value)
  {
    match token
    case None => Returned(Invalid)
    case Some(t) => ResultFromToken(t)
  }

  /** `validate(AccessTokenCredential)`: the credential's own string is never
      read; the bearer authenticator re-reads the servlet request, and only
      its AUTHENTICATED outcome leads to a result built from its token. */
  function ValidateAccessToken(credentialToken: string, bearer: BearerCheck): (r: Raised<ValidationResult>)
    ensures bearer.outcome != Authenticated ==> r == Returned(Invalid)
    ensures bearer.outcome == Authenticated ==> r == ResultFromToken(bearer.token)
    ensures r.Returned? && r.value.Valid? <==> bearer.outcome == Authenticated && StoreAccepts(bearer.token)
  {
    if bearer.outcome == Authenticated then
      ResultFromToken(bearer.token)
    else
      Returned(Invalid)
  }

  /** `validate(Credential)`: dispatch on the credential type, then fire the
      success event, carrying the caller principal, when the result is VALID. */
  function ValidateCredential(c: Credential, bearer: BearerCheck): (t: Traced<ValidationResult>)
    ensures c.TokenResponseCredential? ==> t.outcome == ValidateTokenResponse(c.tokenResponse)
    ensures c.AccessTokenCredential? ==> t.outcome == ValidateAccessToken(c.token, bearer)
    ensures c.OtherCredential? ==> t.outcome == Returned(NotValidated)
    ensures t.outcome == Returned(NotValidated) <==> c.OtherCredential?
    ensures t.events != [] <==> t.outcome.Returned? && t.outcome.value.Valid?
    ensures t.events != [] ==> t.events == [AuthenticationSucceeded(t.outcome.value.caller)]
    ensures t.outcome.Returned? && t.outcome.value.Valid? ==>
      && NamesCaller(t.outcome.value.caller.name)
      && t.outcome.value.caller.loginName == t.outcome.value.caller.name
  {
    var outcome :=
      match c
      case TokenResponseCredential(token) => ValidateTokenResponse(token)
      case AccessTokenCredential(token) => ValidateAccessToken(token, bearer)
      case OtherCredential => Returned(NotValidated);
    match outcome
    case Returned(Valid(p, _)) => Traced(outcome, [AuthenticationSucceeded(p)])
    case _ => Traced(outcome, [])
  }

  /** `validationTypes`: a linked set into which VALIDATE and then
      PROVIDE_GROUPS are added. */
  function ValidationTypes(): (r: seq<ValidationType>)
    ensures LinkedSet.NoDuplicates(r)
    ensures LinkedSet.Elements(r) == {Validate, ProvideGroups}
    ensures |r| == 2 && r[0] == Validate
  {
    LinkedSet.Add(LinkedSet.Add([], Validate), ProvideGroups)
  }

  /** `getCallerGroups`: the groups recorded in the result, unchanged; a
      result that is not VALID carries none. */
  function CallerGroups(r: ValidationResult): (groups: set<string>)
    ensures r.Valid? ==> groups == r.groups
    ensures !r.Valid? ==> groups == {}
  {
    match r
    case Valid(_, g) => g
    case _ => {}
  }

  /** Bearer validation depends on the servlet request only, never on the
      string stored in the credential. */
  lemma AccessTokenIgnoresCredentialString(s1: string, s2: string, bearer: BearerCheck)
    ensures ValidateCredential(AccessTokenCredential(s1), bearer)
         == ValidateCredential(AccessTokenCredential(s2), bearer)
  {
  }

  /** A token with realm roles gives a VALID result exactly when its
      preferred username names a caller, and that result's groups, as
      `getCallerGroups` returns them, are the token's realm roles. */
  lemma ValidGroupsAreRealmRoles(c: Credential, bearer: BearerCheck)
    requires c.TokenResponseCredential? && c.tokenResponse.Some?
    requires HasRealmRoles(c.tokenResponse.value)
    ensures var t := ValidateCredential(c, bearer);
            var token := c.tokenResponse.value;
            && (t.outcome.Returned? <==> NamesCaller(token.preferredUsername))
            && (t.outcome.Returned? ==>
                  && t.outcome.value.Valid?
                  && CallerGroups(t.outcome.value) == LinkedSet.Elements(token.realmAccess.value.roles.value)
                  && t.outcome.value.caller.loginName == token.preferredUsername)
  {
  }
}
