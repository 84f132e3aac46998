# Keycloak authentication mechanism for Java EE Security, in Dafny

This project models the request-authentication core of a Keycloak-backed
Java EE Security (Soteria) authentication mechanism and proves properties of
the model. It has three parts:

- `KeyCloakAuthenticationMechanism` decides for each HTTP request whether
  to do nothing, accept a principal that is already present, run Keycloak's
  authorization-code flow, or validate a bearer header.
- `OAuthIdentityStore` dispatches a credential to the token path or the
  bearer path. It builds a `JWTPrincipal` on success and fires an
  `AuthenticationSuccessEvent` exactly when the result is VALID.
- `JWTPrincipal` and its builder describe the principal record, its fluent
  setters and its `equals`.

Every Keycloak adapter answer and every container answer is an input fact of
the request. This covers the deployment state, the filter authenticator's
outcome and challenge, the actions handler, the bearer authenticator's
verdict and the callback handler's behaviour. The decision is a pure function
of those facts. It returns a status or a thrown exception, together with a
trace of observable interactions: identity-store calls, success events,
challenges written and caller-principal callbacks.

Files, one module each:

- `wrappers.dfy`: Java null as `Option`, and a returned value or thrown exception as `Raised`.
- `linked_set.dfy`: `LinkedHashSet` as a duplicate-free sequence kept in insertion order.
- `principal.dfy`: the `JWTPrincipal` record, its getters and `equals`.
- `builder.dfy`: `JWTPrincipalBuilder` over an explicit heap of principal objects. A builder is a reference, so `build` can return a shared object.
- `identity_store.dfy`: access tokens, credentials, validation results and `OAuthIdentityStore`.
- `mechanism.dfy`: request facts, statuses and `validateRequest`.
- `mechanism_properties.dfy`: properties relating several requests, and concrete scenarios.

Behaviour of the code that a reader might expect to be otherwise:

- Inside `validateRequest` there is a single user-principal check (`req.getUserPrincipal()`). There are no separate session and platform checks. The class is also annotated `@AutoApplySession`, whose container interceptor runs before the method; see "## Left out".
- The deployment check runs before the Authorization header is read, so it also guards the bearer path.
- Bearer validation re-reads the servlet request and never looks at the stripped token.
- The principal name and `loginName` are both copied from the preferred username without a check. `buildPrincipal` accepts a null or blank username, but the VALID-result constructor of the Java EE Security API reads `getName().trim()`. It throws `NullPointerException` for a null name and `IllegalArgumentException` for a blank one, meaning one made only of characters up to U+0020. The exception propagates out of `validate`, with no success event, and out of `validateRequest`. So every VALID result, and every SUCCESS from the store, has a non-blank name equal to its login name.
- `buildPrincipal` calls `setIssuer`, but the `JWTPrincipal` class declares neither an issuer field nor a `setIssuer` method. The model adds both, so that the token-to-principal mapping can be stated. `equals` ignores the issuer, as it ignores the principal name.
- A token without a realm-access block, or without realm roles, makes `buildPrincipal` throw `NullPointerException`. The exception propagates out of `validate` and `validateRequest`.
- The bearer prefix `"Bearer "` is matched case-sensitively. This is stricter than section 2.1 of RFC 7235, which makes scheme names case-insensitive.

The container operations follow the `HttpMessageContext` contract of the
Java EE Security API (JSR 375):

- `notifyContainerAboutLogin(result)` gives SUCCESS for a VALID result and SEND_FAILURE for anything else.
- `doNothing` gives NOT_DONE.
- `responseUnauthorized` gives SEND_FAILURE with a 401.

## Model

| member | source | states |
|---|---|---|
| LinkedSet.Add | src/main/java/net/odyssi/security/keycloak/common/model/JWTPrincipal.java:50-53 | adding to a linked set adds exactly that element, appends it only if it is new, keeps earlier elements in front and in order, and keeps the set duplicate-free |
| LinkedSet.AddIdempotent | src/main/java/net/odyssi/security/keycloak/common/model/JWTPrincipal.java:50-53 | adding the same element twice is the same as adding it once |
| LinkedSet.AddAll | src/main/java/net/odyssi/security/keycloak/common/model/JWTPrincipal.java:99-101 | adding a sequence of elements gives the union of the elements, stays duplicate-free and keeps the existing elements as a prefix |
| LinkedSet.FromSeq | src/main/java/net/odyssi/security/keycloak/common/model/JWTPrincipal.java:100 | the `LinkedHashSet` copy of a collection is duplicate-free, has the same elements, and is the collection itself when that has no duplicates |
| LinkedSet.AddAllSnoc | src/main/java/net/odyssi/security/keycloak/common/model/JWTPrincipal.java:100 | the copy inserts elements one after the other: copying `xs + [x]` is copying `xs` and then adding `x` |
| LinkedSet.AddAllDistinct | src/main/java/net/odyssi/security/keycloak/common/model/JWTPrincipal.java:100 | copying a duplicate-free collection keeps its order exactly |
| JwtPrincipal.With | src/main/java/net/odyssi/security/keycloak/common/model/JWTPrincipal.java:69-97 | writing one string field sets that field's getter to the new value and leaves every other field, the name, the claims and the roles unchanged (the `Issuer` field is the model's addition for `setIssuer`, which this class does not declare) |
| JwtPrincipal.Fresh | src/main/java/net/odyssi/security/keycloak/common/model/JWTPrincipal.java:107-125 | a new principal has the given name, empty claims, no roles, and every string field null rather than empty |
| JwtPrincipal.Equal | src/main/java/net/odyssi/security/keycloak/common/model/JWTPrincipal.java:132-201 | `equals` holds exactly when the claims, the role sets and every string getter except the issuer agree; the principal name is not compared |
| JwtPrincipal.EqualReflexive | src/main/java/net/odyssi/security/keycloak/common/model/JWTPrincipal.java:132-136 | every principal equals itself |
| JwtPrincipal.EqualSymmetric | src/main/java/net/odyssi/security/keycloak/common/model/JWTPrincipal.java:132-201 | `equals` is symmetric |
| JwtPrincipal.EqualTransitive | src/main/java/net/odyssi/security/keycloak/common/model/JWTPrincipal.java:132-201 | `equals` is transitive |
| JwtPrincipal.EqualIgnoresNameAndIssuer | src/main/java/net/odyssi/security/keycloak/common/model/JWTPrincipal.java:132-201 | two principals that differ only in name and issuer are equal |
| JwtPrincipal.EqualComparesRoleSets | src/main/java/net/odyssi/security/keycloak/common/model/JWTPrincipal.java:193-199 | roles are compared as sets: reordering them keeps equality, and changing their elements breaks it |
| PrincipalBuilder.GetInstance | src/main/java/net/odyssi/security/keycloak/common/model/JWTPrincipal.java:38-43 | `getInstance` allocates a new object, distinct from every earlier one, that holds a fresh principal with the given name, and leaves every earlier object unchanged |
| PrincipalBuilder.SetString | src/main/java/net/odyssi/security/keycloak/common/model/JWTPrincipal.java:69-97 | each string setter writes only its own field of the builder's object, touches no other object and returns the same builder; with field `Issuer` it is the `setIssuer` that `buildPrincipal` calls, which this class does not declare |
| PrincipalBuilder.SetClaims | src/main/java/net/odyssi/security/keycloak/common/model/JWTPrincipal.java:64-67 | `setClaims` stores the given claims and changes no other field or object |
| PrincipalBuilder.SetRoles | src/main/java/net/odyssi/security/keycloak/common/model/JWTPrincipal.java:99-102 | `setRoles` replaces the role set wholesale with a duplicate-free copy of the argument, and changes no other field or object |
| PrincipalBuilder.AddRole | src/main/java/net/odyssi/security/keycloak/common/model/JWTPrincipal.java:50-53 | `addRole` adds the role, keeps the earlier roles in front and in order, keeps the set duplicate-free, and changes nothing else |
| PrincipalBuilder.Build | src/main/java/net/odyssi/security/keycloak/common/model/JWTPrincipal.java:60-62 | `build` returns the builder's own object itself: the reference it returns is the builder's reference |
| PrincipalBuilder.AddRoleIdempotent | src/main/java/net/odyssi/security/keycloak/common/model/JWTPrincipal.java:50-53 | adding a role twice leaves the same heap and builder as adding it once |
| PrincipalBuilder.SetRolesDiscardsAddedRoles | src/main/java/net/odyssi/security/keycloak/common/model/JWTPrincipal.java:99-102 | after `addRole(r)` and then `setRoles(xs)`, the object has role `r` exactly when `xs` contains it |
| PrincipalBuilder.BuildSharesTheObject | src/main/java/net/odyssi/security/keycloak/common/model/JWTPrincipal.java:45-62 | repeated `build` calls return the same object, and a setter called after `build` changes that already returned object |
| IdentityStore.BuildPrincipal | src/main/java/net/odyssi/security/keycloak/auth/OAuthIdentityStore.java:67-92 | `buildPrincipal` throws `NullPointerException` exactly when the realm access block or its roles are null. Otherwise the name and login name are the preferred username, email, family name, given name and issuer are copied, the full name comes from `name`, the identifier from `id`, the claims from the other claims, and the roles are the linked copy of the realm roles |
| IdentityStore.ResultFor | src/main/java/net/odyssi/security/keycloak/auth/OAuthIdentityStore.java:162 | the VALID-result constructor throws `NullPointerException` for a null caller name and `IllegalArgumentException` for a blank one; otherwise the result is VALID with that principal as caller, and its caller groups are exactly the principal's roles |
| IdentityStore.ResultFromToken | src/main/java/net/odyssi/security/keycloak/auth/OAuthIdentityStore.java:250-251 | building the principal and then the result throws `NullPointerException` without realm roles or with a null preferred username, and `IllegalArgumentException` with a blank one; it returns exactly for a token the store accepts, and then gives VALID for the principal mapped from the token with its roles as groups |
| IdentityStore.ValidateTokenResponse | src/main/java/net/odyssi/security/keycloak/auth/OAuthIdentityStore.java:230-258 | a null token gives INVALID; otherwise the result is the one built from the token, so it is VALID exactly for a non-null token with realm roles and a non-blank preferred username |
| IdentityStore.ValidateAccessToken | src/main/java/net/odyssi/security/keycloak/auth/OAuthIdentityStore.java:137-173 | the result is INVALID unless the bearer authenticator reports AUTHENTICATED; if it does, the result is the one built from the authenticator's token, VALID exactly when that token has realm roles and a non-blank preferred username |
| IdentityStore.ValidateCredential | src/main/java/net/odyssi/security/keycloak/auth/OAuthIdentityStore.java:183-222 | dispatch sends token-response credentials to the token path and access-token credentials to the bearer path; any other credential gives NOT_VALIDATED and only it does; the success event fires exactly once, with the caller principal, exactly when the result is VALID; a VALID caller's name is non-null, non-blank and equal to its login name |
| IdentityStore.ValidationTypes | src/main/java/net/odyssi/security/keycloak/auth/OAuthIdentityStore.java:266-280 | the validation types are VALIDATE followed by PROVIDE_GROUPS, without duplicates |
| IdentityStore.CallerGroups | src/main/java/net/odyssi/security/keycloak/auth/OAuthIdentityStore.java:102-113 | `getCallerGroups` returns a VALID result's groups unchanged, and no groups for any other result |
| IdentityStore.AccessTokenIgnoresCredentialString | src/main/java/net/odyssi/security/keycloak/auth/OAuthIdentityStore.java:142-147 | validating an access-token credential gives the same result and events whatever string the credential holds |
| IdentityStore.ValidGroupsAreRealmRoles | src/main/java/net/odyssi/security/keycloak/auth/OAuthIdentityStore.java:236-252 | a non-null token with realm roles validates without exception exactly when its preferred username is non-null and non-blank, and then the result is VALID, its caller groups are the token's realm roles and its login name is the preferred username |
| AuthenticationMechanism.StripBearer | src/main/java/net/odyssi/security/keycloak/auth/KeyCloakAuthenticationMechanism.java:245-246 | the stripped token is the header minus exactly the seven-character prefix: the prefix followed by the token is the header again |
| AuthenticationMechanism.NotifyContainerAboutLogin | src/main/java/net/odyssi/security/keycloak/auth/KeyCloakAuthenticationMechanism.java:218 | the container answers SUCCESS exactly for a VALID result and registers its principal and groups; every other result gets SEND_FAILURE without a 401 |
| AuthenticationMechanism.CallStore | src/main/java/net/odyssi/security/keycloak/auth/KeyCloakAuthenticationMechanism.java:209-218 | the store call comes first in the trace and the store adds only success events after it; a store exception propagates, and otherwise the status is the container's answer to the store's result; SUCCESS follows a success event for its principal |
| AuthenticationMechanism.IsLoginRequest | src/main/java/net/odyssi/security/keycloak/auth/KeyCloakAuthenticationMechanism.java:96-120 | a request is a login request exactly when it is an authentication request or for a protected resource |
| AuthenticationMechanism.PerformKeyCloakLogin | src/main/java/net/odyssi/security/keycloak/auth/KeyCloakAuthenticationMechanism.java:132-277 | a missing or unconfigured deployment gives an unauthorized failure with no interaction. With no header, an authenticated code flow sends the session token to the store and reports the store's result; otherwise the result is SEND_CONTINUE after a challenge, or SEND_FAILURE when there is none. A header with the bearer prefix sends the stripped token to the store; any other header gives NOT_DONE without calling the store. SUCCESS always follows a success event for its principal |
| AuthenticationMechanism.ValidateRequest | src/main/java/net/odyssi/security/keycloak/auth/KeyCloakAuthenticationMechanism.java:288-358 | of the `validateRequest` method itself: with no adapter config the result is NOT_DONE with no interaction. A user principal goes to the callback handler and gives SUCCESS, or throws AuthenticationException when the handler fails. Otherwise a login request is handed to the Keycloak login and any other request gets NOT_DONE. AuthenticationException arises only from the callback |
| MechanismProperties.NoConfigDecidesAlone | src/main/java/net/odyssi/security/keycloak/auth/KeyCloakAuthenticationMechanism.java:295-301 | without adapter config the `validateRequest` method gives every request the same answer, NOT_DONE |
| MechanismProperties.UserPrincipalShortCircuits | src/main/java/net/odyssi/security/keycloak/auth/KeyCloakAuthenticationMechanism.java:304-319 | with a user principal, changing the login classification, the header or any Keycloak answer does not change the result, and the identity store is never called |
| MechanismProperties.NewAuthenticationNeverMatters | src/main/java/net/odyssi/security/keycloak/auth/KeyCloakAuthenticationMechanism.java:330-336 | the new-authentication flag never changes the result |
| MechanismProperties.ActionsHandlerNeverMatters | src/main/java/net/odyssi/security/keycloak/auth/KeyCloakAuthenticationMechanism.java:189-200 | the actions handler's answer never changes the result |
| MechanismProperties.UnconfiguredDeploymentIgnoresHeader | src/main/java/net/odyssi/security/keycloak/auth/KeyCloakAuthenticationMechanism.java:140-154 | on the login path, a missing or unconfigured deployment gives the unauthorized failure whatever the Authorization header is |
| MechanismProperties.LoginStoreCall | src/main/java/net/odyssi/security/keycloak/auth/KeyCloakAuthenticationMechanism.java:140-270 | the Keycloak login calls the store only with a configured deployment: after an authenticated code flow with the session token, or with a bearer header and its stripped token; the call happens once, and first |
| MechanismProperties.StoreReachedOnlyOnLoginPath | src/main/java/net/odyssi/security/keycloak/auth/KeyCloakAuthenticationMechanism.java:295-351 | a request reaches the identity store only if it has config, has no user principal, is a login request and has a configured deployment; the store is called with the credential of that path, exactly once |
| MechanismProperties.SuccessCarriesItsEvidence | src/main/java/net/odyssi/security/keycloak/auth/KeyCloakAuthenticationMechanism.java:304-343 | SUCCESS registers either the request's own principal, with no store call, or a validated principal whose success event was fired last and whose groups are its roles |
| MechanismProperties.StoreSuccessNamesCaller | src/main/java/net/odyssi/security/keycloak/auth/KeyCloakAuthenticationMechanism.java:209-218 | a SUCCESS for a caller validated by the store always has a login name that is non-null and non-blank, equal to the principal name |
| MechanismProperties.BearerDecisionFollowsVerdict | src/main/java/net/odyssi/security/keycloak/auth/KeyCloakAuthenticationMechanism.java:245-261 | two bearer headers on which the bearer authenticator gives the same verdict get the same status, whatever tokens follow the prefix, because the stripped token is never validated |
| MechanismProperties.BearerStatusFollowsVerdict | src/main/java/net/odyssi/security/keycloak/auth/KeyCloakAuthenticationMechanism.java:245-261 | for a bearer header the status is the authenticator's verdict on that header: SEND_FAILURE without a 401 when it rejects the token; for an accepted token, `NullPointerException` without realm roles or with a null preferred username, `IllegalArgumentException` with a blank one, and otherwise SUCCESS for the principal mapped from the token |
| MechanismProperties.BearerPrefixIsExact | src/main/java/net/odyssi/security/keycloak/common/Constants.java:16 | `"Bearer "` strips to the empty token, and `"bearer x"`, `"BEARER x"`, `"Token x"`, `"Bearer"` and `" "` do not carry the prefix |
| MechanismProperties.MalformedHeaderDoesNothing | src/main/java/net/odyssi/security/keycloak/auth/KeyCloakAuthenticationMechanism.java:262-268 | a non-empty header without the exact prefix gives NOT_DONE with no interaction, and the store is not called |
| MechanismProperties.ScenarioBearerAccepted | src/main/java/net/odyssi/security/keycloak/auth/KeyCloakAuthenticationMechanism.java:245-261 | a header `Bearer abc123` that the bearer authenticator accepts for alice in role user gives SUCCESS for login name alice with groups {user}, after a store call with token abc123 |
| MechanismProperties.ScenarioWrongScheme | src/main/java/net/odyssi/security/keycloak/auth/KeyCloakAuthenticationMechanism.java:262-268 | a header `Token abc123` gives NOT_DONE with no interaction |
| MechanismProperties.ScenarioUnconfigured | src/main/java/net/odyssi/security/keycloak/auth/KeyCloakAuthenticationMechanism.java:142-147 | no header, a protected resource and no configured deployment give SEND_FAILURE with a 401 |
| MechanismProperties.ScenarioCodeFlow | src/main/java/net/odyssi/security/keycloak/auth/KeyCloakAuthenticationMechanism.java:183-218 | no header and a completed code flow for bob give SUCCESS for bob, after exactly one store call and one success event |
| MechanismProperties.ScenarioBlankUsername | src/main/java/net/odyssi/security/keycloak/auth/OAuthIdentityStore.java:250-251 | a completed code flow whose preferred username is blank throws `IllegalArgumentException` after the store call, with no success event |
| MechanismProperties.ScenarioChallenge | src/main/java/net/odyssi/security/keycloak/auth/KeyCloakAuthenticationMechanism.java:219-242 | no header and an unfinished code flow with a challenge give SEND_CONTINUE after the challenge is sent |
| MechanismProperties.ScenarioAlreadyAuthenticated | src/main/java/net/odyssi/security/keycloak/auth/KeyCloakAuthenticationMechanism.java:304-319 | a request that already has a principal gets SUCCESS with that principal, after only the caller callback, even with a bearer header present |

## Left out

- Keycloak adapter internals are input facts of the request: deployment building, `FilterRequestAuthenticator`, `BearerTokenRequestAuthenticator`, `OIDCFilterSessionStore`, `AuthChallenge.challenge` and `AuthenticatedActionsHandler`. They are foreign library code. The session-store and port arguments (100000 and 8443) are not modelled.
- The bearer authenticator's verdict is an input, given as a function of the request's Authorization header. Keycloak's token parsing and signature checks, which produce that verdict, are not modelled.
- `@AutoApplySession` (KeyCloakAuthenticationMechanism.java:52) is not modelled. It is container code that wraps the method in two ways. First, if the request already has a user principal, the interceptor runs the caller-principal callback and returns SUCCESS without calling `validateRequest`, whatever the adapter config. Second, when the method returns SUCCESS, the interceptor asks the container to register a session. Every statement about `ValidateRequest`, `NoConfigDecidesAlone` and the other `MechanismProperties` lemmas is about the `validateRequest` method itself, not about the mechanism as the container calls it.
- Exceptions thrown inside the container's `notifyContainerAboutLogin` or `responseUnauthorized`, and runtime exceptions from Keycloak, are not modelled. They are container and library behaviour.
- `cleanSubject` only delegates to the interface default.
- Logging is not modelled. The values that are only logged (the request URI and the token string) are left out.
- CDI injection and `@PostConstruct init` are not modelled: the deployment is an input.
- `AdapterConfigProducer` (classpath I/O and JSON parsing) is reduced to the "config present" input.
- `JWTPrincipalProducer` only casts the container's caller principal.
- `AuthenticationSuccessEvent` delivery is not modelled. Firing the event appends `AuthenticationSucceeded` to the trace.
- The issuer is not part of `JWTPrincipal`: its fields (JWTPrincipal.java:107-121) and setters (64-102) have no issuer, yet `buildPrincipal` calls `setIssuer` (OAuthIdentityStore.java:81). The `Issuer` field and its setter are additions of the model.
- `JWTPrincipal.hashCode` and `toString` are not modelled. They depend on Java string hashing, 32-bit overflow and formatting.
- JWTPrincipal getters are the datatype's field selectors and `JwtPrincipal.Get`, not separate members, because they return the stored value with no copy.
- PrincipalBuilder.SetClaims and PrincipalBuilder.SetRoles: the defensive copy holds trivially, because Dafny maps and sequences are values. A caller cannot mutate an argument afterwards, so "later mutation does not reach the principal" is true by construction rather than proved.
- Claim values are opaque JSON text. Their mutability is not modelled: `new HashMap<>(claims)` is a shallow copy.
- The argument of `setRoles` is a sequence in the Java set's iteration order. A null argument is reachable only through `buildPrincipal`, where it is modelled as `NullPointerException`. A null argument to `setClaims` cannot occur there, because Keycloak's other-claims map is never null.
