/** The `JWTPrincipal` record: a caller principal carrying the profile fields,
    claims and roles read from a Keycloak access token. */
module JwtPrincipal {
  import opened Wrappers
  import LinkedSet

  /** A claim value is an arbitrary JSON value; the model keeps its JSON text. */
  datatype ClaimValue = ClaimValue(json: string)

  type Claims = map<string, ClaimValue>

  /** Every string field is nullable (`None` is Java null). `name` is the
      `CallerPrincipal` name given to the constructor; `roles` is a
      `LinkedHashSet`, kept in insertion order without duplicates. `issuer`
      is what `buildPrincipal` hands to `setIssuer`; the `JWTPrincipal` class
      declares neither that field nor that setter, so the model adds it, and
      `equals` does not look at it. */
  datatype Principal = Principal(
    name: Option<string>,
    claims: Claims,
    emailAddress: Option<string>,
    familyName: Option<string>,
    fullName: Option<string>,
    givenName: Option<string>,
    identifier: Option<string>,
    loginName: Option<string>,
    issuer: Option<string>,
    roles: seq<string>)

  /** The nullable string fields, each with its own setter and getter. */
  datatype Field =
    | EmailAddress | FamilyName | FullName | GivenName | Identifier | LoginName | Issuer

  /** The getter of a string field: the stored value, with no copy. */
  function Get(p: Principal, f: Field): Option<string> {
    match f
    case EmailAddress => p.emailAddress
    case FamilyName => p.familyName
    case FullName => p.fullName
    case GivenName => p.givenName
    case Identifier => p.identifier
    case LoginName => p.loginName
    case Issuer => p.issuer
  }

  /** Writes one string field and leaves everything else as it was. */
  function With(p: Principal, f: Field, v: Option<string>): (q: Principal)
    ensures Get(q, f) == v
    ensures forall g :: g != f ==> Get(q, g) == Get(p, g)
    ensures q.name == p.name && q.claims == p.claims && q.roles == p.roles
  {
    match f
    case EmailAddress => p.(emailAddress := v)
    case FamilyName => p.(familyName := v)
    case FullName => p.(fullName := v)
    case GivenName => p.(givenName := v)
    case Identifier => p.(identifier := v)
    case LoginName => p.(loginName := v)
    case Issuer => p.(issuer := v)
  }

  /** `new JWTPrincipal(name)`: the field initialisers leave every string
      field null (not empty) and the claims and roles empty. */
  function Fresh(name: Option<string>): (p: Principal)
    ensures p.name == name
    ensures p.claims == map[] && p.roles == []
    ensures forall f :: Get(p, f) == None
  {
    Principal(name, map[], None, None, None, None, None, None, None, [])
  }

  /** `equals`: null-safe comparison of claims, the six profile strings and
      the role set. The principal name and the issuer take no part, and roles
      compare as sets, as `Set.equals` does. */
  predicate Equal(p: Principal, q: Principal)
    ensures Equal(p, q) <==>
      && p.claims == q.claims
      && LinkedSet.Elements(p.roles) == LinkedSet.Elements(q.roles)
      && (forall f :: f != Issuer ==> Get(p, f) == Get(q, f))
  {
    assert Get(p, EmailAddress) == p.emailAddress && Get(q, EmailAddress) == q.emailAddress;
    assert Get(p, FamilyName) == p.familyName && Get(q, FamilyName) == q.familyName;
    assert Get(p, FullName) == p.fullName && Get(q, FullName) == q.fullName;
    assert Get(p, GivenName) == p.givenName && Get(q, GivenName) == q.givenName;
    assert Get(p, Identifier) == p.identifier && Get(q, Identifier) == q.identifier;
    assert Get(p, LoginName) == p.loginName && Get(q, LoginName) == q.loginName;
    && p.claims == q.claims
    && p.emailAddress == q.emailAddress
    && p.familyName == q.familyName
    && p.fullName == q.fullName
    && p.givenName == q.givenName
    && p.identifier == q.identifier
    && p.loginName == q.loginName
    && LinkedSet.Elements(p.roles) == LinkedSet.Elements(q.roles)
  }

  lemma EqualReflexive(p: Principal)
    ensures Equal(p, p)
  {
  }

  lemma EqualSymmetric(p: Principal, q: Principal)
    ensures Equal(p, q) <==> Equal(q, p)
  {
  }

  lemma EqualTransitive(p: Principal, q: Principal, s: Principal)
    requires Equal(p, q) && Equal(q, s)
    ensures Equal(p, s)
  {
  }

  /** Two principals that differ only in name and issuer are equal. */
  lemma EqualIgnoresNameAndIssuer(p: Principal, name: Option<string>, issuer: Option<string>)
    ensures Equal(p, p.(name := name, issuer := issuer))
  {
  }

  /** Role order is invisible to `equals`, but a changed role set is not. */
  lemma EqualComparesRoleSets(p: Principal, roles: seq<string>)
    ensures Equal(p, p.(roles := roles)) <==> LinkedSet.Elements(roles) == LinkedSet.Elements(p.roles)
  {
  }
}
