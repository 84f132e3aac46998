/** `JWTPrincipal.JWTPrincipalBuilder`. The builder holds a reference to one
    mutable principal object and every setter writes through it, so the model
    keeps the principal objects in an explicit heap: a builder is a reference
    into it, and `build` hands out that same reference. */
module PrincipalBuilder {
  import opened Wrappers
  import LinkedSet
  import opened JwtPrincipal

  /** The principal objects allocated so far; a reference is an index. */
  datatype Heap = Heap(objects: seq<Principal>)

  /** A builder: the reference to the principal it fills in. */
  datatype Builder = Builder(ref: nat)

  /** What a fluent setter leaves behind: the updated heap and the builder it
      returns (`return this`). */
  datatype Step = Step(heap: Heap, builder: Builder)

  /** A builder made by `getInstance` always points at an allocated object. */
  predicate Valid(h: Heap, b: Builder) {
    b.ref < |h.objects|
  }

  /** The heap changes at most at reference `ref`. */
  predicate OthersUnchanged(h: Heap, h': Heap, ref: nat) {
    && |h'.objects| == |h.objects|
    && forall i :: 0 <= i < |h.objects| && i != ref ==> h'.objects[i] == h.objects[i]
  }

  /** Replaces the object at the builder's reference. */
  function Store(h: Heap, b: Builder, p: Principal): (r: Step)
    requires Valid(h, b)
    ensures r.builder == b && Valid(r.heap, b)
    ensures OthersUnchanged(h, r.heap, b.ref) && r.heap.objects[b.ref] == p
  {
    Step(Heap(h.objects[b.ref := p]), b)
  }

  /** `getInstance(name)`: allocates a new principal with that name and all
      defaults; every object allocated earlier is left alone. */
  function GetInstance(h: Heap, name: Option<string>): (r: Step)
    ensures Valid(r.heap, r.builder)
    ensures r.builder.ref >= |h.objects|
    ensures r.heap.objects[r.builder.ref] == Fresh(name)
    ensures r.heap.objects[..|h.objects|] == h.objects
  {
    Step(Heap(h.objects + [Fresh(name)]), Builder(|h.objects|))
  }

  /** The setters of the string fields (`setEmailAddress` … `setLoginName`):
      each writes only its own field and returns the same builder. With field
      `Issuer` this is also the `setIssuer` that `buildPrincipal` calls; the
      `JWTPrincipal` class declares neither that setter nor an issuer field,
      so both are additions of the model. */
  function SetString(h: Heap, b: Builder, f: Field, v: Option<string>): (r: Step)
    requires Valid(h, b)
    ensures r.builder == b && Valid(r.heap, b)
    ensures OthersUnchanged(h, r.heap, b.ref)
    ensures Get(r.heap.objects[b.ref], f) == v
    ensures forall g :: g != f ==> Get(r.heap.objects[b.ref], g) == Get(h.objects[b.ref], g)
    ensures r.heap.objects[b.ref].name == h.objects[b.ref].name
    ensures r.heap.objects[b.ref].claims == h.objects[b.ref].claims
    ensures r.heap.objects[b.ref].roles == h.objects[b.ref].roles
  {
    Store(h, b, With(h.objects[b.ref], f, v))
  }

  /** `setClaims`: stores a copy of the map; the other fields stay. A Dafny map
      is a value, so later changes by the caller cannot reach the copy. */
  function SetClaims(h: Heap, b: Builder, claims: Claims): (r: Step)
    requires Valid(h, b)
    ensures r.builder == b && Valid(r.heap, b)
    ensures OthersUnchanged(h, r.heap, b.ref)
    ensures r.heap.objects[b.ref].claims == claims
    ensures r.heap.objects[b.ref] == h.objects[b.ref].(claims := r.heap.objects[b.ref].claims)
  {
    Store(h, b, h.objects[b.ref].(claims := claims))
  }

  /** `setRoles`: replaces the role set wholesale by a fresh `LinkedHashSet`
      copy of the argument, discarding roles added before. */
  function SetRoles(h: Heap, b: Builder, roles: seq<string>): (r: Step)
    requires Valid(h, b)
    ensures r.builder == b && Valid(r.heap, b)
    ensures OthersUnchanged(h, r.heap, b.ref)
    ensures r.heap.objects[b.ref].roles == LinkedSet.FromSeq(roles)
    ensures LinkedSet.NoDuplicates(r.heap.objects[b.ref].roles)
    ensures LinkedSet.Elements(r.heap.objects[b.ref].roles) == LinkedSet.Elements(roles)
    ensures LinkedSet.NoDuplicates(roles) ==> r.heap.objects[b.ref].roles == roles
    ensures r.heap.objects[b.ref] == h.objects[b.ref].(roles := r.heap.objects[b.ref].roles)
  {
    Store(h, b, h.objects[b.ref].(roles := LinkedSet.FromSeq(roles)))
  }

  /** `addRole`: adds one role to the object's linked role set, keeping the
      roles already there in front and in order. */
  function AddRole(h: Heap, b: Builder, role: string): (r: Step)
    requires Valid(h, b)
    ensures r.builder == b && Valid(r.heap, b)
    ensures OthersUnchanged(h, r.heap, b.ref)
    ensures var old_roles := h.objects[b.ref].roles;
            var new_roles := r.heap.objects[b.ref].roles;
            && LinkedSet.Elements(new_roles) == LinkedSet.Elements(old_roles) + {role}
            && |old_roles| <= |new_roles| && new_roles[..|old_roles|] == old_roles
            && (LinkedSet.NoDuplicates(old_roles) ==> LinkedSet.NoDuplicates(new_roles))
            && (role in old_roles <==> new_roles == old_roles)
    ensures r.heap.objects[b.ref] == h.objects[b.ref].(roles := r.heap.objects[b.ref].roles)
  {
    var p := h.objects[b.ref];
    Store(h, b, p.(roles := LinkedSet.Add(p.roles, role)))
  }

  /** `build`: returns the builder's one principal object, not a copy. */
  function Build(h: Heap, b: Builder): (ref: nat)
    requires Valid(h, b)
    ensures ref == b.ref
    ensures ref < |h.objects| && h.objects[ref] == h.objects[b.ref]
  {
    b.ref
  }

  /** Adding a role twice leaves the same object as adding it once. */
  lemma AddRoleIdempotent(h: Heap, b: Builder, role: string)
    requires Valid(h, b)
    ensures var once := AddRole(h, b, role);
            AddRole(once.heap, once.builder, role) == once
  {
    var once := AddRole(h, b, role);
    var twice := AddRole(once.heap, once.builder, role);
    assert twice.heap.objects == once.heap.objects;
  }

  /** `setRoles` after `addRole` forgets the added role unless the new set
      has it. */
  lemma SetRolesDiscardsAddedRoles(h: Heap, b: Builder, role: string, roles: seq<string>)
    requires Valid(h, b)
    ensures var added := AddRole(h, b, role);
            var replaced := SetRoles(added.heap, added.builder, roles);
            role in replaced.heap.objects[b.ref].roles <==> role in roles
  {
    var added := AddRole(h, b, role);
    var replaced := SetRoles(added.heap, added.builder, roles);
    assert role in replaced.heap.objects[b.ref].roles <==> role in LinkedSet.Elements(replaced.heap.objects[b.ref].roles);
  }

  /** Two `build` calls on one builder return the same object, and a setter
      called after `build` changes that already returned object. */
  lemma BuildSharesTheObject(h: Heap, b: Builder, f: Field, v: Option<string>)
    requires Valid(h, b)
    ensures var first := Build(h, b);
            var later := SetString(h, b, f, v);
            && first == Build(later.heap, later.builder)
            && Get(later.heap.objects[first], f) == v
  {
  }
}
