/** The handler that declines to generate substitutes for a list of types.
    As written, an open generic definition anywhere in the list declines every
    type, not only types built from that definition. */
module SkipTypeHandler {
  import opened Wrappers
  import opened Types
  import opened MockCreating

  datatype SkipTypeMockHandler = SkipTypeMockHandler(types: seq<TypeDesc>)

  /** `Create(IEnumerable<Type>)` and `Create(params Type[])`; `None` stands
      for a null collection. */
  function Create(types: Option<seq<TypeDesc>>): (r: Result<SkipTypeMockHandler, Exception>)
    ensures r.Failure? <==> types.None?
    ensures r.Failure? ==> r.error == ArgumentNullException("types")
    ensures r.Success? ==> r.value.types == types.value
  {
    if types.None? then Failure(ArgumentNullException("types")) else Success(SkipTypeMockHandler(types.value))
  }

  /** `Create<T>()`: the same as creating from the one-element list `[T]`. */
  function CreateFor(t: TypeDesc): (r: Result<SkipTypeMockHandler, Exception>)
    ensures r == Create(Some([t]))
    ensures r.Success? && r.value.types == [t]
  {
    Create(Some([t]))
  }

  /** One listed type declines `requested`. */
  predicate Declines(listed: TypeDesc, requested: TypeDesc) {
    (listed.IsGenericType() && listed.IsGenericTypeDefinition()) || listed == requested
  }

  /** Reference description: some listed type declines the requested one. */
  predicate Skips(types: seq<TypeDesc>, requested: TypeDesc) {
    exists i :: 0 <= i < |types| && Declines(types[i], requested)
  }

  /** The context a handler over `types` leaves behind. */
  function Outcome(types: seq<TypeDesc>, c: MockCreatingContext): MockCreatingContext {
    if Skips(types, c.serviceType) then DoNotCreate(c) else c
  }

  /** `OnMockCreating`: visits the list in order, turning creation off for each
      open generic definition and for the requested type itself. */
  method OnMockCreating(h: SkipTypeMockHandler, c: MockCreatingContext) returns (r: MockCreatingContext)
    ensures r.serviceType == c.serviceType && r.hasRegistrations == c.hasRegistrations
    ensures r.shouldCreate <==> c.shouldCreate && !Skips(h.types, c.serviceType)
    ensures r == Outcome(h.types, c)
  {
    r := c;
    for i := 0 to |h.types|
      invariant r.serviceType == c.serviceType && r.hasRegistrations == c.hasRegistrations
      invariant r.shouldCreate <==> c.shouldCreate && !Skips(h.types[..i], c.serviceType)
    {
      var t := h.types[i];
      if t.IsGenericType() && t.IsGenericTypeDefinition() {
        r := DoNotCreate(r);
      } else if t == r.serviceType {
        r := DoNotCreate(r);
      }
      assert h.types[..i + 1] == h.types[..i] + [t];
    }
    assert h.types[..|h.types|] == h.types;
  }

  /** Only membership matters: the order and repetition of the list do not. */
  lemma OrderDoesNotMatter(a: seq<TypeDesc>, b: seq<TypeDesc>, c: MockCreatingContext)
    requires forall t :: t in a <==> t in b
    ensures Outcome(a, c) == Outcome(b, c)
  {
    if Skips(a, c.serviceType) {
      var i :| 0 <= i < |a| && Declines(a[i], c.serviceType);
      assert a[i] in b;
    }
    if Skips(b, c.serviceType) {
      var i :| 0 <= i < |b| && Declines(b[i], c.serviceType);
      assert b[i] in a;
    }
  }

  /** Running the handler twice is running it once. */
  lemma OutcomeIdempotent(types: seq<TypeDesc>, c: MockCreatingContext)
    ensures Outcome(types, Outcome(types, c)) == Outcome(types, c)
  {
  }

  /** A listed open generic definition declines every requested type. */
  lemma OpenDefinitionDeclinesEverything(types: seq<TypeDesc>, i: nat, c: MockCreatingContext)
    requires i < |types| && types[i].shape.OpenDefinition?
    ensures !Outcome(types, c).shouldCreate
  {
    assert Declines(types[i], c.serviceType);
  }

  /** A listed type is declined; an empty list declines nothing. */
  lemma ListedTypeIsDeclined(types: seq<TypeDesc>, c: MockCreatingContext)
    ensures c.serviceType in types ==> !Outcome(types, c).shouldCreate
    ensures types == [] ==> Outcome(types, c) == c
  {
    if c.serviceType in types {
      var i :| 0 <= i < |types| && types[i] == c.serviceType;
      assert Declines(types[i], c.serviceType);
    }
  }

  /** The handler made by `Create<T>()` declines a fresh context for `T`. */
  method SkipsRequestedType(t: TypeDesc, hasRegistrations: bool) returns (r: MockCreatingContext)
    ensures !r.shouldCreate
    ensures r.serviceType == t && r.hasRegistrations == hasRegistrations
  {
    var h := CreateFor(t);
    assert Declines(h.value.types[0], t);
    r := OnMockCreating(h.value, NewContext(t, hasRegistrations));
  }
}
