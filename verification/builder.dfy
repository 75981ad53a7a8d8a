/** The configuration builder's own bookkeeping: the per-type substitute
    registry, the type-keyed custom-data cache, the after-build callbacks and
    the provided-value handles that become readable once the container is
    built. Builders made with the protected copy constructor share every store
    with the builder they were made from, so the model keeps builders, stores
    and provided values in an explicit heap (`World`) and lets builder handles
    alias the same store. */
module Builder {
  import opened Wrappers
  import opened Types
  import opened Components

  /** `SubstituteForBuilder<TService>`: the service, the index of its
      registration in the shared registration list, and whether it was made by
      `SubstituteFor` (true) or `SubstituteForPartsOf` (false). */
  datatype SubstituteForBuilder = SubstituteForBuilder(service: TypeDesc, registration: nat, isSubstituteFor: bool)

  /** A built container, produced outside this model. */
  datatype Container = Container(id: nat)

  /** A provided value's factory: resolve the keyed service registered by
      `Provide`, or a caller-supplied delegate. */
  datatype ValueFactory = ResolveKeyed(service: TypeDesc, key: nat) | UserFactory(id: nat)

  /** Objects are kept symbolic: an opaque instance, or what a factory
      returns when applied to a container. */
  datatype Obj = Instance(id: nat) | Produced(factory: ValueFactory, context: Container)

  /** `ProvidedValue<T>`: its factory and the component context, null (`None`)
      until the after-build callback sets it. */
  datatype ProvidedValue = ProvidedValue(factory: ValueFactory, context: Option<Container>)

  /** An after-build action: the one `CreateProvidedValue` registers for a
      handle, or one registered by a derived builder whose effect lies outside
      this model. */
  datatype BuildCallback = SetComponentContext(handle: nat) | UserCallback(id: nat)

  /** The four stores a builder and all builders derived from it share. */
  datatype Store = Store(
    substitutes: map<TypeDesc, SubstituteForBuilder>,
    customData: map<TypeDesc, Obj>,
    afterBuildActions: seq<BuildCallback>,
    registrations: seq<Registration>)

  const EmptyStore: Store := Store(map[], map[], [], [])

  /** The heap: stores, builder objects (each pointing at its store),
      provided-value objects, and the source of fresh registration keys
      (`new object()`). */
  datatype World = World(stores: seq<Store>, builders: seq<nat>, provided: seq<ProvidedValue>, nextKey: nat)

  predicate WellFormed(w: World) {
    forall b :: 0 <= b < |w.builders| ==> w.builders[b] < |w.stores|
  }

  /** `b` names a builder object of a well-formed heap. */
  predicate IsBuilder(w: World, b: nat) {
    WellFormed(w) && b < |w.builders|
  }

  function StoreOf(w: World, b: nat): Store
    requires IsBuilder(w, b)
  {
    w.stores[w.builders[b]]
  }

  /** Replaces the store `b` points at; every builder sharing it sees the
      change and no other store is touched. */
  function WithStore(w: World, b: nat, s: Store): (r: World)
    requires IsBuilder(w, b)
    ensures IsBuilder(r, b) && StoreOf(r, b) == s
    ensures r.builders == w.builders && r.provided == w.provided && r.nextKey == w.nextKey
    ensures |r.stores| == |w.stores|
    ensures forall i :: 0 <= i < |w.stores| && i != w.builders[b] ==> r.stores[i] == w.stores[i]
  {
    w.(stores := w.stores[w.builders[b] := s])
  }

  /** `new AutoSubstituteBuilder()`: a new builder object with stores of its
      own, shared with no existing builder. */
  function NewBuilder(w: World): (r: (World, nat))
    requires WellFormed(w)
    ensures IsBuilder(r.0, r.1) && r.1 == |w.builders|
    ensures StoreOf(r.0, r.1) == EmptyStore
    ensures forall b :: 0 <= b < |w.builders| ==> r.0.builders[b] == w.builders[b] != r.0.builders[r.1]
    ensures |r.0.stores| == |w.stores| + 1 && r.0.stores[..|w.stores|] == w.stores && r.0.provided == w.provided
  {
    (w.(stores := w.stores + [EmptyStore], builders := w.builders + [|w.stores|]), |w.builders|)
  }

  /** The protected copy constructor: a new builder object that shares every
      store of `other`. */
  function Derive(w: World, other: nat): (r: (World, nat))
    requires IsBuilder(w, other)
    ensures IsBuilder(r.0, r.1) && IsBuilder(r.0, other) && r.1 == |w.builders|
    ensures r.0.builders[r.1] == r.0.builders[other]
    ensures StoreOf(r.0, r.1) == StoreOf(w, other)
    ensures r.0.stores == w.stores && r.0.provided == w.provided && r.0.builders[..|w.builders|] == w.builders
  {
    (w.(builders := w.builders + [w.builders[other]]), |w.builders|)
  }

  // ----- Custom data -----

  datatype CustomData = CustomData(world: World, data: Obj, factoryCalled: bool)

  /** `GetCustomData<T>(factory)`: `created` is what the factory returns if
      it is called; `factoryCalled` records whether it was. */
  function GetCustomData(w: World, b: nat, t: TypeDesc, created: Obj): (r: CustomData)
    requires IsBuilder(w, b)
    ensures IsBuilder(r.world, b)
    ensures r.factoryCalled <==> t !in StoreOf(w, b).customData
    ensures !r.factoryCalled ==> r.world == w && r.data == StoreOf(w, b).customData[t]
    ensures r.factoryCalled ==> r.data == created
    ensures t in StoreOf(r.world, b).customData && StoreOf(r.world, b).customData[t] == r.data
    ensures forall u :: u != t ==>
              && (u in StoreOf(r.world, b).customData <==> u in StoreOf(w, b).customData)
              && (u in StoreOf(w, b).customData ==> StoreOf(r.world, b).customData[u] == StoreOf(w, b).customData[u])
    ensures StoreOf(r.world, b).substitutes == StoreOf(w, b).substitutes
    ensures StoreOf(r.world, b).afterBuildActions == StoreOf(w, b).afterBuildActions
    ensures StoreOf(r.world, b).registrations == StoreOf(w, b).registrations
    ensures r.world.builders == w.builders && r.world.provided == w.provided
    ensures |r.world.stores| == |w.stores|
    ensures forall i :: 0 <= i < |w.stores| && i != w.builders[b] ==> r.world.stores[i] == w.stores[i]
  {
    var s := StoreOf(w, b);
    if t in s.customData then
      CustomData(w, s.customData[t], false)
    else
      CustomData(WithStore(w, b, s.(customData := s.customData[t := created])), created, true)
  }

  /** A second request for the same type returns the first one's object,
      whatever factory it is given, and changes nothing. */
  lemma GetCustomDataIsMemoised(w: World, b: nat, t: TypeDesc, first: Obj, second: Obj)
    requires IsBuilder(w, b)
    ensures var r1 := GetCustomData(w, b, t, first);
            var r2 := GetCustomData(r1.world, b, t, second);
            !r2.factoryCalled && r2.data == r1.data && r2.world == r1.world
  {
  }

  /** Custom data stored through a derived builder is what the original
      builder reads back, and the other way round. */
  lemma DerivedBuilderSharesCustomData(w: World, b: nat, t: TypeDesc, first: Obj, second: Obj)
    requires IsBuilder(w, b)
    ensures var (w1, d) := Derive(w, b);
            var r1 := GetCustomData(w1, d, t, first);
            var r2 := GetCustomData(r1.world, b, t, second);
            !r2.factoryCalled && r2.data == r1.data
    ensures var (w1, d) := Derive(w, b);
            var r1 := GetCustomData(w1, b, t, first);
            var r2 := GetCustomData(r1.world, d, t, second);
            !r2.factoryCalled && r2.data == r1.data
  {
  }

  // ----- Substitute registry -----

  /** The registration `SubstituteFor` / `SubstituteForPartsOf` adds: the
      service as itself, auto-activated, shared per lifetime scope. */
  function SubstituteForRegistration(t: TypeDesc, isSubstituteFor: bool): Registration {
    Registration([TypedService(t)], SubstituteDelegate(t, isSubstituteFor), InstancePerLifetimeScope, true)
  }

  const ModeChangeMessage: string :=
    "Cannot change a service registration between SubstituteFor and SubstituteForPartsOf"

  datatype Substituted = Substituted(world: World, builder: SubstituteForBuilder)

  /** `CreateSubstituteForBuilder<TService>(factory, isSubstituteFor)`. */
  function CreateSubstituteForBuilder(w: World, b: nat, t: TypeDesc, isSubstituteFor: bool)
    : (r: Result<Substituted, Exception>)
    requires IsBuilder(w, b)
    ensures r.Failure? <==>
              t in StoreOf(w, b).substitutes && StoreOf(w, b).substitutes[t].isSubstituteFor != isSubstituteFor
    ensures r.Failure? ==> r.error == InvalidOperationException(ModeChangeMessage)
    ensures r.Success? ==>
              && IsBuilder(r.value.world, b)
              && r.value.builder.isSubstituteFor == isSubstituteFor
              && t in StoreOf(r.value.world, b).substitutes
              && StoreOf(r.value.world, b).substitutes[t] == r.value.builder
    ensures r.Success? && t in StoreOf(w, b).substitutes ==>
              r.value.world == w && r.value.builder == StoreOf(w, b).substitutes[t]
    ensures r.Success? && t !in StoreOf(w, b).substitutes ==>
              && StoreOf(r.value.world, b).registrations
                   == StoreOf(w, b).registrations + [SubstituteForRegistration(t, isSubstituteFor)]
              && r.value.builder == SubstituteForBuilder(t, |StoreOf(w, b).registrations|, isSubstituteFor)
              && StoreOf(r.value.world, b).customData == StoreOf(w, b).customData
              && StoreOf(r.value.world, b).afterBuildActions == StoreOf(w, b).afterBuildActions
              && r.value.world.builders == w.builders && r.value.world.provided == w.provided
    ensures r.Success? ==> forall u :: u != t ==>
              && (u in StoreOf(r.value.world, b).substitutes <==> u in StoreOf(w, b).substitutes)
              && (u in StoreOf(w, b).substitutes ==>
                    StoreOf(r.value.world, b).substitutes[u] == StoreOf(w, b).substitutes[u])
    ensures r.Success? ==> |r.value.world.stores| == |w.stores|
    ensures r.Success? ==> forall i :: 0 <= i < |w.stores| && i != w.builders[b] ==>
              r.value.world.stores[i] == w.stores[i]
  {
    var s := StoreOf(w, b);
    if t in s.substitutes then
      var previous := s.substitutes[t];
      if previous.isSubstituteFor != isSubstituteFor then
        Failure(InvalidOperationException(ModeChangeMessage))
      else
        Success(Substituted(w, previous))
    else
      var builder := SubstituteForBuilder(t, |s.registrations|, isSubstituteFor);
      var s' := s.(registrations := s.registrations + [SubstituteForRegistration(t, isSubstituteFor)],
                   substitutes := s.substitutes[t := builder]);
      Success(Substituted(WithStore(w, b, s'), builder))
  }

  /** `SubstituteFor<TService>()`. */
  function SubstituteFor(w: World, b: nat, t: TypeDesc): (r: Result<Substituted, Exception>)
    requires IsBuilder(w, b)
    ensures r == CreateSubstituteForBuilder(w, b, t, true)
    ensures r.Failure? <==> t in StoreOf(w, b).substitutes && !StoreOf(w, b).substitutes[t].isSubstituteFor
    ensures r.Success? ==> r.value.builder.isSubstituteFor
  {
    CreateSubstituteForBuilder(w, b, t, true)
  }

  /** `SubstituteForPartsOf<TService>()`. */
  function SubstituteForPartsOf(w: World, b: nat, t: TypeDesc): (r: Result<Substituted, Exception>)
    requires IsBuilder(w, b)
    ensures r == CreateSubstituteForBuilder(w, b, t, false)
    ensures r.Failure? <==> t in StoreOf(w, b).substitutes && StoreOf(w, b).substitutes[t].isSubstituteFor
    ensures r.Success? ==> !r.value.builder.isSubstituteFor
  {
    CreateSubstituteForBuilder(w, b, t, false)
  }

  /** Every registry entry points at its own substitute registration, and
      every substitute registration is the one its registry entry points at. */
  predicate RegistryConsistent(s: Store) {
    && (forall t :: t in s.substitutes ==>
          && s.substitutes[t].service == t
          && s.substitutes[t].registration < |s.registrations|
          && s.registrations[s.substitutes[t].registration]
               == SubstituteForRegistration(t, s.substitutes[t].isSubstituteFor))
    && (forall i :: 0 <= i < |s.registrations| && s.registrations[i].activator.SubstituteDelegate? ==>
          && s.registrations[i].activator.service in s.substitutes
          && s.substitutes[s.registrations[i].activator.service].registration == i)
  }

  /** In a consistent store a type has at most one substitute registration. */
  lemma AtMostOneSubstituteRegistration(s: Store, i: nat, j: nat)
    requires RegistryConsistent(s)
    requires i < |s.registrations| && j < |s.registrations|
    requires s.registrations[i].activator.SubstituteDelegate?
    requires s.registrations[j].activator.SubstituteDelegate?
    requires s.registrations[i].activator.service == s.registrations[j].activator.service
    ensures i == j
  {
  }

  // ----- Provided values and the build -----

  /** `ProvidedValue<T>.Value`. */
  function Value(w: World, h: nat): (r: Result<Obj, Exception>)
    requires h < |w.provided|
    ensures r.Failure? <==> w.provided[h].context.None?
    ensures r.Failure? ==> r.error == InvalidOperationException("Build must be called before using a provided value.")
    ensures r.Success? ==> r.value == Produced(w.provided[h].factory, w.provided[h].context.value)
  {
    var p := w.provided[h];
    if p.context.None? then
      Failure(InvalidOperationException("Build must be called before using a provided value."))
    else
      Success(Produced(p.factory, p.context.value))
  }

  /** `RegisterBuildCallback(callback)`. */
  function RegisterBuildCallback(w: World, b: nat, callback: BuildCallback): (r: World)
    requires IsBuilder(w, b)
    ensures IsBuilder(r, b)
    ensures StoreOf(r, b).afterBuildActions == StoreOf(w, b).afterBuildActions + [callback]
    ensures StoreOf(r, b).substitutes == StoreOf(w, b).substitutes
    ensures StoreOf(r, b).customData == StoreOf(w, b).customData
    ensures StoreOf(r, b).registrations == StoreOf(w, b).registrations
    ensures r.builders == w.builders && r.provided == w.provided && r.nextKey == w.nextKey
    ensures |r.stores| == |w.stores|
    ensures forall i :: 0 <= i < |w.stores| && i != w.builders[b] ==> r.stores[i] == w.stores[i]
  {
    var s := StoreOf(w, b);
    WithStore(w, b, s.(afterBuildActions := s.afterBuildActions + [callback]))
  }

  datatype Provided = Provided(world: World, handle: nat)

  /** `CreateProvidedValue(factory)`: a new handle, unreadable for now, and an
      after-build callback that will hand it the container. */
  function CreateProvidedValue(w: World, b: nat, factory: ValueFactory): (r: Provided)
    requires IsBuilder(w, b)
    ensures IsBuilder(r.world, b)
    ensures r.handle == |w.provided| && |r.world.provided| == |w.provided| + 1
    ensures r.world.provided[..|w.provided|] == w.provided
    ensures r.world.provided[r.handle].factory == factory
    ensures Value(r.world, r.handle).Failure?
    ensures StoreOf(r.world, b).afterBuildActions
              == StoreOf(w, b).afterBuildActions + [SetComponentContext(r.handle)]
    ensures StoreOf(r.world, b).substitutes == StoreOf(w, b).substitutes
    ensures StoreOf(r.world, b).customData == StoreOf(w, b).customData
    ensures StoreOf(r.world, b).registrations == StoreOf(w, b).registrations
    ensures r.world.builders == w.builders && r.world.nextKey == w.nextKey
    ensures |r.world.stores| == |w.stores|
    ensures forall i :: 0 <= i < |w.stores| && i != w.builders[b] ==> r.world.stores[i] == w.stores[i]
  {
    var handle := |w.provided|;
    var w' := w.(provided := w.provided + [ProvidedValue(factory, None)]);
    Provided(RegisterBuildCallback(w', b, SetComponentContext(handle)), handle)
  }

  /** `Provide<TService, TImplementation>(out providedValue, ...)` and
      `Provide<TService>(out providedValue, factory)`: a registration keyed by
      a fresh key and exposed as the service, per lifetime scope, and a handle
      that resolves that key once the container exists. */
  function Provide(w: World, b: nat, service: TypeDesc, source: ProvideSource): (r: Provided)
    requires IsBuilder(w, b)
    ensures IsBuilder(r.world, b)
    ensures StoreOf(r.world, b).registrations == StoreOf(w, b).registrations
              + [Registration([KeyedService(w.nextKey, service), TypedService(service)],
                              ProvidedActivator(source), InstancePerLifetimeScope, false)]
    ensures r.handle == |w.provided| && |r.world.provided| == |w.provided| + 1
    ensures r.world.provided[r.handle].factory == ResolveKeyed(service, w.nextKey)
    ensures Value(r.world, r.handle).Failure?
    ensures r.world.nextKey > w.nextKey
    ensures StoreOf(r.world, b).afterBuildActions
              == StoreOf(w, b).afterBuildActions + [SetComponentContext(r.handle)]
    ensures StoreOf(r.world, b).substitutes == StoreOf(w, b).substitutes
    ensures StoreOf(r.world, b).customData == StoreOf(w, b).customData
    ensures r.world.provided[..|w.provided|] == w.provided
    ensures r.world.builders == w.builders
    ensures |r.world.stores| == |w.stores|
    ensures forall i :: 0 <= i < |w.stores| && i != w.builders[b] ==> r.world.stores[i] == w.stores[i]
  {
    var key := w.nextKey;
    var s := StoreOf(w, b);
    var registration :=
      Registration([KeyedService(key, service), TypedService(service)], ProvidedActivator(source), InstancePerLifetimeScope, false);
    var w' := WithStore(w, b, s.(registrations := s.registrations + [registration])).(nextKey := key + 1);
    CreateProvidedValue(w', b, ResolveKeyed(service, key))
  }

  /** Reference description of running `callbacks` against `container`: every
      handle some callback names receives the container; nothing else changes. */
  function AfterBuild(w: World, callbacks: seq<BuildCallback>, container: Container): World {
    w.(provided := seq(|w.provided|, h requires 0 <= h < |w.provided| =>
         if SetComponentContext(h) in callbacks then w.provided[h].(context := Some(container)) else w.provided[h]))
  }

  /** The after-build loop of `InternalBuild`. `container` is what the
      configured container factory built; `ran` lists the callbacks in the
      order they were invoked. */
  method InternalBuild(w: World, b: nat, container: Container) returns (built: World, ran: seq<BuildCallback>)
    requires IsBuilder(w, b)
    ensures ran == StoreOf(w, b).afterBuildActions
    ensures built == AfterBuild(w, ran, container)
  {
    var actions := StoreOf(w, b).afterBuildActions;
    built := w;
    ran := [];
    for i := 0 to |actions|
      invariant ran == actions[..i]
      invariant built.stores == w.stores && built.builders == w.builders && built.nextKey == w.nextKey
      invariant |built.provided| == |w.provided|
      invariant forall h :: 0 <= h < |w.provided| ==>
                  built.provided[h] == if SetComponentContext(h) in ran
                                       then w.provided[h].(context := Some(container))
                                       else w.provided[h]
    {
      var action := actions[i];
      if action.SetComponentContext? && action.handle < |built.provided| {
        var h := action.handle;
        built := built.(provided := built.provided[h := built.provided[h].(context := Some(container))]);
      }
      ran := ran + [action];
    }
    assert built.provided == AfterBuild(w, ran, container).provided;
  }

  /** After the build, every handle named by a callback reads as its factory
      applied to the container. */
  lemma BuildMakesHandlesReadable(w: World, callbacks: seq<BuildCallback>, container: Container, h: nat)
    requires h < |w.provided| && SetComponentContext(h) in callbacks
    ensures Value(AfterBuild(w, callbacks, container), h) == Success(Produced(w.provided[h].factory, container))
  {
  }

  // ----- Sequences of configuration calls -----

  /** A configuration call made through a builder. */
  datatype Request =
    | SubstituteRequest(t: TypeDesc, isSubstituteFor: bool)
    | ProvideRequest(service: TypeDesc, source: ProvideSource)
    | CustomDataRequest(t: TypeDesc, created: Obj)
    | CallbackRequest(callback: BuildCallback)

  /** One call; a call that throws leaves the heap as it was, since the
      exception is raised before anything is stored. */
  function Step(w: World, b: nat, req: Request): (r: World)
    requires IsBuilder(w, b)
    ensures IsBuilder(r, b)
  {
    match req
    case SubstituteRequest(t, mode) =>
      var res := CreateSubstituteForBuilder(w, b, t, mode);
      if res.Success? then res.value.world else w
    case ProvideRequest(service, source) => Provide(w, b, service, source).world
    case CustomDataRequest(t, created) => GetCustomData(w, b, t, created).world
    case CallbackRequest(callback) => RegisterBuildCallback(w, b, callback)
  }

  function ApplyAll(w: World, b: nat, reqs: seq<Request>): (r: World)
    requires IsBuilder(w, b)
    ensures IsBuilder(r, b)
    decreases |reqs|
  {
    if reqs == [] then w else ApplyAll(Step(w, b, reqs[0]), b, reqs[1..])
  }

  /** Asking for a registered type in the other mode throws and leaves the
      heap as it was; asking in the same mode is a no-op. */
  lemma RepeatedRequestKeepsRegistry(w: World, b: nat, t: TypeDesc, isSubstituteFor: bool)
    requires IsBuilder(w, b) && t in StoreOf(w, b).substitutes
    ensures var r := CreateSubstituteForBuilder(w, b, t, isSubstituteFor);
            if StoreOf(w, b).substitutes[t].isSubstituteFor == isSubstituteFor
            then r == Success(Substituted(w, StoreOf(w, b).substitutes[t]))
            else r == Failure(InvalidOperationException(ModeChangeMessage))
    ensures Step(w, b, SubstituteRequest(t, isSubstituteFor)) == w
  {
  }

  /** Two builders over the same store are interchangeable: every call has
      the same effect through either. */
  lemma SharedStoreSameEffect(w: World, b1: nat, b2: nat, req: Request)
    requires IsBuilder(w, b1) && IsBuilder(w, b2) && w.builders[b1] == w.builders[b2]
    ensures Step(w, b1, req) == Step(w, b2, req)
  {
  }

  /** Once a type is in the registry its entry, and so its mode, never
      changes, whatever calls follow. */
  lemma {:induction false} ModeNeverChanges(w: World, b: nat, reqs: seq<Request>, t: TypeDesc)
    requires IsBuilder(w, b) && t in StoreOf(w, b).substitutes
    ensures t in StoreOf(ApplyAll(w, b, reqs), b).substitutes
    ensures StoreOf(ApplyAll(w, b, reqs), b).substitutes[t] == StoreOf(w, b).substitutes[t]
    decreases |reqs|
  {
    if reqs != [] {
      var w1 := Step(w, b, reqs[0]);
      assert t in StoreOf(w1, b).substitutes && StoreOf(w1, b).substitutes[t] == StoreOf(w, b).substitutes[t];
      ModeNeverChanges(w1, b, reqs[1..], t);
    }
  }

  lemma StepKeepsRegistryConsistent(w: World, b: nat, req: Request)
    requires IsBuilder(w, b) && RegistryConsistent(StoreOf(w, b))
    ensures RegistryConsistent(StoreOf(Step(w, b, req), b))
  {
    var s := StoreOf(w, b);
    match req
    case SubstituteRequest(t, mode) =>
      var res := CreateSubstituteForBuilder(w, b, t, mode);
      if res.Success? && t !in s.substitutes {
        var s' := StoreOf(res.value.world, b);
        forall u | u in s'.substitutes
          ensures s'.substitutes[u].service == u
          ensures s'.substitutes[u].registration < |s'.registrations|
          ensures s'.registrations[s'.substitutes[u].registration]
                    == SubstituteForRegistration(u, s'.substitutes[u].isSubstituteFor)
        {
          if u != t {
            assert s.substitutes[u].registration < |s.registrations|;
          }
        }
        forall i | 0 <= i < |s'.registrations| && s'.registrations[i].activator.SubstituteDelegate?
          ensures s'.registrations[i].activator.service in s'.substitutes
          ensures s'.substitutes[s'.registrations[i].activator.service].registration == i
        {
          if i < |s.registrations| {
            assert s'.registrations[i] == s.registrations[i];
          }
        }
      }
    case ProvideRequest(service, source) =>
      var s' := StoreOf(Step(w, b, req), b);
      forall i | 0 <= i < |s'.registrations| && s'.registrations[i].activator.SubstituteDelegate?
        ensures s'.registrations[i].activator.service in s'.substitutes
        ensures s'.substitutes[s'.registrations[i].activator.service].registration == i
      {
        assert i < |s.registrations|;
        assert s'.registrations[i] == s.registrations[i];
      }
    case CustomDataRequest(_, _) =>
    case CallbackRequest(_) =>
  }

  /** Every sequence of calls keeps the registry consistent, so a type never
      gets a second substitute registration. */
  lemma {:induction false} RegistryStaysConsistent(w: World, b: nat, reqs: seq<Request>)
    requires IsBuilder(w, b) && RegistryConsistent(StoreOf(w, b))
    ensures RegistryConsistent(StoreOf(ApplyAll(w, b, reqs), b))
    decreases |reqs|
  {
    if reqs != [] {
      StepKeepsRegistryConsistent(w, b, reqs[0]);
      RegistryStaysConsistent(Step(w, b, reqs[0]), b, reqs[1..]);
    }
  }

  /** Configuration calls never touch existing handles and never drop a
      callback. */
  lemma {:induction false} HandlesAndCallbacksPersist(w: World, b: nat, reqs: seq<Request>)
    requires IsBuilder(w, b)
    ensures |w.provided| <= |ApplyAll(w, b, reqs).provided|
    ensures ApplyAll(w, b, reqs).provided[..|w.provided|] == w.provided
    ensures StoreOf(w, b).afterBuildActions <= StoreOf(ApplyAll(w, b, reqs), b).afterBuildActions
    decreases |reqs|
  {
    if reqs != [] {
      var w1 := Step(w, b, reqs[0]);
      assert |w.provided| <= |w1.provided| && w1.provided[..|w.provided|] == w.provided;
      assert StoreOf(w, b).afterBuildActions <= StoreOf(w1, b).afterBuildActions;
      HandlesAndCallbacksPersist(w1, b, reqs[1..]);
      var w2 := ApplyAll(w1, b, reqs[1..]);
      assert w2.provided[..|w.provided|] == w2.provided[..|w1.provided|][..|w.provided|];
    }
  }

  /** The provided-value lifecycle: a handle throws right after it is made
      and after any further configuration, and once the build has run the
      callbacks it reads as its factory applied to the container. */
  lemma ProvidedValueLifecycle(w: World, b: nat, factory: ValueFactory, reqs: seq<Request>, container: Container)
    requires IsBuilder(w, b)
    ensures var p := CreateProvidedValue(w, b, factory);
            var w2 := ApplyAll(p.world, b, reqs);
            && Value(p.world, p.handle).Failure?
            && p.handle < |w2.provided|
            && Value(w2, p.handle).Failure?
            && Value(AfterBuild(w2, StoreOf(w2, b).afterBuildActions, container), p.handle)
                 == Success(Produced(factory, container))
  {
    var p := CreateProvidedValue(w, b, factory);
    var w2 := ApplyAll(p.world, b, reqs);
    HandlesAndCallbacksPersist(p.world, b, reqs);
    assert w2.provided[p.handle] == w2.provided[..|p.world.provided|][p.handle];
    var cbs := StoreOf(p.world, b).afterBuildActions;
    assert cbs[|cbs| - 1] == SetComponentContext(p.handle);
    assert SetComponentContext(p.handle) in StoreOf(w2, b).afterBuildActions;
    BuildMakesHandlesReadable(w2, StoreOf(w2, b).afterBuildActions, container, p.handle);
  }
}
