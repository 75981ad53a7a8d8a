# AutofacContrib.NSubstitute: decision logic and builder bookkeeping

AutofacContrib.NSubstitute is an auto-mocking container: it plugs a
registration source into an Autofac container so that any interface nobody
registered is resolved to an NSubstitute substitute, and it offers a fluent
`AutoSubstituteBuilder` for configuring the container first. The container
and the mock generator are external libraries. This project models the parts
of the adapter that are self-contained, over an abstract description of
types (`Types.TypeDesc`: name, interface/array/startable flags and generic
shape):

- `RegistrationHandler`: the registration source's decision whether an
  unregistered service gets a substitute (interfaces only, never the five
  collection interfaces, arrays or `IStartable` types), and the one
  per-lifetime-scope registration it then produces.
- `MockCreating`: the context handed to mock handlers, with a
  create/do-not-create flag on which the last call wins.
- `SkipTypeHandler` and `AlreadyExistsHandler`: the two handlers that turn
  the flag off.
- `Builder`: the builder's stores, held in an explicit heap so that builders
  made with the copy constructor alias the same stores. It covers the
  substitute registry (one registration per type, and the mode never changes),
  the type-keyed custom-data cache, after-build callbacks, and provided-value
  handles. A handle throws until the build has run its callback and then
  resolves.

`Wrappers` holds `Option` (a possibly-null reference) and `Result` (a call
that returns or throws); `Components` holds the container's vocabulary
(services, activators, lifetimes, registrations).

Parameters stand for what the model cannot see: the container that
`BuildContainerFactory` builds is an argument of `InternalBuild`, and the
object a custom-data factory would create is an argument of `GetCustomData`.
Objects produced by factories stay symbolic (`Produced(factory, container)`).

## Model

| member | source | states |
|---|---|---|
| RegistrationHandler.RegistrationsFor | AutofacContrib.NSubstitute/NSubstituteRegistrationHandler.cs:32-51 | a null service throws ArgumentNullException("service"); otherwise there is at most one registration. There is exactly one iff the service has a type that passes the reference predicate `Substitutable`, and then it exposes the service, substitutes its type and is per lifetime scope |
| RegistrationHandler.IsGenericListOrCollectionInterface | AutofacContrib.NSubstitute/NSubstituteRegistrationHandler.cs:58-61 | true exactly for a generic type, open or constructed, whose definition is one of the five collection interfaces, each named individually |
| Components.ServiceType | AutofacContrib.NSubstitute/NSubstituteRegistrationHandler.cs:38 | the `as IServiceWithType` cast yields a type exactly for typed and keyed services, and that type is the service's own |
| RegistrationHandler.SubstituteRegistration | AutofacContrib.NSubstitute/NSubstituteRegistrationHandler.cs:46-50 | the produced registration is for exactly the requested service, substitutes exactly its type, is shared per lifetime scope and is not auto-activated |
| RegistrationHandler.IsAdapterForIndividualComponents | AutofacContrib.NSubstitute/NSubstituteRegistrationHandler.cs:53-56 | the source never adapts individual component registrations |
| RegistrationHandler.CollectionInterfacesAreNotSubstituted | AutofacContrib.NSubstitute/NSubstituteRegistrationHandler.cs:58-61 | any type constructed from IEnumerable<>, IList<>, IReadOnlyCollection<>, ICollection<> or IReadOnlyList<> gets no registration |
| RegistrationHandler.ArraysAndStartablesAreNotSubstituted | AutofacContrib.NSubstitute/NSubstituteRegistrationHandler.cs:42-44 | arrays and types assignable to IStartable get no registration, even when flagged as interfaces |
| RegistrationHandler.NonInterfacesAreNotSubstituted | AutofacContrib.NSubstitute/NSubstituteRegistrationHandler.cs:38-40 | a service without a type, or whose type is not an interface, gets no registration |
| RegistrationHandler.IndexInterfaceIsSubstituted | AutofacContrib.NSubstitute.Tests/KeyedRegistrationFixture.cs:39-48 | the keyed index IIndex<Switch, IDependency2>, a generic interface outside the collection list, gets exactly one substitute registration |
| MockCreating.NewContext | AutofacContrib.NSubstitute/MockHandlers/MockCreatingContext.cs:10-15 | a fresh context says create and keeps the given type and registration flag |
| MockCreating.Create | AutofacContrib.NSubstitute/MockHandlers/MockCreatingContext.cs:32-35 | afterwards creation is on; type and registration flag unchanged |
| MockCreating.DoNotCreate | AutofacContrib.NSubstitute/MockHandlers/MockCreatingContext.cs:40-43 | afterwards creation is off; type and registration flag unchanged |
| MockCreating.LastCallWins | AutofacContrib.NSubstitute/MockHandlers/MockCreatingContext.cs:29-43 | after any sequence of calls the flag is the last call's, or the starting value if there were none; type and registration flag never change |
| MockCreating.FreshContextAfterCalls | AutofacContrib.NSubstitute/MockHandlers/MockCreatingContext.cs:10-43 | from a fresh context the flag is on iff there were no calls or the last was Create, and type and registration flag keep their constructor values |
| MockCreating.CallsAreIdempotent | AutofacContrib.NSubstitute/MockHandlers/MockCreatingContext.cs:32-43 | calling Create or DoNotCreate twice equals calling it once |
| AlreadyExistsHandler.OnMockCreating | AutofacContrib.NSubstitute/MockHandlers/AlreadyExistsMockHandler.cs:11-17 | afterwards creation is on iff it was on and the type has no registrations, so the handler never turns it on; type and registration flag untouched |
| AlreadyExistsHandler.OnMockCreatingIdempotent | AutofacContrib.NSubstitute/MockHandlers/AlreadyExistsMockHandler.cs:11-17 | running the handler twice equals running it once |
| SkipTypeHandler.Create | AutofacContrib.NSubstitute/MockHandlers/SkipTypeMockHandler.cs:21-38 | a null type collection throws ArgumentNullException("types"); otherwise the handler keeps exactly the given list |
| SkipTypeHandler.CreateFor | AutofacContrib.NSubstitute/MockHandlers/SkipTypeMockHandler.cs:15-19 | Create<T>() is Create over the one-element list [T] |
| SkipTypeHandler.OnMockCreating | AutofacContrib.NSubstitute/MockHandlers/SkipTypeMockHandler.cs:40-53 | the loop leaves creation on iff it was on and no listed type is an open generic definition or equal to the context's type; it never turns creation on and leaves type and registration flag alone |
| SkipTypeHandler.OrderDoesNotMatter | AutofacContrib.NSubstitute/MockHandlers/SkipTypeMockHandler.cs:42-52 | two lists with the same members have the same effect, whatever their order or repetitions |
| SkipTypeHandler.OutcomeIdempotent | AutofacContrib.NSubstitute/MockHandlers/SkipTypeMockHandler.cs:40-53 | applying the handler twice equals applying it once |
| SkipTypeHandler.OpenDefinitionDeclinesEverything | AutofacContrib.NSubstitute/MockHandlers/SkipTypeMockHandler.cs:44-47 | a listed open generic definition turns creation off for every requested type, as the code is written |
| SkipTypeHandler.ListedTypeIsDeclined | AutofacContrib.NSubstitute/MockHandlers/SkipTypeMockHandler.cs:48-51 | a listed type has creation turned off; an empty list changes nothing |
| SkipTypeHandler.SkipsRequestedType | AutofacContrib.NSubstitute.Tests/TypesToSkipForMockingFixture.cs:41-52 | the handler made by Create<T>() turns creation off for a fresh context of T |
| Builder.NewBuilder | AutofacContrib.NSubstitute/AutoSubstituteBuilder.cs:21-28 | a new builder has empty stores of its own, shared with no existing builder, and no other builder or store changes |
| Builder.Derive | AutofacContrib.NSubstitute/AutoSubstituteBuilder.cs:34-41 | the copy constructor makes a new builder object whose stores are those of the original |
| Builder.SharedStoreSameEffect | AutofacContrib.NSubstitute/AutoSubstituteBuilder.cs:34-41 | any configuration call has the same effect through any two builders that share stores |
| Builder.GetCustomData | AutofacContrib.NSubstitute/AutoSubstituteBuilder.cs:317-329 | the factory is called iff the type has no entry; a cached entry is returned with nothing changed; afterwards the entry for the type is the returned object, entries for other types and the other stores are untouched |
| Builder.GetCustomDataIsMemoised | AutofacContrib.NSubstitute/AutoSubstituteBuilder.cs:317-329 | a second request for a type returns the first request's object without calling its factory |
| Builder.DerivedBuilderSharesCustomData | AutofacContrib.NSubstitute.Tests/CustomAutoSubstituteExtensionFixture.cs:9-17 | data stored through a derived builder is read back through the original without calling the factory, and the other way round |
| Builder.CreateSubstituteForBuilder | AutofacContrib.NSubstitute/AutoSubstituteBuilder.cs:253-282 | it throws InvalidOperationException iff the type is registered in the other mode. A repeat in the same mode returns the stored builder and changes nothing. A first request adds exactly one registration, auto-activated and per lifetime scope, and records a builder for the type with the requested mode. Entries for other types are unaffected |
| Builder.SubstituteForRegistration | AutofacContrib.NSubstitute/AutoSubstituteBuilder.cs:268-271 | the registration a first SubstituteFor adds (used in `CreateSubstituteForBuilder`'s contract and `RegistryConsistent`): the service as itself, substitute activator in the requested mode, auto-activated, per lifetime scope |
| Builder.SubstituteFor | AutofacContrib.NSubstitute/AutoSubstituteBuilder.cs:219-221 | SubstituteFor is the registry operation in full-substitute mode: it throws iff the type was registered by SubstituteForPartsOf, and otherwise yields a full-substitute builder |
| Builder.SubstituteForPartsOf | AutofacContrib.NSubstitute/AutoSubstituteBuilder.cs:230-232 | SubstituteForPartsOf is the registry operation in partial-substitute mode: it throws iff the type was registered by SubstituteFor, and otherwise yields a partial-substitute builder |
| Builder.RepeatedRequestKeepsRegistry | AutofacContrib.NSubstitute.Tests/SubstituteForFixture.cs:146-161 | for a registered type, the same mode returns the stored builder and the other mode throws, and either way the heap is unchanged |
| Builder.ModeNeverChanges | AutofacContrib.NSubstitute/AutoSubstituteBuilder.cs:256-265 | once a type is registered, its registry entry (mode and registration) is the same after any sequence of configuration calls |
| Builder.AtMostOneSubstituteRegistration | AutofacContrib.NSubstitute/AutoSubstituteBuilder.cs:256-274 | in a consistent store two substitute registrations for the same type are the same registration |
| Builder.StepKeepsRegistryConsistent | AutofacContrib.NSubstitute/AutoSubstituteBuilder.cs:253-282 | every configuration call keeps each registry entry pointing at its own registration and each substitute registration owned by its entry |
| Builder.RegistryStaysConsistent | AutofacContrib.NSubstitute/AutoSubstituteBuilder.cs:253-282 | any sequence of configuration calls keeps the registry consistent, so no type gets a second substitute registration |
| Builder.Value | AutofacContrib.NSubstitute/AutoSubstituteBuilder.cs:342-353 | reading a handle throws InvalidOperationException iff its context is unset; otherwise it is the factory applied to the context |
| Builder.RegisterBuildCallback | AutofacContrib.NSubstitute/AutoSubstituteBuilder.cs:288-289 | the callback is appended after the existing ones and no other store changes |
| Builder.CreateProvidedValue | AutofacContrib.NSubstitute/AutoSubstituteBuilder.cs:297-304 | a new handle with the given factory that throws when read, plus one appended callback that sets its context; existing handles untouched |
| Builder.Provide | AutofacContrib.NSubstitute/AutoSubstituteBuilder.cs:166-179 | appends one registration keyed by a fresh key and exposed as the service, per lifetime scope. It returns a handle that resolves that keyed service and throws until the build |
| Builder.InternalBuild | AutofacContrib.NSubstitute/AutoSubstituteBuilder.cs:50-72 | the after-build loop's result is the reference effect `AfterBuild`: every handle a callback names gets the container and nothing else changes. The loop also returns the trace of callbacks it invoked, which equals the registered list. That trace is the only evidence of "exactly once, in registration order", because in this model the callbacks' effects commute |
| Builder.BuildMakesHandlesReadable | AutofacContrib.NSubstitute/AutoSubstituteBuilder.cs:66-69 | after the callbacks run, a handle named by one reads as its factory applied to the container |
| Builder.HandlesAndCallbacksPersist | AutofacContrib.NSubstitute/AutoSubstituteBuilder.cs:288-304 | configuration calls never change existing handles and never remove or reorder callbacks |
| Builder.ProvidedValueLifecycle | AutofacContrib.NSubstitute/AutoSubstituteBuilder.cs:342-355 | a handle throws when made and after any further configuration; once the build has run the callbacks it reads as its factory applied to the container |

## Left out

- Container resolution, lifetime scopes and proxy generation belong to
  Autofac and NSubstitute and are not modelled. `InstancePerLifetimeScope` is
  recorded on registrations, but "the same substitute for every resolution in
  one scope" is Autofac's promise, not one this model proves.
- `InternalBuild`'s registration of the two registration sources and the call
  to `BuildContainerFactory` are opaque: the built container is a parameter.
- `UserCallback` actions registered by derived builders are only traced. What
  they do to the container lies outside the model.
- Builder.InternalBuild: assumes every after-build callback returns
  normally and does not call back into the builder. In the source, a
  callback that throws ends the loop (lines 66-69), so later callbacks never
  run and Build throws. A callback that registers another callback or
  provided value during the loop makes the list enumerator throw
  InvalidOperationException. Under those conditions "every callback exactly
  once" does not hold.
- Builder.GetCustomData: assumes the factory returns normally and does not
  itself call `GetCustomData` for the same type. In the source, a throwing
  factory stores nothing (lines 324-326). A re-entrant call makes the outer
  `Add` throw ArgumentException. The model always stores the created object.
- `RegistrationsFor`'s `registrationAccessor` argument is never used by the
  source, so it is not a parameter. The source's options constructor
  (`new NSubstituteRegistrationHandler(_options)` at
  AutofacContrib.NSubstitute/AutoSubstituteBuilder.cs:62) has no counterpart
  in the handler class and is left out. The handler pipeline that runs
  `MockHandlers` in order is not part of this model either, so each handler
  is modelled on its own.
- Builder.CreateSubstituteForBuilder: the `AutoInjectProperties` step
  (lines 276-279) is left out. Property injection works through activation
  events, and the options class has no such flag. The model also does not
  promise that a pre-existing entry's `service` field equals its key; that
  is part of `RegistryConsistent`, which `RegistryStaysConsistent` proves is
  kept.
- Builder.Provide: it models the two `Provide(out providedValue, …)`
  overloads that register a keyed service (lines 114-126 and 166-179). The
  instance overloads, the keyed-instance overload, the obsolete
  `ResolveAndSubstituteFor`, and `ConfigureOptions`/`ConfigureBuilder` only
  forward to Autofac and are left out. The four overloads that only call a
  modelled one with `out _` (lines 104-105, 134-135, 145-146, 155-156) add
  nothing and are not modelled separately. The constructor `parameters`
  passed through `.WithParameters(parameters)` (line 173) go to Autofac's
  activator and are not recorded on the registration. The model does not
  prove that keys
  are unique across the heap; it only proves that they are drawn from an
  increasing counter.
- SkipTypeHandler.Create: the type collection is treated as fixed once the
  handler is made. The source keeps the caller's array, list or lazy query
  by reference and enumerates it again on every call. A caller who changes
  it later changes the handler's behaviour, which this model does not cover.
  `OrderDoesNotMatter` and `OutcomeIdempotent` hold only for an unchanged
  collection.
- SkipTypeHandler.Create: list elements are never null in the model. A null
  element makes the source throw NullReferenceException inside the loop.
- `Substitute.For` / `ForPartsOf` are named by the `SubstituteDelegate` mode
  flag only. The constructor `parameters` that `SubstituteFor` and
  `SubstituteForPartsOf` pass on to them (lines 219 and 230) are not
  recorded. `SubstituteForBuilder.Configure` (the `OnActivated` hooks),
  `DoNotCallBase`, the property-injector handler, the option extension
  methods, the facades (`AutoSubstitute`, `AutoMock`, `AutoSub`) and
  `MockCreatedContext` are not modelled.
