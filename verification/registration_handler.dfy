/** The registration source that answers the container's question "what
    provides this unregistered service?" with a generated substitute, for
    interfaces only, and never for the collection interfaces the container
    itself implements, arrays or startable components. */
module RegistrationHandler {
  import opened Wrappers
  import opened Types
  import opened Components

  /** The open generic definitions whose constructed types are left to the
      container's own collection support. */
  const GenericCollectionTypes: seq<string> :=
    [ "System.Collections.Generic.IEnumerable`1",
      "System.Collections.Generic.IList`1",
      "System.Collections.Generic.IReadOnlyCollection`1",
      "System.Collections.Generic.ICollection`1",
      "System.Collections.Generic.IReadOnlyList`1" ]

  /** The five collection definitions named one by one, for the reference
      predicate `Substitutable`. */
  predicate IsCollectionDefinitionName(d: string) {
    || d == "System.Collections.Generic.IEnumerable`1"
    || d == "System.Collections.Generic.IList`1"
    || d == "System.Collections.Generic.IReadOnlyCollection`1"
    || d == "System.Collections.Generic.ICollection`1"
    || d == "System.Collections.Generic.IReadOnlyList`1"
  }

  /** `IsGenericListOrCollectionInterface`: a generic type, open or
      constructed, whose definition is one of the five collection interfaces. */
  predicate IsGenericListOrCollectionInterface(t: TypeDesc): (r: bool)
    ensures r <==> t.IsGenericType() && IsCollectionDefinitionName(t.GenericTypeDefinition())
  {
    t.IsGenericType() && t.GenericTypeDefinition() in GenericCollectionTypes
  }

  /** The handler never adapts registrations of individual components. */
  function IsAdapterForIndividualComponents(): (r: bool)
    ensures !r
  {
    false
  }

  /** The one registration produced for an eligible service: a substitute for
      its type, exposed as that service, shared within a lifetime scope. */
  function SubstituteRegistration(service: Service): (r: Registration)
    requires ServiceType(service).Some?
    ensures r.services == [service]
    ensures r.activator == SubstituteForTypes([service.serviceType])
    ensures r.lifetime == InstancePerLifetimeScope
    ensures !r.autoActivate
  {
    Registration([service], SubstituteForTypes([service.serviceType]), InstancePerLifetimeScope, false)
  }

  /** The reference predicate: an interface that is neither an array nor
      startable, and is not built on one of the collection definitions. */
  predicate Substitutable(t: TypeDesc) {
    && t.isInterface
    && !t.isArray
    && !t.isStartable
    && match t.shape
       case NonGeneric => true
       case OpenDefinition => !IsCollectionDefinitionName(t.name)
       case Constructed(d) => !IsCollectionDefinitionName(d)
  }

  /** `RegistrationsFor(service, registrationAccessor)`; the accessor is never
      consulted, so it is not a parameter. `None` stands for a null service. */
  function RegistrationsFor(service: Option<Service>): (r: Result<seq<Registration>, Exception>)
    ensures r.Failure? <==> service.None?
    ensures r.Failure? ==> r.error == ArgumentNullException("service")
    ensures r.Success? ==> |r.value| <= 1
    ensures r.Success? ==>
              (|r.value| == 1 <==> ServiceType(service.value).Some? && Substitutable(service.value.serviceType))
    ensures r.Success? && |r.value| == 1 ==>
              && r.value[0].services == [service.value]
              && r.value[0].activator == SubstituteForTypes([service.value.serviceType])
              && r.value[0].lifetime == InstancePerLifetimeScope
  {
    if service.None? then
      Failure(ArgumentNullException("service"))
    else
      var typedService := ServiceType(service.value);
      if || typedService.None?
         || !typedService.value.isInterface
         || IsGenericListOrCollectionInterface(typedService.value)
         || typedService.value.isArray
         || typedService.value.isStartable
      then
        Success([])
      else
        Success([SubstituteRegistration(service.value)])
  }

  /** Every closed or open type built on one of the five collection
      definitions is refused, whatever else is true of it. */
  lemma CollectionInterfacesAreNotSubstituted(service: Service, d: string)
    requires ServiceType(service).Some?
    requires service.serviceType.shape == Constructed(d)
    requires d in GenericCollectionTypes
    ensures RegistrationsFor(Some(service)) == Success([])
  {
  }

  /** Arrays and startable components are refused even when they claim to be
      interfaces. */
  lemma ArraysAndStartablesAreNotSubstituted(service: Service)
    requires ServiceType(service).Some?
    requires service.serviceType.isArray || service.serviceType.isStartable
    ensures RegistrationsFor(Some(service)) == Success([])
  {
  }

  /** A service without a type, or whose type is not an interface, is refused. */
  lemma NonInterfacesAreNotSubstituted(service: Service)
    requires ServiceType(service).None? || !service.serviceType.isInterface
    ensures RegistrationsFor(Some(service)) == Success([])
  {
  }

  /** A generic interface outside the collection list, such as the keyed
      index `IIndex<Switch, IDependency2>`, receives exactly one substitute. */
  lemma IndexInterfaceIsSubstituted()
    ensures var index := TypeDesc("Autofac.Features.Indexed.IIndex`2[Switch,IDependency2]", true, false, false, Constructed("Autofac.Features.Indexed.IIndex`2"));
            RegistrationsFor(Some(TypedService(index)))
              == Success([Registration([TypedService(index)], SubstituteForTypes([index]), InstancePerLifetimeScope, false)])
  {
    var index := TypeDesc("Autofac.Features.Indexed.IIndex`2[Switch,IDependency2]", true, false, false, Constructed("Autofac.Features.Indexed.IIndex`2"));
    assert !IsGenericListOrCollectionInterface(index);
  }
}
