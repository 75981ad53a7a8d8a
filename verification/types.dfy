/** Abstract descriptions of the runtime types the library inspects. Only the
    attributes that its decision logic reads are kept; two descriptions are the
    same type exactly when they are equal. */
module Types {

  /** How a type relates to generics: not generic, an open generic definition
      such as `IList<>`, or a constructed type such as `IList<int>` that names
      the definition it was made from. Names are namespace-qualified full
      names, each taken to identify exactly one type. */
  datatype GenericShape = NonGeneric | OpenDefinition | Constructed(definition: string)

  datatype TypeDesc = TypeDesc(
    name: string,
    isInterface: bool,
    isArray: bool,
    /** Whether `IStartable` is assignable from this type. */
    isStartable: bool,
    shape: GenericShape)
  {
    /** `Type.IsGenericType`: open definitions and constructed types alike. */
    predicate IsGenericType() {
      !shape.NonGeneric?
    }

    /** The name of `Type.GetGenericTypeDefinition()`; an open definition is
        its own definition. */
    function GenericTypeDefinition(): string
      requires IsGenericType()
    {
      match shape
      case OpenDefinition => name
      case Constructed(d) => d
    }

    /** `type == type.GetGenericTypeDefinition()` for a generic type. */
    predicate IsGenericTypeDefinition()
      requires IsGenericType()
    {
      shape.OpenDefinition?
    }
  }

  /** The exceptions the core throws. */
  datatype Exception =
    | ArgumentNullException(paramName: string)
    | InvalidOperationException(message: string)
}

/** The container-side vocabulary: services and the component registrations
    that provide them. */
module Components {
  import opened Wrappers
  import opened Types

  /** A service a registration provides. Typed and keyed services carry a
      type (they are `IServiceWithType`); a unique service does not. */
  datatype Service =
    | TypedService(serviceType: TypeDesc)
    | KeyedService(key: nat, serviceType: TypeDesc)
    | UniqueService(id: nat)

  /** `service as IServiceWithType`, yielding the type when there is one. */
  function ServiceType(s: Service): (r: Option<TypeDesc>)
    ensures r.Some? <==> !s.UniqueService?
    ensures r.Some? ==> r.value == s.serviceType
  {
    match s
    case TypedService(t) => Some(t)
    case KeyedService(_, t) => Some(t)
    case UniqueService(_) => None
  }

  /** How long a resolved instance is shared. */
  datatype Lifetime = InstancePerDependency | InstancePerLifetimeScope

  /** Where a `Provide` registration gets its instances from. */
  datatype ProvideSource = FactoryDelegate(id: nat) | ImplementationType(impl: TypeDesc)

  /** What produces instances for a registration. */
  datatype Activator =
      /** `Substitute.For(new[] { type }, null)`, used for unregistered interfaces. */
    | SubstituteForTypes(types: seq<TypeDesc>)
      /** `_ => factory()` wrapping `Substitute.For` or `Substitute.ForPartsOf`. */
    | SubstituteDelegate(service: TypeDesc, isSubstituteFor: bool)
      /** A delegate or implementation type handed to `Provide`. */
    | ProvidedActivator(source: ProvideSource)

  datatype Registration = Registration(
    services: seq<Service>,
    activator: Activator,
    lifetime: Lifetime,
    autoActivate: bool)
}
