/** `ExtensionProvider`: the registry from extension class to the factory that makes an
    instance of it. The registry is a mutable map seeded with the two built-in extensions;
    `parseExtension` makes a fresh extension and lets it read itself from an event. Both
    steps can throw, and a class can be registered with a `null` factory. */
module Provider {
  import opened Wrappers
  import opened Values
  import V1

  /** The identity of an extension class (`Class<? extends Extension>`). */
  datatype ExtensionClass = DistributedTracingExtension | DatarefExtension | OtherExtension(name: string)

  /** The values an extension holds once it has read itself from an event. */
  type ExtensionFields = map<string, ExtensionValue>

  /** An exception thrown by a factory or by `readFrom` (for example, a required
      sub-attribute that is missing or malformed). */
  datatype ExtensionError = ExtensionError(detail: string)

  /** A `Supplier<Extension>`: `get()` either throws `creation.error` or makes a fresh
      extension of class `creates`, whose `readFrom` yields `read(event)`. The extension
      classes' own code is not part of this model, so it is carried here as values. */
  datatype Supplier = Supplier(creates: ExtensionClass, creation: Outcome<ExtensionError>,
                               read: V1.CloudEventV1 -> Result<ExtensionFields, ExtensionError>)

  /** An extension instance. It starts empty and is filled in by `ReadFrom`. */
  class Extension {
    const extensionClass: ExtensionClass
    const read: V1.CloudEventV1 -> Result<ExtensionFields, ExtensionError>
    var fields: ExtensionFields

    constructor (extensionClass: ExtensionClass, read: V1.CloudEventV1 -> Result<ExtensionFields, ExtensionError>)
      ensures this.extensionClass == extensionClass && this.read == read && fields == map[]
    {
      this.extensionClass := extensionClass;
      this.read := read;
      fields := map[];
    }

    /** `readFrom(event)`: take this extension's values from the event, or throw. On a throw
        the instance is left as it was. */
    method ReadFrom(e: V1.CloudEventV1) returns (outcome: Outcome<ExtensionError>)
      modifies this
      ensures outcome.Fail? <==> read(e).Failure?
      ensures outcome.Fail? ==> outcome.error == read(e).error && fields == old(fields)
      ensures outcome.Pass? ==> fields == read(e).value
    {
      match read(e)
      case Failure(x) =>
        outcome := Fail(x);
      case Success(values) =>
        fields := values;
        outcome := Pass;
    }
  }

  /** `factory.get()`: a new, empty extension of the supplier's class, or the exception
      the factory throws. */
  method Create(factory: Supplier) returns (r: Result<Extension, ExtensionError>)
    ensures r.Failure? <==> factory.creation.Fail?
    ensures r.Failure? ==> r.error == factory.creation.error
    ensures r.Success? ==> fresh(r.value)
    ensures r.Success? ==> r.value.extensionClass == factory.creates && r.value.read == factory.read
    ensures r.Success? ==> r.value.fields == map[]
  {
    if factory.creation.Fail? {
      return Failure(factory.creation.error);
    }
    var ext := new Extension(factory.creates, factory.read);
    r := Success(ext);
  }

  /** What `parseExtension(c, e)` does with registry `factories`: `Success(None)` for the
      `null` it returns, `Success(Some(fields))` for an extension that read `fields`, and
      `Failure` for the exception it throws. */
  function ParseOutcome(factories: map<ExtensionClass, Option<Supplier>>, c: ExtensionClass,
                        e: V1.CloudEventV1): (r: Result<Option<ExtensionFields>, ExtensionError>)
    ensures r == Success(None) <==> c !in factories || factories[c].None?
    ensures r.Failure? ==> c in factories && factories[c].Some?
    ensures r.Failure? ==> factories[c].value.creation.Fail? || factories[c].value.read(e).Failure?
  {
    if c !in factories || factories[c].None? then Success(None)
    else
      var factory := factories[c].value;
      if factory.creation.Fail? then Failure(factory.creation.error)
      else match factory.read(e)
        case Failure(x) => Failure(x)
        case Success(fields) => Success(Some(fields))
  }

  class ExtensionProvider {
    /** The `HashMap`; a class may be mapped to `null` (`None`). */
    var extensionFactories: map<ExtensionClass, Option<Supplier>>

    /** The private constructor: an empty map, then the two built-in registrations. The
        built-in classes' `readFrom` are the parameters; their constructors do not throw. */
    constructor (tracingRead: V1.CloudEventV1 -> Result<ExtensionFields, ExtensionError>,
                 datarefRead: V1.CloudEventV1 -> Result<ExtensionFields, ExtensionError>)
      ensures extensionFactories == map[
        DistributedTracingExtension := Some(Supplier(DistributedTracingExtension, Pass, tracingRead)),
        DatarefExtension := Some(Supplier(DatarefExtension, Pass, datarefRead))]
      ensures extensionFactories.Keys == {DistributedTracingExtension, DatarefExtension}
    {
      extensionFactories := map[];
      new;
      RegisterExtension(DistributedTracingExtension, Some(Supplier(DistributedTracingExtension, Pass, tracingRead)));
      RegisterExtension(DatarefExtension, Some(Supplier(DatarefExtension, Pass, datarefRead)));
    }

    /** `registerExtension`: map the class to the factory (`null` included), replacing any
        earlier factory; every other entry stays as it was. */
    method RegisterExtension(extensionClass: ExtensionClass, factory: Option<Supplier>)
      modifies this
      ensures extensionFactories == old(extensionFactories)[extensionClass := factory]
      ensures extensionFactories[extensionClass] == factory
      ensures forall c :: c != extensionClass ==> (c in extensionFactories <==> c in old(extensionFactories))
      ensures forall c :: c != extensionClass && c in extensionFactories ==>
        extensionFactories[c] == old(extensionFactories)[c]
    {
      extensionFactories := extensionFactories[extensionClass := factory];
    }

    /** `parseExtension`: `null` when `get` finds no factory (an absent key or a `null`
        value); otherwise a fresh extension from that factory that has read itself from
        `e`, or the exception that `get()` or `readFrom` threw. The registry is not changed. */
    method ParseExtension(extensionClass: ExtensionClass, e: V1.CloudEventV1)
      returns (r: Result<Extension?, ExtensionError>)
      ensures r.Failure? <==> ParseOutcome(extensionFactories, extensionClass, e).Failure?
      ensures r.Failure? ==> r.error == ParseOutcome(extensionFactories, extensionClass, e).error
      ensures r.Success? ==> (r.value == null <==> ParseOutcome(extensionFactories, extensionClass, e).value.None?)
      ensures r.Success? && r.value != null ==> fresh(r.value)
      ensures r.Success? && r.value != null ==>
        r.value.extensionClass == extensionFactories[extensionClass].value.creates
      ensures r.Success? && r.value != null ==>
        r.value.fields == ParseOutcome(extensionFactories, extensionClass, e).value.value
    {
      if extensionClass !in extensionFactories || extensionFactories[extensionClass].None? {
        return Success(null);
      }
      var factory := extensionFactories[extensionClass].value;
      var created := Create(factory);
      if created.Failure? {
        return Failure(created.error);
      }
      var ext := created.value;
      var outcome := ext.ReadFrom(e);
      if outcome.Fail? {
        return Failure(outcome.error);
      }
      r := Success(ext);
    }
  }

  /** A registration is what a later parse of that class uses, until the next one for the
      same class: a factory that creates and reads without throwing gives its extension. */
  method RegisterThenParse(provider: ExtensionProvider, extensionClass: ExtensionClass, factory: Supplier,
                           e: V1.CloudEventV1) returns (r: Result<Extension?, ExtensionError>)
    modifies provider
    ensures factory.creation.Pass? && factory.read(e).Success? ==> r.Success? && r.value != null
    ensures factory.creation.Pass? && factory.read(e).Success? ==> fresh(r.value)
    ensures factory.creation.Pass? && factory.read(e).Success? ==>
      r.value.extensionClass == factory.creates && r.value.fields == factory.read(e).value
    ensures factory.creation.Fail? ==> r == Failure(factory.creation.error)
    ensures factory.creation.Pass? && factory.read(e).Failure? ==> r == Failure(factory.read(e).error)
  {
    provider.RegisterExtension(extensionClass, Some(factory));
    r := provider.ParseExtension(extensionClass, e);
  }

  /** Registering `null` for a class keeps the class as a key, yet a later parse of it
      returns `null`, as for a class never registered. */
  method RegisterNullThenParse(provider: ExtensionProvider, extensionClass: ExtensionClass,
                               e: V1.CloudEventV1) returns (r: Result<Extension?, ExtensionError>)
    modifies provider
    ensures extensionClass in provider.extensionFactories
    ensures r == Success(null)
  {
    provider.RegisterExtension(extensionClass, None);
    r := provider.ParseExtension(extensionClass, e);
  }

  /** A parse whose factory is registered, creates and reads without throwing yields exactly
      the fields that the factory's `readFrom` extracts from the event. */
  lemma ParseOutcomeOfRegistered(factories: map<ExtensionClass, Option<Supplier>>, c: ExtensionClass,
                                 factory: Supplier, e: V1.CloudEventV1)
    requires factory.creation.Pass? && factory.read(e).Success?
    ensures ParseOutcome(factories[c := Some(factory)], c, e) == Success(Some(factory.read(e).value))
    ensures forall d :: d != c ==> ParseOutcome(factories[c := Some(factory)], d, e) == ParseOutcome(factories, d, e)
  {
    forall d | d != c
      ensures ParseOutcome(factories[c := Some(factory)], d, e) == ParseOutcome(factories, d, e)
    {
      assert (d in factories[c := Some(factory)]) == (d in factories);
    }
  }
}
