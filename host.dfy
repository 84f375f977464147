/** The host objects the enforcer patches, reduced to what it observes of
    them: prototype objects with a constructor name and a prototype chain,
    the own members they carry, and the three redefinition primitives of
    `./utils/wrapper.js` (`installFunction`, `installSetter`,
    `installSetterAndGetter`), which become updates of a map from
    (object, member name) to the own member. */
module Host {
  import opened JsValues
  import opened SinkCatalog

  /** An object that owns members: a prototype such as `Element.prototype`,
      or `window`. `ctorName` is `object.constructor.name`. The prototype
      chain is part of the value, so it is finite and acyclic. */
  datatype Surface =
    | Root(ctorName: string)
    | Derived(ctorName: string, proto: Surface)

  /** `isPrototypeOf.call(d, o)`: `d` is on the prototype chain of `o`,
      strictly above it. */
  predicate IsPrototypeOf(d: Surface, o: Surface)
  {
    o.Derived? && (o.proto == d || IsPrototypeOf(d, o.proto))
  }

  /** An object is never its own prototype, so a descriptor object that
      passes the prototype check is a different object. */
  lemma {:induction false} PrototypeIsProper(d: Surface, o: Surface)
    requires IsPrototypeOf(d, o)
    ensures d != o
  {
    PrototypeIsSmaller(d, o);
  }

  lemma {:induction false} PrototypeIsSmaller(d: Surface, o: Surface)
    requires IsPrototypeOf(d, o)
    ensures d < o
  {
    if o.proto != d {
      PrototypeIsSmaller(d, o.proto);
    }
  }

  /** What a wrapper installed by `wrapFunction_` does with its arguments:
      the three function bodies the enforcer passes to it. */
  datatype Body =
    | EnforceArgument(name: string, kind: Kind, argNumber: nat)   // wrapWithEnforceFunction_
    | SetAttributeBody                                           // wrapSetAttribute_, setAttribute
    | SetAttributeNSBody                                         // wrapSetAttribute_, setAttributeNS

  /** A function or accessor implementation. A wrapper carries the original
      it closes over, so restoring can be checked to reinstall exactly it. */
  datatype Impl =
    | Native(id: nat)
    | FunctionWrapper(body: Body, original: Impl)
    | EnforcingSetter(property: string, kind: Kind, original: Impl)

  /** An own property descriptor: a data property holding a function, a data
      property holding anything else, or an accessor pair. */
  datatype Member =
    | Method(fn: Impl)
    | DataValue
    | Accessor(setter: Option<Impl>, getter: Option<Impl>)

  type HostMap = map<(Surface, string), Member>

  /** `getOwnPropertyDescriptor(o, name).value`, when it is a function. */
  function OwnFunction(host: HostMap, o: Surface, name: string): Option<Impl>
  {
    if (o, name) in host && host[(o, name)].Method? then Some(host[(o, name)].fn) else None
  }

  /** `getOwnPropertyDescriptor(o, name).set`, when it is a function. */
  function OwnSetter(host: HostMap, o: Surface, name: string): Option<Impl>
  {
    if (o, name) in host && host[(o, name)].Accessor? then host[(o, name)].setter else None
  }

  /** `descriptor.get` of an existing own descriptor. */
  function GetterOf(m: Member): Option<Impl>
  {
    if m.Accessor? then m.getter else None
  }

  /** `installFunction(o, name, fn)`: `o.name` becomes a data property holding `fn`. */
  function InstallFunction(host: HostMap, o: Surface, name: string, fn: Impl): HostMap
  {
    host[(o, name) := Method(fn)]
  }

  /** `installSetter(o, name, setter)`: redefines only the setter, so an own
      accessor keeps its getter. */
  function InstallSetter(host: HostMap, o: Surface, name: string, setter: Impl): HostMap
  {
    var getter := if (o, name) in host then GetterOf(host[(o, name)]) else None;
    host[(o, name) := Accessor(Some(setter), getter)]
  }

  /** `installSetterAndGetter(o, name, setter, getter)` */
  function InstallSetterAndGetter(host: HostMap, o: Surface, name: string, setter: Impl, getter: Option<Impl>): HostMap
  {
    host[(o, name) := Accessor(Some(setter), getter)]
  }

  /** Property lookup: the own member of the first object on the prototype
      chain, starting at `o`, that has one. */
  function Resolve(host: HostMap, o: Surface, name: string): (r: Option<Member>)
    ensures (o, name) in host ==> r == Some(host[(o, name)])
  {
    if (o, name) in host then Some(host[(o, name)])
    else if o.Root? then None
    else Resolve(host, o.proto, name)
  }

  /** No object strictly between `o` and its ancestor `d` has an own `name`. */
  predicate NothingBetween(host: HostMap, d: Surface, o: Surface, name: string)
  {
    o.Derived? && (o.proto == d || ((o.proto, name) !in host && NothingBetween(host, d, o.proto, name)))
  }

  /** A subtype that has no own `name` and nothing between it and `d` sees
      `d`'s own member. */
  lemma {:induction false} ResolveInherited(host: HostMap, d: Surface, o: Surface, name: string)
    requires (o, name) !in host && (d, name) in host
    requires NothingBetween(host, d, o, name)
    ensures Resolve(host, o, name) == Some(host[(d, name)])
  {
    if o.proto != d {
      ResolveInherited(host, d, o.proto, name);
    }
  }
}

/** The errors the enforcer raises. */
module Errors {
  import opened SinkCatalog

  datatype Error =
    | NotAFunction(name: string)            // wrapFunction_: no own function to wrap
    | NoSetter(name: string)                // wrapSetter_: no own setter to wrap
    | DoubleInstallation                    // a wrap whose key is already recorded
    | CannotRestore                         // a restore whose key is not recorded
    | InvalidPrototypeChain                 // descriptorObject is not a prototype of object
    | MissingDescriptor(name: string)       // restoreSetter_ reads `.get` of an absent descriptor
    | MissingInterface(typeName: string)    // `window[type]` is undefined
    | TypeRequirement(property: string, kind: Kind)   // the TypeError thrown by enforce_
    | UntypedRequirement(property: string, typeName: string)   // the same, for a type that is no trusted kind
    | UncallableProducer(typeName: string)  // `TYPE_PRODUCER_MAP[typeName]` is undefined
}
