/** The attribute lookup of `getRequiredTypeForAttribute_` as written.
    `SET_ATTRIBUTE_TYPE_MAP[type]` is a plain object literal, so indexing it
    with an attribute name it does not declare still finds the members of
    `Object.prototype`. Of those, only `constructor` and `__proto__` are
    written in lower case, the only form the wrapper asks for. `constructor`
    is the function `Object`, which passes the wrapper's
    `type instanceof Function` test, so `setAttribute('constructor', v)` on
    any HTML element is enforced against a type named `Object`, which no
    value can satisfy. `setAttributeNS` reads the receiver's own entry the
    same way, with the same result. The rest of the model reads own entries only
    (`SinkCatalog.Lookup`), which is the evident intent; this module keeps
    the as-written reading next to it and exhibits the difference. */
module InheritedAttributeKeys {
  import opened JsValues
  import opened SinkCatalog
  import opened Host
  import opened Errors
  import opened Enforcement

  /** What `SET_ATTRIBUTE_TYPE_MAP[type][attribute]` yields on a plain object. */
  datatype MapRead =
    | Entry(kind: Kind)     // an own entry: a trusted type constructor
    | ObjectFunction        // the inherited `constructor`: the function `Object`
    | ObjectPrototype       // the inherited `__proto__`: an object, not a function
    | Missing               // `undefined`

  /** The members of `Object.prototype` a lower-case attribute name reaches. */
  function InheritedRead(attribute: string): MapRead
  {
    if attribute == "constructor" then ObjectFunction
    else if attribute == "__proto__" then ObjectPrototype
    else Missing
  }

  /** One level of the walk as written: own entries, then inherited members. */
  function LookupAsWritten(table: Table, typeName: string, attribute: string): (r: MapRead)
    ensures Lookup(table, typeName, attribute).Some? ==> r == Entry(Lookup(table, typeName, attribute).value)
    ensures FindType(table, typeName).Some? && Lookup(table, typeName, attribute).None? ==> r == InheritedRead(attribute)
  {
    match FindType(table, typeName)
    case None => Missing
    case Some(attributes) =>
      match FindAttribute(attributes, attribute)
      case Some(kind) => Entry(kind)
      case None => InheritedRead(attribute)
  }

  /** `getRequiredTypeForAttribute_` as written: the walk stops at the first
      level whose read is truthy, or at `HTMLElement`. */
  function RequiredTypeAsWritten(table: Table, chain: seq<string>, attribute: string): (r: MapRead)
    // For a name no member of `Object.prototype` answers to, the walk as
    // written ends where the own-entry walk does, with the same kind.
    ensures InheritedRead(attribute).Missing? ==>
            r == (if RequiredTypeForAttribute(table, chain, attribute).Some?
                  then Entry(RequiredTypeForAttribute(table, chain, attribute).value) else Missing)
    decreases |chain|
  {
    if chain == [] then Missing
    else
      var level := if chain[0] == "" then Missing else LookupAsWritten(table, chain[0], attribute);
      if !level.Missing? || chain[0] == BaseElement then level
      else RequiredTypeAsWritten(table, chain[1..], attribute)
  }

  /** `enforce_` with `typeToEnforce` the function `Object`: there is no
      checker named `Object`, the `on*` exemption is for Script only, and
      `TYPE_PRODUCER_MAP['Object']` is undefined, so calling it throws. */
  function EnforceAsObject(cfg: Config, p: Provider, context: Receiver, propertyName: string,
                           original: Impl, argNumber: nat, args: seq<Value>): (r: Decision)
    ensures r.outcome.CallOriginal? <==> ArgAt(args, argNumber).Func?
    ensures r.outcome.CallOriginal? ==> r == Pass(original, context, args)
  {
    var value := ArgAt(args, argNumber);
    if value.Func? then Pass(original, context, args)
    else if FallbackAvailable(cfg, p) then Decision(Throw(UncallableProducer("Object")), false)
    else Decision(if cfg.isEnforcementEnabled then Throw(UntypedRequirement(propertyName, "Object")) else Silent,
                  cfg.isLoggingEnabled)
  }

  /** `setAttributeWrapper_` as written. */
  function SetAttributeCallAsWritten(cfg: Config, p: Provider, table: Table, context: Receiver,
                                     original: Impl, args: seq<Value>): (r: Decision)
    ensures context.ctor.NullConstructor? ==> r == Pass(original, context, args)
  {
    if context.ctor.NullConstructor? then Pass(original, context, args)
    else
      var args' := StringifyArg(args, 0);
      var attrName := ToLowerCase(ToJsString(ArgAt(args, 0)));
      match RequiredTypeAsWritten(table, context.ctor.names, attrName)
      case Entry(kind) => Enforce(cfg, p, context, "setAttribute", kind, original, 1, args')
      case ObjectFunction => EnforceAsObject(cfg, p, context, "setAttribute", original, 1, args')
      case _ => Pass(original, context, args')
  }

  /** `setAttributeNSWrapper_` as written: the receiver's own constructor
      entry, read on a plain object. */
  function SetAttributeNSCallAsWritten(cfg: Config, p: Provider, table: Table, context: Receiver,
                                       original: Impl, args: seq<Value>): (r: Decision)
    ensures context.ctor.NullConstructor? ==> r == Pass(original, context, args)
  {
    if context.ctor.NullConstructor? then Pass(original, context, args)
    else
      var args1 := StringifyArg(args, 0);
      var args2 := StringifyArg(args1, 1);
      var attrName := ToLowerCase(ToJsString(ArgAt(args1, 1)));
      var names := context.ctor.names;
      var read := if names == [] || names[0] == "" then Missing else LookupAsWritten(table, names[0], attrName);
      match read
      case Entry(kind) => Enforce(cfg, p, context, "setAttributeNS", kind, original, 2, args2)
      case ObjectFunction => EnforceAsObject(cfg, p, context, "setAttributeNS", original, 2, args2)
      case _ => Pass(original, context, args2)
  }

  /** The attribute names the catalog declares for any type. */
  predicate Declared(table: Table, attribute: string)
  {
    exists i, j :: 0 <= i < |table| && 0 <= j < |table[i].attributes| && table[i].attributes[j].attribute == attribute
  }

  lemma {:induction false} UndeclaredHasNoLevelType(table: Table, name: string, attribute: string)
    requires !Declared(table, attribute)
    ensures LevelType(table, name, attribute).None?
  {
    var found := FindType(table, name);
    if name != "" && found.Some? {
      var i :| 0 <= i < |table| && table[i] == TypeEntry(name, found.value) &&
               forall j :: 0 <= j < i ==> table[j].typeName != name;
      forall j | 0 <= j < |found.value| ensures found.value[j].attribute != attribute {
        assert found.value[j] == table[i].attributes[j];
      }
    }
  }

  lemma {:induction false} UndeclaredHasNoRequirement(table: Table, chain: seq<string>, attribute: string)
    requires !Declared(table, attribute)
    ensures RequiredTypeForAttribute(table, chain, attribute).None?
    decreases |chain|
  {
    if chain != [] {
      UndeclaredHasNoLevelType(table, chain[0], attribute);
      UndeclaredHasNoRequirement(table, chain[1..], attribute);
    }
  }

  /** The intended behaviour, proved of the own-entry lookup the model uses:
      an attribute no catalog entry declares is passed to the original
      `setAttribute`, with only its name converted to a string. */
  lemma {:induction false} UndeclaredAttributePasses(cfg: Config, p: Provider, table: Table, context: Receiver,
                                                     original: Impl, args: seq<Value>)
    requires context.ctor.Chain?
    requires !Declared(table, ToLowerCase(ToJsString(ArgAt(args, 0))))
    ensures SetAttributeCall(cfg, p, table, context, original, args) == Pass(original, context, StringifyArg(args, 0))
  {
    UndeclaredHasNoRequirement(table, context.ctor.names, ToLowerCase(ToJsString(ArgAt(args, 0))));
  }

  /** The same intent for `setAttributeNS`: an undeclared attribute is
      passed on with only the namespace and the name stringified. */
  lemma {:induction false} UndeclaredNSAttributePasses(cfg: Config, p: Provider, table: Table, context: Receiver,
                                                       original: Impl, args: seq<Value>)
    requires context.ctor.Chain?
    requires !Declared(table, ToLowerCase(ToJsString(ArgAt(args, 1))))
    ensures SetAttributeNSCall(cfg, p, table, context, original, args) ==
            Pass(original, context, StringifyArg(StringifyArg(args, 0), 1))
  {
    if context.ctor.names != [] {
      UndeclaredHasNoLevelType(table, context.ctor.names[0], ToLowerCase(ToJsString(ArgAt(args, 1))));
    }
  }

  /** No catalog entry declares `constructor`: the static entries do not,
      and the added entries all start with "on". */
  lemma ConstructorIsUndeclared(ownNames: seq<string>)
    ensures !Declared(AttributeTypeTable(ownNames), "constructor")
  {
    var t := AttributeTypeTable(ownNames);
    var h := HandlerNames(ownNames);
    forall i, j | 0 <= i < |t| && 0 <= j < |t[i].attributes| ensures t[i].attributes[j].attribute != "constructor" {
      if i == |t| - 1 {
        assert t[i].attributes[j].attribute == h[j];
        assert h[j] in h;
        assert StartsWithOn(h[j]);
      } else {
        assert t[i] == StaticTable()[i];
      }
    }
  }

  /** The constructor chain of an element whose constructor is
      `HTMLElement` itself, such as `<section>`: `Function.prototype` and
      `Object.prototype` have empty names. */
  function SectionChain(): seq<string>
  {
    [BaseElement, "Element", "Node", "EventTarget", "", ""]
  }

  /** For such an element the walk as written stops at once, with the
      inherited `constructor`. */
  lemma SectionConstructorReadsObject(ownNames: seq<string>)
    ensures RequiredTypeAsWritten(AttributeTypeTable(ownNames), SectionChain(), "constructor") == ObjectFunction
  {
    HandlerLookup(ownNames, "constructor");
  }

  /** `String('constructor').toLowerCase()` is `'constructor'`. */
  lemma ConstructorNameIsLower(args: seq<Value>)
    requires args == [Str("constructor"), Str("x")]
    ensures ToLowerCase(ToJsString(ArgAt(args, 0))) == "constructor"
    ensures StringifyArg(args, 0) == args
  {
    assert IsLower("constructor");
  }

  /** The counterexample: `section.setAttribute('constructor', 'x')` under
      enforcement without a fallback policy. As written it throws the type
      requirement for `Object`; with own entries only it reaches the
      original `setAttribute` unchanged. */
  lemma ConstructorAttributeIsBlocked(ownNames: seq<string>, cfg: Config, p: Provider, original: Impl, id: nat)
    requires cfg.isEnforcementEnabled && !FallbackAvailable(cfg, p)
    ensures var table := AttributeTypeTable(ownNames);
            var section := Receiver(id, Chain(SectionChain()));
            var args := [Str("constructor"), Str("x")];
            SetAttributeCallAsWritten(cfg, p, table, section, original, args).outcome ==
              Throw(UntypedRequirement("setAttribute", "Object")) &&
            SetAttributeCall(cfg, p, table, section, original, args) == Pass(original, section, args)
  {
    var table := AttributeTypeTable(ownNames);
    var section := Receiver(id, Chain(SectionChain()));
    var args := [Str("constructor"), Str("x")];
    ConstructorNameIsLower(args);
    SectionConstructorReadsObject(ownNames);
    ConstructorIsUndeclared(ownNames);
    UndeclaredAttributePasses(cfg, p, table, section, original, args);
  }

  /** `String(ns)` and `String('constructor')`, lower-cased, change nothing. */
  lemma ConstructorNSArgumentsAreKept(args: seq<Value>)
    requires args == [Str("ns"), Str("constructor"), Str("x")]
    ensures ToLowerCase(ToJsString(ArgAt(StringifyArg(args, 0), 1))) == "constructor"
    ensures ToLowerCase(ToJsString(ArgAt(args, 1))) == "constructor"
    ensures StringifyArg(StringifyArg(args, 0), 1) == args
  {
    assert IsLower("constructor");
    assert StringifyArg(args, 0) == args;
  }

  /** A receiver whose own entry reads the inherited `constructor` is
      enforced against `Object` by `setAttributeNS` as written, which throws
      under enforcement when there is no fallback policy. */
  lemma {:induction false} NSObjectReadThrows(cfg: Config, p: Provider, table: Table, context: Receiver,
                                              original: Impl, args: seq<Value>)
    requires context.ctor.Chain? && context.ctor.names != [] && context.ctor.names[0] != ""
    requires LookupAsWritten(table, context.ctor.names[0], ToLowerCase(ToJsString(ArgAt(StringifyArg(args, 0), 1)))) ==
             ObjectFunction
    requires cfg.isEnforcementEnabled && !FallbackAvailable(cfg, p)
    requires !ArgAt(StringifyArg(StringifyArg(args, 0), 1), 2).Func?
    ensures SetAttributeNSCallAsWritten(cfg, p, table, context, original, args).outcome ==
            Throw(UntypedRequirement("setAttributeNS", "Object"))
  {
  }

  /** As written, `section.setAttributeNS('ns', 'constructor', 'x')` under
      enforcement without a fallback policy throws the type requirement
      for `Object`. */
  lemma SectionNSConstructorThrows(ownNames: seq<string>, cfg: Config, p: Provider, original: Impl, id: nat)
    requires cfg.isEnforcementEnabled && !FallbackAvailable(cfg, p)
    ensures SetAttributeNSCallAsWritten(cfg, p, AttributeTypeTable(ownNames), Receiver(id, Chain(SectionChain())),
                                        original, [Str("ns"), Str("constructor"), Str("x")]).outcome ==
            Throw(UntypedRequirement("setAttributeNS", "Object"))
  {
    var args := [Str("ns"), Str("constructor"), Str("x")];
    ConstructorNSArgumentsAreKept(args);
    HandlerLookup(ownNames, "constructor");
    var table := AttributeTypeTable(ownNames);
    assert LookupAsWritten(table, BaseElement, "constructor") == ObjectFunction;
    NSObjectReadThrows(cfg, p, table, Receiver(id, Chain(SectionChain())), original, args);
  }

  /** The same counterexample through `setAttributeNS`:
      `section.setAttributeNS('ns', 'constructor', 'x')` throws as written,
      and reaches the original unchanged with own entries only. */
  lemma ConstructorNSAttributeIsBlocked(ownNames: seq<string>, cfg: Config, p: Provider, original: Impl, id: nat)
    requires cfg.isEnforcementEnabled && !FallbackAvailable(cfg, p)
    ensures var table := AttributeTypeTable(ownNames);
            var section := Receiver(id, Chain(SectionChain()));
            var args := [Str("ns"), Str("constructor"), Str("x")];
            SetAttributeNSCallAsWritten(cfg, p, table, section, original, args).outcome ==
              Throw(UntypedRequirement("setAttributeNS", "Object")) &&
            SetAttributeNSCall(cfg, p, table, section, original, args) == Pass(original, section, args)
  {
    var table := AttributeTypeTable(ownNames);
    var section := Receiver(id, Chain(SectionChain()));
    var args := [Str("ns"), Str("constructor"), Str("x")];
    SectionNSConstructorThrows(ownNames, cfg, p, original, id);
    ConstructorNSArgumentsAreKept(args);
    ConstructorIsUndeclared(ownNames);
    UndeclaredNSAttributePasses(cfg, p, table, section, original, args);
  }
}
