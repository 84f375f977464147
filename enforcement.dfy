/** The decision the enforcer takes on every intercepted call (`enforce_`),
    the attribute type resolution of the `setAttribute` and `setAttributeNS`
    wrappers, and what calling an installed wrapper amounts to.

    The policy provider is a parameter: `isType(kind, v)` stands for
    `TrustedTypes.isHTML` and its siblings, `create(kind, policy, v)` for
    `TrustedTypes.createHTML` and its siblings, `policyNames` for the
    current result of `TrustedTypes.getPolicyNames()`. */
module Enforcement {
  import opened JsValues
  import opened SinkCatalog
  import opened Host
  import opened Errors

  /** `context.constructor`: `null`, or an object. For an object, `names` are
      the names of it and of every object `getPrototypeOf` reaches from it,
      in order, up to the end of the chain. */
  datatype ConstructorChain = NullConstructor | Chain(names: seq<string>)

  /** The receiver (`this`) of an intercepted call. */
  datatype Receiver = Receiver(id: nat, ctor: ConstructorChain)

  /** The resolved configuration. */
  datatype Config = Config(
    isEnforcementEnabled: bool,
    isLoggingEnabled: bool,
    fallbackPolicyName: Option<string>,
    allowedPolicyNames: seq<string>)

  /** The capabilities of the policy provider that the enforcer consumes. */
  datatype Provider = Provider(
    isType: (Kind, Value) -> bool,
    create: (Kind, string, Value) -> Value,
    policyNames: seq<string>)

  /** How an intercepted call ends: control passes to `fn` with this
      receiver and these arguments, a TypeError is thrown, or the call
      returns `undefined` without doing anything. */
  datatype Outcome =
    | CallOriginal(fn: Impl, receiver: Receiver, args: seq<Value>)
    | Throw(error: Error)
    | Silent

  /** An outcome and whether the violation warning was logged. */
  datatype Decision = Decision(outcome: Outcome, logged: bool)

  function Pass(fn: Impl, receiver: Receiver, args: seq<Value>): Decision
  {
    Decision(CallOriginal(fn, receiver, args), false)
  }

  /** The two exemptions at src/enforcer.js:572-574, as the operators group:
      `(kind is Script && name starts with "on" && value === null) || typeof value === 'function'`. */
  predicate Exempt(propertyName: string, kind: Kind, value: Value)
  {
    (kind == Script && StartsWithOn(propertyName) && value == Null) || value.Func?
  }

  /** `fallback && TrustedTypes.getPolicyNames().includes(fallback)` */
  predicate FallbackAvailable(cfg: Config, p: Provider)
  {
    cfg.fallbackPolicyName.Some? && cfg.fallbackPolicyName.value != "" &&
    cfg.fallbackPolicyName.value in p.policyNames
  }

  function FallbackValue(cfg: Config, p: Provider, kind: Kind, value: Value): Value
    requires FallbackAvailable(cfg, p)
  {
    p.create(kind, cfg.fallbackPolicyName.value, value)
  }

  /** The fallback policy produces a value that passes the kind's checker. */
  predicate FallbackSucceeds(cfg: Config, p: Provider, kind: Kind, value: Value)
  {
    FallbackAvailable(cfg, p) && p.isType(kind, FallbackValue(cfg, p, kind, value))
  }

  /** Neither compliant, nor exempt, nor rescued by the fallback policy. */
  predicate Violation(cfg: Config, p: Provider, propertyName: string, kind: Kind, value: Value)
  {
    !p.isType(kind, value) && !Exempt(propertyName, kind, value) && !FallbackSucceeds(cfg, p, kind, value)
  }

  /** `enforce_(context, propertyName, kind, original, argNumber, args)`. */
  function Enforce(cfg: Config, p: Provider, context: Receiver, propertyName: string, kind: Kind,
                   original: Impl, argNumber: nat, args: seq<Value>): (r: Decision)
    // A value that passes the checker goes through untouched.
    ensures p.isType(kind, ArgAt(args, argNumber)) ==> r == Pass(original, context, args)
    // So does any function value, for every sink, and null for an on* Script sink.
    ensures Exempt(propertyName, kind, ArgAt(args, argNumber)) ==> r == Pass(original, context, args)
    // Control only ever passes to the original, on the same receiver, and never with a warning.
    ensures r.outcome.CallOriginal? ==> r.outcome.fn == original && r.outcome.receiver == context && !r.logged
    // An argument is substituted exactly when the fallback policy rescues a value
    // that is neither compliant nor exempt; then only that argument changes.
    ensures (r.outcome.CallOriginal? && r.outcome.args != args) <==>
            (!p.isType(kind, ArgAt(args, argNumber)) && !Exempt(propertyName, kind, ArgAt(args, argNumber)) &&
             FallbackSucceeds(cfg, p, kind, ArgAt(args, argNumber)))
    ensures r.outcome.CallOriginal? && r.outcome.args != args ==>
            FallbackAvailable(cfg, p) &&
            r.outcome.args == SetArg(args, argNumber, FallbackValue(cfg, p, kind, ArgAt(args, argNumber))) &&
            p.isType(kind, ArgAt(r.outcome.args, argNumber))
    // Otherwise it is a violation: logged iff logging is on, thrown iff enforcement is on,
    // and with enforcement off the call returns without reaching the original.
    ensures !r.outcome.CallOriginal? <==> Violation(cfg, p, propertyName, kind, ArgAt(args, argNumber))
    ensures r.logged <==> Violation(cfg, p, propertyName, kind, ArgAt(args, argNumber)) && cfg.isLoggingEnabled
    ensures r.outcome.Throw? <==> Violation(cfg, p, propertyName, kind, ArgAt(args, argNumber)) && cfg.isEnforcementEnabled
    ensures r.outcome.Throw? ==> r.outcome.error == TypeRequirement(propertyName, kind)
    ensures r.outcome.Silent? <==> Violation(cfg, p, propertyName, kind, ArgAt(args, argNumber)) && !cfg.isEnforcementEnabled
  {
    var value := ArgAt(args, argNumber);
    if p.isType(kind, value) then
      Pass(original, context, args)
    else if (kind == Script && StartsWithOn(propertyName) && value == Null) || value.Func? then
      Pass(original, context, args)
    else if FallbackAvailable(cfg, p) && p.isType(kind, FallbackValue(cfg, p, kind, value)) then
      var substituted := SetArg(args, argNumber, FallbackValue(cfg, p, kind, value));
      assert ArgAt(substituted, argNumber) != value;
      Pass(original, context, substituted)
    else
      Decision(if cfg.isEnforcementEnabled then Throw(TypeRequirement(propertyName, kind)) else Silent,
               cfg.isLoggingEnabled)
  }

  /** The enforcement flag only chooses between throwing and returning
      silently: it never changes whether the original runs, with which
      arguments, or whether the warning is logged. */
  lemma EnforcementFlagOnlyChoosesThrow(cfg: Config, p: Provider, context: Receiver, propertyName: string,
                                        kind: Kind, original: Impl, argNumber: nat, args: seq<Value>)
    ensures var on := Enforce(cfg.(isEnforcementEnabled := true), p, context, propertyName, kind, original, argNumber, args);
            var off := Enforce(cfg.(isEnforcementEnabled := false), p, context, propertyName, kind, original, argNumber, args);
            on.logged == off.logged &&
            (on.outcome.CallOriginal? <==> off.outcome.CallOriginal?) &&
            (on.outcome.CallOriginal? ==> on.outcome == off.outcome) &&
            (on.outcome.Throw? <==> off.outcome.Silent?)
  {
  }

  /** The logging flag only decides whether a violation is logged. */
  lemma LoggingFlagOnlyChoosesLog(cfg: Config, p: Provider, context: Receiver, propertyName: string,
                                  kind: Kind, original: Impl, argNumber: nat, args: seq<Value>)
    ensures var on := Enforce(cfg.(isLoggingEnabled := true), p, context, propertyName, kind, original, argNumber, args);
            var off := Enforce(cfg.(isLoggingEnabled := false), p, context, propertyName, kind, original, argNumber, args);
            on.outcome == off.outcome && !off.logged &&
            (on.logged <==> !on.outcome.CallOriginal?)
  {
  }

  /** The type at one level of the walk: `ctor.name && MAP[ctor.name] && MAP[ctor.name][attrName]`. */
  function LevelType(table: Table, name: string, attribute: string): Option<Kind>
  {
    if name == "" then None else Lookup(table, name, attribute)
  }

  /** The exemption is a disjunction: a function value is exempt at every
      sink, whatever its kind and name; `null` only at an `on*` Script sink;
      strings and `undefined` never. */
  lemma ExemptCases(propertyName: string, kind: Kind, value: Value)
    ensures value.Func? ==> Exempt(propertyName, kind, value)
    ensures value == Null ==> (Exempt(propertyName, kind, value) <==> kind == Script && StartsWithOn(propertyName))
    ensures value.Str? || value == Undefined ==> !Exempt(propertyName, kind, value)
  {
  }

  /** The walk stops at a level that declares the attribute, or at `HTMLElement`. */
  predicate StopsWalk(table: Table, name: string, attribute: string)
  {
    LevelType(table, name, attribute).Some? || name == BaseElement
  }

  /** `getRequiredTypeForAttribute_` as a function of the constructor chain:
      the entry of the first level at which the walk stops (which at
      `HTMLElement` may be absent), or none when no level stops it. */
  function RequiredTypeForAttribute(table: Table, chain: seq<string>, attribute: string): Option<Kind>
    decreases |chain|
  {
    if chain == [] then None
    else
      var t := LevelType(table, chain[0], attribute);
      if t.Some? || chain[0] == BaseElement then t
      else RequiredTypeForAttribute(table, chain[1..], attribute)
  }

  /** The walk's result is the entry of the first level that stops it. */
  lemma {:induction false} FirstStopDecides(table: Table, chain: seq<string>, attribute: string, j: nat)
    requires j < |chain| && StopsWalk(table, chain[j], attribute)
    requires forall i :: 0 <= i < j ==> !StopsWalk(table, chain[i], attribute)
    ensures RequiredTypeForAttribute(table, chain, attribute) == LevelType(table, chain[j], attribute)
    decreases j
  {
    if j > 0 {
      assert !StopsWalk(table, chain[0], attribute);
      assert chain[1..][j - 1] == chain[j];
      forall i | 0 <= i < j - 1 ensures !StopsWalk(table, chain[1..][i], attribute) {
        assert chain[1..][i] == chain[i + 1];
      }
      FirstStopDecides(table, chain[1..], attribute, j - 1);
    }
  }

  /** A walk that no level stops finds no type. */
  lemma {:induction false} NoStopFindsNothing(table: Table, chain: seq<string>, attribute: string)
    requires forall i :: 0 <= i < |chain| ==> !StopsWalk(table, chain[i], attribute)
    ensures RequiredTypeForAttribute(table, chain, attribute) == None
    decreases |chain|
  {
    if chain != [] {
      assert !StopsWalk(table, chain[0], attribute);
      forall i | 0 <= i < |chain[1..]| ensures !StopsWalk(table, chain[1..][i], attribute) {
        assert chain[1..][i] == chain[i + 1];
      }
      NoStopFindsNothing(table, chain[1..], attribute);
    }
  }

  /** `args[0] = String(args[0])` */
  function StringifyArg(args: seq<Value>, i: nat): seq<Value>
  {
    SetArg(args, i, Str(ToJsString(ArgAt(args, i))))
  }

  /** `setAttributeWrapper_(context, originalFn, ...args)`. */
  function SetAttributeCall(cfg: Config, p: Provider, table: Table, context: Receiver,
                            original: Impl, args: seq<Value>): (r: Decision)
    // Without a constructor the call goes straight to the original, untouched.
    ensures context.ctor.NullConstructor? ==> r == Pass(original, context, args)
    // Otherwise the name is stringified in place and looked up lower-cased along the chain;
    // without a kind the call goes to the original, with one only argument 1 is enforced.
    ensures context.ctor.Chain? ==>
            var kind := RequiredTypeForAttribute(table, context.ctor.names, ToLowerCase(ToJsString(ArgAt(args, 0))));
            (kind.None? ==> r == Pass(original, context, StringifyArg(args, 0))) &&
            (kind.Some? ==> r == Enforce(cfg, p, context, "setAttribute", kind.value, original, 1, StringifyArg(args, 0)))
  {
    if context.ctor.NullConstructor? then Pass(original, context, args)
    else
      var args' := StringifyArg(args, 0);
      var attrName := ToLowerCase(ToJsString(ArgAt(args, 0)));
      var kind := RequiredTypeForAttribute(table, context.ctor.names, attrName);
      if kind.Some? then Enforce(cfg, p, context, "setAttribute", kind.value, original, 1, args')
      else Pass(original, context, args')
  }

  /** The type `setAttributeNSWrapper_` looks up: the receiver's own
      constructor only, with no walk up the chain. */
  function OwnAttributeType(table: Table, chain: seq<string>, attribute: string): Option<Kind>
  {
    if chain == [] then None else LevelType(table, chain[0], attribute)
  }

  /** `setAttributeNSWrapper_(context, originalFn, ...args)`; every namespace
      is taken for the HTML namespace, as `isHtmlNamespace` answers true. */
  function SetAttributeNSCall(cfg: Config, p: Provider, table: Table, context: Receiver,
                              original: Impl, args: seq<Value>): (r: Decision)
    ensures context.ctor.NullConstructor? ==> r == Pass(original, context, args)
    ensures context.ctor.Chain? ==>
            var args' := StringifyArg(StringifyArg(args, 0), 1);
            var kind := OwnAttributeType(table, context.ctor.names, ToLowerCase(ToJsString(ArgAt(args, 1))));
            (kind.None? ==> r == Pass(original, context, args')) &&
            (kind.Some? ==> r == Enforce(cfg, p, context, "setAttributeNS", kind.value, original, 2, args'))
  {
    if context.ctor.NullConstructor? then Pass(original, context, args)
    else
      var args1 := StringifyArg(args, 0);
      var args2 := StringifyArg(args1, 1);
      var attrName := ToLowerCase(ToJsString(ArgAt(args1, 1)));
      var kind := OwnAttributeType(table, context.ctor.names, attrName);
      if kind.Some? then Enforce(cfg, p, context, "setAttributeNS", kind.value, original, 2, args2)
      else Pass(original, context, args2)
  }

  /** Calling the function `fn` installed on a host object: a wrapper runs its
      body with the original it closed over, anything else runs itself. */
  function CallFunction(cfg: Config, p: Provider, table: Table, fn: Impl, receiver: Receiver,
                        args: seq<Value>): (r: Decision)
    // Anything but a wrapper function is just called.
    ensures !fn.FunctionWrapper? ==> r == Pass(fn, receiver, args)
    // A wrapper only ever hands control to the function it wraps, on the same receiver.
    ensures fn.FunctionWrapper? && r.outcome.CallOriginal? ==>
            r.outcome.fn == fn.original && r.outcome.receiver == receiver
  {
    match fn
    case FunctionWrapper(body, original) =>
      (match body
       case EnforceArgument(name, kind, argNumber) => Enforce(cfg, p, receiver, name, kind, original, argNumber, args)
       case SetAttributeBody => SetAttributeCall(cfg, p, table, receiver, original, args)
       case SetAttributeNSBody => SetAttributeNSCall(cfg, p, table, receiver, original, args))
    case _ => Pass(fn, receiver, args)
  }

  /** Assigning `value` through the setter `fn`: an enforcing setter enforces
      the type of its only argument. */
  function CallSetter(cfg: Config, p: Provider, fn: Impl, receiver: Receiver, value: Value): (r: Decision)
    // Anything but an enforcing setter is just called.
    ensures !fn.EnforcingSetter? ==> r == Pass(fn, receiver, [value])
    // An enforcing setter only ever hands the value, or its fallback, to the setter it wraps.
    ensures fn.EnforcingSetter? && r.outcome.CallOriginal? ==>
            r.outcome.fn == fn.original && r.outcome.receiver == receiver && |r.outcome.args| == 1
  {
    match fn
    case EnforcingSetter(name, kind, original) => Enforce(cfg, p, receiver, name, kind, original, 0, [value])
    case _ => Pass(fn, receiver, [value])
  }
}
