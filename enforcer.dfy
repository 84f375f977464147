/** The `TrustedTypesEnforcer` class: its record table `originalSetters_`,
    the host members it replaces, and the calls `install` and `uninstall`
    make. Every state-changing method is proved to leave the tables the
    pure specification in `Interception` prescribes; the plans below list,
    in order, the calls `install` and `uninstall` make. */
module TrustedTypesEnforcer {
  import opened JsValues
  import opened SinkCatalog
  import opened Host
  import opened Errors
  import opened Enforcement
  import opened Interception

  /** The host objects the enforcer reaches through globals. `domParser` is
      absent when there is no `DOMParser`; `interfaces` gives
      `window[type].prototype` for the element types that exist. */
  datatype Environment = Environment(
    element: Surface,             // Element.prototype
    range: Surface,               // Range.prototype
    document: Surface,            // Document.prototype
    htmlDocument: Surface,        // HTMLDocument.prototype
    window: Surface,              // window
    domParser: Option<Surface>,   // DOMParser.prototype
    htmlElement: Surface,         // HTMLElement.prototype
    node: Surface,                // Node.prototype
    htmlScriptElement: Surface,   // HTMLScriptElement.prototype
    interfaces: map<string, Surface>)

  /** Where `document.write` is wrapped: on `Document.prototype` when it has
      an own `write` (Chrome), on `HTMLDocument.prototype` otherwise (Firefox). */
  function WriteSurface(env: Environment, ownWrite: bool): Surface
  {
    if ownWrite then env.document else env.htmlDocument
  }

  /** `wrapWithEnforceFunction_(o, name, kind, argNumber)` */
  function EnforceStep(o: Surface, name: string, kind: Kind, argNumber: nat): Step
  {
    WrapFunctionStep(o, name, EnforceArgument(name, kind, argNumber))
  }

  /** The sinks `install` wraps itself (src/enforcer.js:154-171). */
  function SinkWraps(env: Environment, ownWrite: bool): Plan
  {
    Call(WrapSetterStep(env.element, "innerHTML", HTML, None),
    Call(WrapSetterStep(env.element, "outerHTML", HTML, None),
    Call(EnforceStep(env.range, "createContextualFragment", HTML, 0),
    Call(EnforceStep(env.element, "insertAdjacentHTML", HTML, 1),
    Call(EnforceStep(WriteSurface(env, ownWrite), "write", HTML, 0),
    Call(EnforceStep(env.window, "open", URL, 0), End))))))
  }

  /** `if (DOMParser)`: `parseFromString` is wrapped only where there is a parser. */
  function ParserWraps(env: Environment): Plan
  {
    if env.domParser.Some? then Call(EnforceStep(env.domParser.value, "parseFromString", HTML, 0), End) else End
  }

  /** `wrapSetAttribute_` */
  function SetAttributeWraps(env: Environment): Plan
  {
    Call(WrapFunctionStep(env.element, "setAttribute", SetAttributeBody),
    Call(WrapFunctionStep(env.element, "setAttributeNS", SetAttributeNSBody), End))
  }

  /** `installScriptWrappers_`: the script element reuses the setters of its ancestors. */
  function ScriptWraps(env: Environment): Plan
  {
    Call(WrapSetterStep(env.htmlScriptElement, "innerText", Script, Some(env.htmlElement)),
    Call(WrapSetterStep(env.htmlScriptElement, "textContent", Script, Some(env.node)), End))
  }

  /** The call the property loops make for one catalog attribute:
      `wrapSetter_` on install, `restoreSetter_` on uninstall, each on
      `window[type].prototype`, where a missing `window[type]` throws. */
  function PropertyStep(interfaces: map<string, Surface>, typeName: string, a: AttributeEntry, restore: bool): Step
  {
    if typeName !in interfaces then Fail(MissingInterface(typeName))
    else if restore then RestoreSetterStep(interfaces[typeName], PropertyName(a.attribute), None)
    else WrapSetterStep(interfaces[typeName], PropertyName(a.attribute), a.kind, None)
  }

  /** The inner loop: the attributes of one type, in order. */
  function AttributeSteps(interfaces: map<string, Surface>, typeName: string, attributes: seq<AttributeEntry>,
                          restore: bool): Plan
    decreases |attributes|
  {
    if attributes == [] then End
    else Call(PropertyStep(interfaces, typeName, attributes[0], restore),
              AttributeSteps(interfaces, typeName, attributes[1..], restore))
  }

  /** The outer loop: every type of the catalog, in order. */
  function PropertySteps(interfaces: map<string, Surface>, table: Table, restore: bool): Plan
    decreases |table|
  {
    if table == [] then End
    else Append(AttributeSteps(interfaces, table[0].typeName, table[0].attributes, restore),
                PropertySteps(interfaces, table[1..], restore))
  }

  /** Every call `install` makes after setting the allowed policy names, in
      order; `ownWrite` is whether `Document.prototype` has an own `write`. */
  function InstallSteps(env: Environment, table: Table, ownWrite: bool): Plan
  {
    Append(SinkWraps(env, ownWrite), Append(ParserWraps(env), Append(SetAttributeWraps(env),
      Append(ScriptWraps(env), PropertySteps(env.interfaces, table, false)))))
  }

  /** The restores `uninstall` makes itself (src/enforcer.js:185-197). */
  function SinkRestores(env: Environment, ownWrite: bool): Plan
  {
    Call(RestoreSetterStep(env.element, "innerHTML", None),
    Call(RestoreSetterStep(env.element, "outerHTML", None),
    Call(RestoreFunctionStep(env.range, "createContextualFragment"),
    Call(RestoreFunctionStep(env.element, "insertAdjacentHTML"),
    Call(RestoreFunctionStep(env.element, "setAttribute"),
    Call(RestoreFunctionStep(env.element, "setAttributeNS"),
    Call(RestoreFunctionStep(WriteSurface(env, ownWrite), "write"),
    Call(RestoreFunctionStep(env.window, "open"), End))))))))
  }

  function ParserRestores(env: Environment): Plan
  {
    if env.domParser.Some? then Call(RestoreFunctionStep(env.domParser.value, "parseFromString"), End) else End
  }

  /** `uninstallScriptWrappers_` */
  function ScriptRestores(env: Environment): Plan
  {
    Call(RestoreSetterStep(env.htmlScriptElement, "innerText", Some(env.htmlElement)),
    Call(RestoreSetterStep(env.htmlScriptElement, "textContent", Some(env.node)), End))
  }

  /** Every call `uninstall` makes before it resets the allowed policy
      names, in order. */
  function UninstallSteps(env: Environment, table: Table, ownWrite: bool): Plan
  {
    Append(SinkRestores(env, ownWrite), Append(ParserRestores(env),
      Append(PropertySteps(env.interfaces, table, true), ScriptRestores(env))))
  }

  /** One call of a plan that is followed by `later`: when the call throws,
      the whole run ends with it; otherwise the run goes on with the rest. */
  lemma Advance(t: Tables, p: Plan, later: Plan, e: Effect) returns (next: Plan)
    requires p.Call? && ApplyStep(t, p.step) == e
    ensures next == p.next
    ensures e.status.Failed? ==> AndThen(RunPlan(t, p), later) == e
    ensures e.status.Done? ==> AndThen(RunPlan(t, p), later) == AndThen(RunPlan(e.after, next), later)
  {
    next := p.next;
  }

  /** One turn of the outer property loop: the calls for the attributes of
      `table[i]`, then, unless one threw, the calls for the types after it. */
  lemma TypeStepsRun(t: Tables, interfaces: map<string, Surface>, table: Table, i: nat, restore: bool)
    requires i < |table|
    ensures RunPlan(t, PropertySteps(interfaces, table[i..], restore)) ==
            AndThen(RunPlan(t, AttributeSteps(interfaces, table[i].typeName, table[i].attributes[0..], restore)),
                    PropertySteps(interfaces, table[i + 1..], restore))
  {
    assert table[i..][1..] == table[i + 1..];
    assert table[i].attributes[0..] == table[i].attributes;
    RunAppend(t, AttributeSteps(interfaces, table[i].typeName, table[i].attributes, restore),
              PropertySteps(interfaces, table[i + 1..], restore));
  }

  /** One turn of the inner property loop: the call for `attributes[j]`,
      then, unless it threw, the calls for the attributes after it. */
  lemma AttributeStepRun(t: Tables, interfaces: map<string, Surface>, typeName: string,
                         attributes: seq<AttributeEntry>, j: nat, restore: bool, e: Effect)
    requires j < |attributes| && ApplyStep(t, PropertyStep(interfaces, typeName, attributes[j], restore)) == e
    ensures RunPlan(t, AttributeSteps(interfaces, typeName, attributes[j..], restore)) ==
            if e.status.Failed? then e else RunPlan(e.after, AttributeSteps(interfaces, typeName, attributes[j + 1..], restore))
  {
    assert attributes[j..][1..] == attributes[j + 1..];
  }

  class Enforcer {
    /** The resolved configuration `config_`. */
    const config: Config
    /** The host objects reached through globals. */
    const env: Environment
    /** `SET_ATTRIBUTE_TYPE_MAP`, handlers included. */
    const table: Table
    /** `originalSetters_`: record key to the original function or setter. */
    var originalSetters: map<string, Impl>
    /** The own members of the host objects. */
    var host: HostMap
    /** The arguments of every `TrustedTypes.setAllowedPolicyNames` call, in order. */
    var policyNameWrites: seq<seq<string>>

    function Snapshot(): Tables
      reads this
    {
      Tables(originalSetters, host)
    }

    /** Every record names a member that holds a wrapper around the recorded
        original. `new` sets this up; every wrap and restore keeps it
        (`Interception.WrapFunctionKeepsTracked` and its siblings), so
        `install` and `uninstall` do too. */
    ghost predicate Valid()
      reads this
    {
      Tracked(Snapshot())
    }

    /** `new TrustedTypesEnforcer(config)` on a host whose `HTMLElement.prototype`
        has the own property names `htmlElementOwnNames`; the catalog's
        handler entries are built here, as the module does when it loads. */
    constructor (config: Config, env: Environment, htmlElementOwnNames: seq<string>, host: HostMap)
      ensures this.config == config && this.env == env
      ensures table == AttributeTypeTable(htmlElementOwnNames)
      ensures originalSetters == map[] && this.host == host && policyNameWrites == []
      ensures Valid()
    {
      this.config := config;
      this.env := env;
      var t := BuildAttributeTypeTable(htmlElementOwnNames);
      table := t;
      originalSetters := map[];
      this.host := host;
      policyNameWrites := [];
    }

    /** `wrapFunction_(o, name, body)` */
    method WrapFunction(o: Surface, name: string, body: Body) returns (status: Status)
      modifies this
      ensures Effect(status, Snapshot()) == Interception.WrapFunction(old(Snapshot()), o, name, body)
      ensures policyNameWrites == old(policyNameWrites)
    {
      var original := OwnFunction(host, o, name);
      if original.None? {
        return Failed(NotAFunction(name));
      }
      var key := Key(o, name);
      if key in originalSetters {
        return Failed(DoubleInstallation);
      }
      host := InstallFunction(host, o, name, FunctionWrapper(body, original.value));
      originalSetters := originalSetters[key := original.value];
      return Done;
    }

    /** `wrapSetter_(o, name, kind, descriptorObject)` */
    method WrapSetter(o: Surface, name: string, kind: Kind, descriptorObject: Option<Surface>) returns (status: Status)
      modifies this
      ensures Effect(status, Snapshot()) == Interception.WrapSetter(old(Snapshot()), o, name, kind, descriptorObject)
      ensures policyNameWrites == old(policyNameWrites)
    {
      if descriptorObject.Some? && !IsPrototypeOf(descriptorObject.value, o) {
        return Failed(InvalidPrototypeChain);
      }
      var useObject := if descriptorObject.Some? then descriptorObject.value else o;
      var original := OwnSetter(host, useObject, name);
      if original.None? {
        return Failed(NoSetter(name));
      }
      var key := Key(o, name);
      if key in originalSetters {
        return Failed(DoubleInstallation);
      }
      var enforcing := EnforcingSetter(name, kind, original.value);
      if useObject == o {
        host := InstallSetter(host, o, name, enforcing);
      } else {
        host := InstallSetterAndGetter(host, o, name, enforcing, GetterOf(host[(useObject, name)]));
      }
      originalSetters := originalSetters[key := original.value];
      return Done;
    }

    /** `restoreFunction_(o, name)` */
    method RestoreFunction(o: Surface, name: string) returns (status: Status)
      modifies this
      ensures Effect(status, Snapshot()) == Interception.RestoreFunction(old(Snapshot()), o, name)
      ensures policyNameWrites == old(policyNameWrites)
    {
      var key := Key(o, name);
      if key !in originalSetters {
        return Failed(CannotRestore);
      }
      host := InstallFunction(host, o, name, originalSetters[key]);
      originalSetters := originalSetters - {key};
      return Done;
    }

    /** `restoreSetter_(o, name, descriptorObject)` */
    method RestoreSetter(o: Surface, name: string, descriptorObject: Option<Surface>) returns (status: Status)
      modifies this
      ensures Effect(status, Snapshot()) == Interception.RestoreSetter(old(Snapshot()), o, name, descriptorObject)
      ensures policyNameWrites == old(policyNameWrites)
    {
      var key := Key(o, name);
      if descriptorObject.Some? && !IsPrototypeOf(descriptorObject.value, o) {
        return Failed(InvalidPrototypeChain);
      }
      if key !in originalSetters {
        return Failed(CannotRestore);
      }
      if descriptorObject.Some? {
        var d := descriptorObject.value;
        if (d, name) !in host {
          return Failed(MissingDescriptor(name));
        }
        host := InstallSetterAndGetter(host, o, name, originalSetters[key], GetterOf(host[(d, name)]));
      } else {
        host := InstallSetter(host, o, name, originalSetters[key]);
      }
      originalSetters := originalSetters - {key};
      return Done;
    }

    /** `wrapWithEnforceFunction_(o, name, kind, argNumber)` */
    method WrapWithEnforceFunction(o: Surface, name: string, kind: Kind, argNumber: nat) returns (status: Status)
      modifies this
      ensures Effect(status, Snapshot()) == ApplyStep(old(Snapshot()), EnforceStep(o, name, kind, argNumber))
      ensures policyNameWrites == old(policyNameWrites)
    {
      status := WrapFunction(o, name, EnforceArgument(name, kind, argNumber));
    }

    /** `wrapSetAttribute_` */
    method WrapSetAttribute() returns (status: Status)
      modifies this
      ensures Effect(status, Snapshot()) == RunPlan(old(Snapshot()), SetAttributeWraps(env))
      ensures policyNameWrites == old(policyNameWrites)
    {
      ghost var t := Snapshot();
      ghost var rest := SetAttributeWraps(env);
      ghost var later := End;
      status := WrapFunction(env.element, "setAttribute", SetAttributeBody);
      rest := Advance(t, rest, later, Effect(status, Snapshot()));
      if status.Failed? { return; }
      t := Snapshot();
      status := WrapFunction(env.element, "setAttributeNS", SetAttributeNSBody);
      rest := Advance(t, rest, later, Effect(status, Snapshot()));
    }

    /** `installScriptWrappers_`: the script element reuses the setters of
        its ancestors. */
    method InstallScriptWrappers() returns (status: Status)
      modifies this
      ensures Effect(status, Snapshot()) == RunPlan(old(Snapshot()), ScriptWraps(env))
      ensures policyNameWrites == old(policyNameWrites)
    {
      ghost var t := Snapshot();
      ghost var rest := ScriptWraps(env);
      ghost var later := End;
      status := WrapSetter(env.htmlScriptElement, "innerText", Script, Some(env.htmlElement));
      rest := Advance(t, rest, later, Effect(status, Snapshot()));
      if status.Failed? { return; }
      t := Snapshot();
      status := WrapSetter(env.htmlScriptElement, "textContent", Script, Some(env.node));
      rest := Advance(t, rest, later, Effect(status, Snapshot()));
    }

    /** `uninstallScriptWrappers_` */
    method UninstallScriptWrappers() returns (status: Status)
      modifies this
      ensures Effect(status, Snapshot()) == RunPlan(old(Snapshot()), ScriptRestores(env))
      ensures policyNameWrites == old(policyNameWrites)
    {
      ghost var t := Snapshot();
      ghost var rest := ScriptRestores(env);
      ghost var later := End;
      status := RestoreSetter(env.htmlScriptElement, "innerText", Some(env.htmlElement));
      rest := Advance(t, rest, later, Effect(status, Snapshot()));
      if status.Failed? { return; }
      t := Snapshot();
      status := RestoreSetter(env.htmlScriptElement, "textContent", Some(env.node));
      rest := Advance(t, rest, later, Effect(status, Snapshot()));
    }

    /** `installPropertySetWrappers_`: a setter wrap for every catalog
        attribute, type by type. */
    method InstallPropertySetWrappers() returns (status: Status)
      modifies this
      ensures Effect(status, Snapshot()) == RunPlan(old(Snapshot()), PropertySteps(env.interfaces, table, false))
      ensures policyNameWrites == old(policyNameWrites)
    {
      ghost var t0 := Snapshot();
      var i := 0;
      while i < |table|
        invariant 0 <= i <= |table|
        invariant RunPlan(t0, PropertySteps(env.interfaces, table, false)) ==
                  RunPlan(Snapshot(), PropertySteps(env.interfaces, table[i..], false))
        invariant policyNameWrites == old(policyNameWrites)
      {
        var entry := table[i];
        ghost var later := PropertySteps(env.interfaces, table[i + 1..], false);
        TypeStepsRun(Snapshot(), env.interfaces, table, i, false);
        var j := 0;
        while j < |entry.attributes|
          invariant 0 <= j <= |entry.attributes|
          invariant RunPlan(t0, PropertySteps(env.interfaces, table, false)) ==
                    AndThen(RunPlan(Snapshot(), AttributeSteps(env.interfaces, entry.typeName, entry.attributes[j..], false)), later)
          invariant policyNameWrites == old(policyNameWrites)
        {
          var a := entry.attributes[j];
          var property := PropertyName(a.attribute);
          ghost var t := Snapshot();
          if entry.typeName !in env.interfaces {
            AttributeStepRun(t, env.interfaces, entry.typeName, entry.attributes, j, false,
                             Effect(Failed(MissingInterface(entry.typeName)), t));
            return Failed(MissingInterface(entry.typeName));
          }
          status := WrapSetter(env.interfaces[entry.typeName], property, a.kind, None);
          AttributeStepRun(t, env.interfaces, entry.typeName, entry.attributes, j, false, Effect(status, Snapshot()));
          if status.Failed? { return; }
          j := j + 1;
        }
        i := i + 1;
      }
      status := Done;
    }

    /** `uninstallPropertySetWrappers_`: a setter restore for every catalog
        attribute, type by type. */
    method UninstallPropertySetWrappers() returns (status: Status)
      modifies this
      ensures Effect(status, Snapshot()) == RunPlan(old(Snapshot()), PropertySteps(env.interfaces, table, true))
      ensures policyNameWrites == old(policyNameWrites)
    {
      ghost var t0 := Snapshot();
      var i := 0;
      while i < |table|
        invariant 0 <= i <= |table|
        invariant RunPlan(t0, PropertySteps(env.interfaces, table, true)) ==
                  RunPlan(Snapshot(), PropertySteps(env.interfaces, table[i..], true))
        invariant policyNameWrites == old(policyNameWrites)
      {
        var entry := table[i];
        ghost var later := PropertySteps(env.interfaces, table[i + 1..], true);
        TypeStepsRun(Snapshot(), env.interfaces, table, i, true);
        var j := 0;
        while j < |entry.attributes|
          invariant 0 <= j <= |entry.attributes|
          invariant RunPlan(t0, PropertySteps(env.interfaces, table, true)) ==
                    AndThen(RunPlan(Snapshot(), AttributeSteps(env.interfaces, entry.typeName, entry.attributes[j..], true)), later)
          invariant policyNameWrites == old(policyNameWrites)
        {
          var a := entry.attributes[j];
          var property := PropertyName(a.attribute);
          ghost var t := Snapshot();
          if entry.typeName !in env.interfaces {
            AttributeStepRun(t, env.interfaces, entry.typeName, entry.attributes, j, true,
                             Effect(Failed(MissingInterface(entry.typeName)), t));
            return Failed(MissingInterface(entry.typeName));
          }
          status := RestoreSetter(env.interfaces[entry.typeName], property, None);
          AttributeStepRun(t, env.interfaces, entry.typeName, entry.attributes, j, true, Effect(status, Snapshot()));
          if status.Failed? { return; }
          j := j + 1;
        }
        i := i + 1;
      }
      status := Done;
    }

    /** The wraps at the head of `install()` (src/enforcer.js:153-171):
        the two `innerHTML`/`outerHTML` setters and the four enforcing
        functions, `write` on whichever document prototype owns it. */
    method WrapSinks() returns (status: Status)
      modifies this
      ensures Effect(status, Snapshot()) == RunPlan(old(Snapshot()), SinkWraps(env, (env.document, "write") in old(host)))
      ensures policyNameWrites == old(policyNameWrites)
    {
      // Read before the first wrap rather than after the fourth: those wraps
      // change no member named `write` (see Lifecycle.HoistedWriteCheck).
      var ownWrite := (env.document, "write") in host;
      ghost var t := Snapshot();
      ghost var later := End;
      ghost var rest := SinkWraps(env, ownWrite);
      status := WrapSetter(env.element, "innerHTML", HTML, None);
      rest := Advance(t, rest, later, Effect(status, Snapshot()));
      if status.Failed? { return; }
      t := Snapshot();
      status := WrapSetter(env.element, "outerHTML", HTML, None);
      rest := Advance(t, rest, later, Effect(status, Snapshot()));
      if status.Failed? { return; }
      t := Snapshot();
      status := WrapWithEnforceFunction(env.range, "createContextualFragment", HTML, 0);
      rest := Advance(t, rest, later, Effect(status, Snapshot()));
      if status.Failed? { return; }
      t := Snapshot();
      status := WrapWithEnforceFunction(env.element, "insertAdjacentHTML", HTML, 1);
      rest := Advance(t, rest, later, Effect(status, Snapshot()));
      if status.Failed? { return; }
      t := Snapshot();
      var writeSurface := if ownWrite then env.document else env.htmlDocument;
      status := WrapWithEnforceFunction(writeSurface, "write", HTML, 0);
      rest := Advance(t, rest, later, Effect(status, Snapshot()));
      if status.Failed? { return; }
      t := Snapshot();
      status := WrapWithEnforceFunction(env.window, "open", URL, 0);
      rest := Advance(t, rest, later, Effect(status, Snapshot()));
      if status.Failed? { return; }
    }

    /** `install()`: pushes the allowed policy names, then wraps every sink
        in the order of `InstallSteps`; the first wrap that throws ends it,
        leaving the wraps before it in place. */
    method Install() returns (status: Status)
      modifies this
      ensures policyNameWrites == old(policyNameWrites) + [config.allowedPolicyNames]
      ensures Effect(status, Snapshot()) ==
              RunPlan(old(Snapshot()), InstallSteps(env, table, (env.document, "write") in old(host)))
      ensures old(Valid()) ==> Valid()
    {
      if Valid() { RunKeepsTracked(Snapshot(), InstallSteps(env, table, (env.document, "write") in host)); }
      policyNameWrites := policyNameWrites + [config.allowedPolicyNames];
      ghost var ownWrite := (env.document, "write") in host;
      ghost var t0 := Snapshot();
      ghost var props := PropertySteps(env.interfaces, table, false);
      ghost var later := Append(ParserWraps(env), Append(SetAttributeWraps(env), Append(ScriptWraps(env), props)));
      RunAppend(t0, SinkWraps(env, ownWrite), later);
      status := WrapSinks();
      if status.Failed? { return; }
      ghost var t := Snapshot();
      ghost var rest := End;
      later := Append(SetAttributeWraps(env), Append(ScriptWraps(env), props));
      RunAppend(t, ParserWraps(env), later);
      if env.domParser.Some? {
        status := WrapWithEnforceFunction(env.domParser.value, "parseFromString", HTML, 0);
        rest := Advance(t, ParserWraps(env), later, Effect(status, Snapshot()));
        if status.Failed? { return; }
        t := Snapshot();
      }
      RunAppend(t, SetAttributeWraps(env), Append(ScriptWraps(env), props));
      status := WrapSetAttribute();
      if status.Failed? { return; }
      t := Snapshot();
      RunAppend(t, ScriptWraps(env), props);
      status := InstallScriptWrappers();
      if status.Failed? { return; }
      status := InstallPropertySetWrappers();
    }

    /** The restores at the head of `uninstall()` (src/enforcer.js:185-197),
        the mirror of `WrapSinks`. */
    method RestoreSinks() returns (status: Status)
      modifies this
      ensures Effect(status, Snapshot()) == RunPlan(old(Snapshot()), SinkRestores(env, (env.document, "write") in old(host)))
      ensures policyNameWrites == old(policyNameWrites)
    {
      // Read before the first restore rather than after the sixth: those
      // restores change no member named `write`
      // (see Lifecycle.HoistedWriteCheckOnUninstall).
      var ownWrite := (env.document, "write") in host;
      ghost var t := Snapshot();
      ghost var later := End;
      ghost var rest := SinkRestores(env, ownWrite);
      status := RestoreSetter(env.element, "innerHTML", None);
      rest := Advance(t, rest, later, Effect(status, Snapshot()));
      if status.Failed? { return; }
      t := Snapshot();
      status := RestoreSetter(env.element, "outerHTML", None);
      rest := Advance(t, rest, later, Effect(status, Snapshot()));
      if status.Failed? { return; }
      t := Snapshot();
      status := RestoreFunction(env.range, "createContextualFragment");
      rest := Advance(t, rest, later, Effect(status, Snapshot()));
      if status.Failed? { return; }
      t := Snapshot();
      status := RestoreFunction(env.element, "insertAdjacentHTML");
      rest := Advance(t, rest, later, Effect(status, Snapshot()));
      if status.Failed? { return; }
      t := Snapshot();
      status := RestoreFunction(env.element, "setAttribute");
      rest := Advance(t, rest, later, Effect(status, Snapshot()));
      if status.Failed? { return; }
      t := Snapshot();
      status := RestoreFunction(env.element, "setAttributeNS");
      rest := Advance(t, rest, later, Effect(status, Snapshot()));
      if status.Failed? { return; }
      t := Snapshot();
      var writeSurface := if ownWrite then env.document else env.htmlDocument;
      status := RestoreFunction(writeSurface, "write");
      rest := Advance(t, rest, later, Effect(status, Snapshot()));
      if status.Failed? { return; }
      t := Snapshot();
      status := RestoreFunction(env.window, "open");
      rest := Advance(t, rest, later, Effect(status, Snapshot()));
      if status.Failed? { return; }
    }

    /** `uninstall()`: restores every sink in the order of
        `UninstallSteps`; the first restore that throws ends it, so only a
        complete run resets the allowed policy names to `["*"]`. */
    method Uninstall() returns (status: Status)
      modifies this
      ensures policyNameWrites == old(policyNameWrites) + (if status.Done? then [["*"]] else [])
      ensures Effect(status, Snapshot()) ==
              RunPlan(old(Snapshot()), UninstallSteps(env, table, (env.document, "write") in old(host)))
      ensures old(Valid()) ==> Valid()
    {
      if Valid() { RunKeepsTracked(Snapshot(), UninstallSteps(env, table, (env.document, "write") in host)); }
      ghost var ownWrite := (env.document, "write") in host;
      ghost var t0 := Snapshot();
      ghost var props := PropertySteps(env.interfaces, table, true);
      ghost var later := Append(ParserRestores(env), Append(props, ScriptRestores(env)));
      RunAppend(t0, SinkRestores(env, ownWrite), later);
      status := RestoreSinks();
      if status.Failed? { return; }
      ghost var t := Snapshot();
      ghost var rest := End;
      later := Append(props, ScriptRestores(env));
      RunAppend(t, ParserRestores(env), later);
      if env.domParser.Some? {
        status := RestoreFunction(env.domParser.value, "parseFromString");
        rest := Advance(t, ParserRestores(env), later, Effect(status, Snapshot()));
        if status.Failed? { return; }
        t := Snapshot();
      }
      RunAppend(t, props, ScriptRestores(env));
      status := UninstallPropertySetWrappers();
      if status.Failed? { return; }
      status := UninstallScriptWrappers();
      if status.Done? {
        policyNameWrites := policyNameWrites + [["*"]];
      }
    }

    /** `getRequiredTypeForAttribute_(context, attrName)`: the do-while loop
        up the constructor chain of a receiver whose constructor is not
        null, which is the only receiver its caller passes. */
    method GetRequiredTypeForAttribute(chain: seq<string>, attrName: string) returns (kind: Option<Kind>)
      ensures kind == RequiredTypeForAttribute(table, chain, attrName)
    {
      var i := 0;
      while i < |chain|
        invariant 0 <= i <= |chain|
        invariant RequiredTypeForAttribute(table, chain[i..], attrName) == RequiredTypeForAttribute(table, chain, attrName)
      {
        var name := chain[i];
        var level := if name == "" then None else Lookup(table, name, attrName);
        if level.Some? || name == BaseElement {
          return level;
        }
        assert chain[i..][1..] == chain[i + 1..];
        i := i + 1;
      }
      return None;
    }

    /** `setAttributeWrapper_(context, originalFn, ...args)`; `p` is the
        policy provider's state at the call. */
    method SetAttributeWrapper(p: Provider, context: Receiver, original: Impl, args: seq<Value>) returns (d: Decision)
      ensures d == SetAttributeCall(config, p, table, context, original, args)
    {
      var a := args;
      if context.ctor.Chain? {
        var name := ToJsString(ArgAt(a, 0));
        a := SetArg(a, 0, Str(name));
        var kind := GetRequiredTypeForAttribute(context.ctor.names, ToLowerCase(name));
        if kind.Some? {
          return Enforce(config, p, context, "setAttribute", kind.value, original, 1, a);
        }
      }
      return Pass(original, context, a);
    }

    /** `setAttributeNSWrapper_(context, originalFn, ...args)` */
    method SetAttributeNSWrapper(p: Provider, context: Receiver, original: Impl, args: seq<Value>) returns (d: Decision)
      ensures d == SetAttributeNSCall(config, p, table, context, original, args)
    {
      var a := args;
      if context.ctor.Chain? {
        a := SetArg(a, 0, Str(ToJsString(ArgAt(a, 0))));
        var name := ToJsString(ArgAt(a, 1));
        a := SetArg(a, 1, Str(name));
        var kind := OwnAttributeType(table, context.ctor.names, ToLowerCase(name));
        if kind.Some? {
          return Enforce(config, p, context, "setAttributeNS", kind.value, original, 2, a);
        }
      }
      return Pass(original, context, a);
    }
  }
}
