/** What `install` and `uninstall` achieve as a whole, proved on the plans
    the `Enforcer` methods are proved to run: a second install is rejected
    without changing anything, so is a second uninstall, an installed sink
    enforces, uninstalling after installing leaves no record behind, and
    reading `Document.prototype.write` before the first wrap (or restore)
    gives what the source's later read gives. */
module Lifecycle {
  import opened JsValues
  import opened SinkCatalog
  import opened Host
  import opened Errors
  import opened Enforcement
  import opened Interception
  import opened TrustedTypesEnforcer

  /** `getOwnPropertyDescriptor(Document.prototype, 'write')` is truthy. */
  predicate OwnWrite(env: Environment, t: Tables)
  {
    (env.document, "write") in t.host
  }

  // ----- The shape of the plans -----

  lemma {:induction false} AttributeStepsShape(interfaces: map<string, Surface>, typeName: string,
                                              attributes: seq<AttributeEntry>, o: Surface, name: string)
    ensures WrapsOnly(AttributeSteps(interfaces, typeName, attributes, false))
    ensures CreatesNo(AttributeSteps(interfaces, typeName, attributes, false), o, name)
    ensures RestoresOnly(AttributeSteps(interfaces, typeName, attributes, true))
    ensures Keys(AttributeSteps(interfaces, typeName, attributes, false)) ==
            Keys(AttributeSteps(interfaces, typeName, attributes, true))
    decreases |attributes|
  {
    if attributes != [] {
      AttributeStepsShape(interfaces, typeName, attributes[1..], o, name);
    }
  }

  /** The property loops wrap (or restore) the same members, and never with
      a setter taken from an ancestor. */
  lemma {:induction false} PropertyStepsShape(interfaces: map<string, Surface>, table: Table, o: Surface, name: string)
    ensures WrapsOnly(PropertySteps(interfaces, table, false))
    ensures CreatesNo(PropertySteps(interfaces, table, false), o, name)
    ensures RestoresOnly(PropertySteps(interfaces, table, true))
    ensures Keys(PropertySteps(interfaces, table, false)) == Keys(PropertySteps(interfaces, table, true))
    decreases |table|
  {
    if table != [] {
      var install := AttributeSteps(interfaces, table[0].typeName, table[0].attributes, false);
      var uninstall := AttributeSteps(interfaces, table[0].typeName, table[0].attributes, true);
      var installRest := PropertySteps(interfaces, table[1..], false);
      var uninstallRest := PropertySteps(interfaces, table[1..], true);
      AttributeStepsShape(interfaces, table[0].typeName, table[0].attributes, o, name);
      PropertyStepsShape(interfaces, table[1..], o, name);
      WrapsOnlyAppend(install, installRest);
      CreatesNoAppend(install, installRest, o, name);
      RestoresOnlyAppend(uninstall, uninstallRest);
      KeysAppend(install, installRest);
      KeysAppend(uninstall, uninstallRest);
    }
  }

  /** The calls `install` makes itself: six wraps, none creating `write`. */
  lemma SinkWrapsShape(env: Environment, ownWrite: bool)
    ensures WrapsOnly(SinkWraps(env, ownWrite)) && CreatesNo(SinkWraps(env, ownWrite), env.document, "write")
    ensures Keys(SinkWraps(env, ownWrite)) ==
            {Key(env.element, "innerHTML"), Key(env.element, "outerHTML"), Key(env.range, "createContextualFragment"),
             Key(env.element, "insertAdjacentHTML"), Key(WriteSurface(env, ownWrite), "write"), Key(env.window, "open")}
  {
    // The plan is a literal list; naming each suffix and asserting from the
    // end backwards gives the solver one unfolding per step.
    var p0 := SinkWraps(env, ownWrite);
    var p1 := p0.next;
    var p2 := p1.next;
    var p3 := p2.next;
    var p4 := p3.next;
    var p5 := p4.next;
    assert Keys(p5) == {Key(env.window, "open")} + Keys(End);
    assert WrapsOnly(p5) && CreatesNo(p5, env.document, "write") && Keys(p5) == {Key(env.window, "open")};
    assert WrapsOnly(p4) && CreatesNo(p4, env.document, "write") && Keys(p4) == {Key(WriteSurface(env, ownWrite), "write"), Key(env.window, "open")};
    assert WrapsOnly(p3) && CreatesNo(p3, env.document, "write") && Keys(p3) == {Key(env.element, "insertAdjacentHTML"), Key(WriteSurface(env, ownWrite), "write"), Key(env.window, "open")};
    assert WrapsOnly(p2) && CreatesNo(p2, env.document, "write") && Keys(p2) == {Key(env.range, "createContextualFragment"), Key(env.element, "insertAdjacentHTML"), Key(WriteSurface(env, ownWrite), "write"), Key(env.window, "open")};
    assert WrapsOnly(p1) && CreatesNo(p1, env.document, "write") && Keys(p1) == {Key(env.element, "outerHTML"), Key(env.range, "createContextualFragment"), Key(env.element, "insertAdjacentHTML"), Key(WriteSurface(env, ownWrite), "write"), Key(env.window, "open")};
    assert WrapsOnly(p0) && CreatesNo(p0, env.document, "write") && Keys(p0) == {Key(env.element, "innerHTML"), Key(env.element, "outerHTML"), Key(env.range, "createContextualFragment"), Key(env.element, "insertAdjacentHTML"), Key(WriteSurface(env, ownWrite), "write"), Key(env.window, "open")};
  }

  /** The calls `uninstall` makes itself: eight restores. */
  lemma SinkRestoresShape(env: Environment, ownWrite: bool)
    ensures RestoresOnly(SinkRestores(env, ownWrite))
    ensures Keys(SinkRestores(env, ownWrite)) ==
            {Key(env.element, "innerHTML"), Key(env.element, "outerHTML"), Key(env.range, "createContextualFragment"),
             Key(env.element, "insertAdjacentHTML"), Key(env.element, "setAttribute"), Key(env.element, "setAttributeNS"),
             Key(WriteSurface(env, ownWrite), "write"), Key(env.window, "open")}
  {
    // The plan is a literal list; naming each suffix and asserting from the
    // end backwards gives the solver one unfolding per step.
    var p0 := SinkRestores(env, ownWrite);
    var p1 := p0.next;
    var p2 := p1.next;
    var p3 := p2.next;
    var p4 := p3.next;
    var p5 := p4.next;
    var p6 := p5.next;
    var p7 := p6.next;
    assert Keys(p7) == {Key(env.window, "open")} + Keys(End);
    assert RestoresOnly(p7) && Keys(p7) == {Key(env.window, "open")};
    assert RestoresOnly(p6) && Keys(p6) == {Key(WriteSurface(env, ownWrite), "write"), Key(env.window, "open")};
    assert RestoresOnly(p5) && Keys(p5) == {Key(env.element, "setAttributeNS"), Key(WriteSurface(env, ownWrite), "write"), Key(env.window, "open")};
    assert RestoresOnly(p4) && Keys(p4) == {Key(env.element, "setAttribute"), Key(env.element, "setAttributeNS"), Key(WriteSurface(env, ownWrite), "write"), Key(env.window, "open")};
    assert RestoresOnly(p3) && Keys(p3) == {Key(env.element, "insertAdjacentHTML"), Key(env.element, "setAttribute"), Key(env.element, "setAttributeNS"), Key(WriteSurface(env, ownWrite), "write"), Key(env.window, "open")};
    assert RestoresOnly(p2) && Keys(p2) == {Key(env.range, "createContextualFragment"), Key(env.element, "insertAdjacentHTML"), Key(env.element, "setAttribute"), Key(env.element, "setAttributeNS"), Key(WriteSurface(env, ownWrite), "write"), Key(env.window, "open")};
    assert RestoresOnly(p1) && Keys(p1) == {Key(env.element, "outerHTML"), Key(env.range, "createContextualFragment"), Key(env.element, "insertAdjacentHTML"), Key(env.element, "setAttribute"), Key(env.element, "setAttributeNS"), Key(WriteSurface(env, ownWrite), "write"), Key(env.window, "open")};
    assert RestoresOnly(p0) && Keys(p0) == {Key(env.element, "innerHTML"), Key(env.element, "outerHTML"), Key(env.range, "createContextualFragment"), Key(env.element, "insertAdjacentHTML"), Key(env.element, "setAttribute"), Key(env.element, "setAttributeNS"), Key(WriteSurface(env, ownWrite), "write"), Key(env.window, "open")};
  }

  /** The parser, `setAttribute` and script plans: wraps on one side,
      restores of the same keys on the other. */
  lemma SmallPlansShape(env: Environment)
    ensures WrapsOnly(ParserWraps(env)) && CreatesNo(ParserWraps(env), env.document, "write")
    ensures WrapsOnly(SetAttributeWraps(env)) && CreatesNo(SetAttributeWraps(env), env.document, "write")
    ensures WrapsOnly(ScriptWraps(env)) && CreatesNo(ScriptWraps(env), env.document, "write")
    ensures RestoresOnly(ParserRestores(env)) && RestoresOnly(ScriptRestores(env))
    ensures Keys(ParserWraps(env)) == Keys(ParserRestores(env))
    ensures Keys(ScriptWraps(env)) == Keys(ScriptRestores(env))
    ensures Keys(SetAttributeWraps(env)) == {Key(env.element, "setAttribute"), Key(env.element, "setAttributeNS")}
  {
    assert Keys(ScriptWraps(env).next) == {Key(env.htmlScriptElement, "textContent")} + Keys(End);
    assert Keys(ScriptRestores(env).next) == {Key(env.htmlScriptElement, "textContent")} + Keys(End);
    assert Keys(SetAttributeWraps(env).next) == {Key(env.element, "setAttributeNS")} + Keys(End);
    if env.domParser.Some? {
      assert Keys(ParserWraps(env)) == {Key(env.domParser.value, "parseFromString")} + Keys(End);
      assert Keys(ParserRestores(env)) == {Key(env.domParser.value, "parseFromString")} + Keys(End);
    }
  }

  /** `install` only wraps, and creates no own `write`. */
  lemma {:induction false} InstallStepsShape(env: Environment, table: Table, ownWrite: bool)
    ensures WrapsOnly(InstallSteps(env, table, ownWrite))
    ensures CreatesNo(InstallSteps(env, table, ownWrite), env.document, "write")
  {
    var props := PropertySteps(env.interfaces, table, false);
    var scripts := Append(ScriptWraps(env), props);
    var attrs := Append(SetAttributeWraps(env), scripts);
    var parser := Append(ParserWraps(env), attrs);
    PropertyStepsShape(env.interfaces, table, env.document, "write");
    SinkWrapsShape(env, ownWrite);
    SmallPlansShape(env);
    WrapsOnlyAppend(ScriptWraps(env), props);
    WrapsOnlyAppend(SetAttributeWraps(env), scripts);
    WrapsOnlyAppend(ParserWraps(env), attrs);
    WrapsOnlyAppend(SinkWraps(env, ownWrite), parser);
    CreatesNoAppend(ScriptWraps(env), props, env.document, "write");
    CreatesNoAppend(SetAttributeWraps(env), scripts, env.document, "write");
    CreatesNoAppend(ParserWraps(env), attrs, env.document, "write");
    CreatesNoAppend(SinkWraps(env, ownWrite), parser, env.document, "write");
  }

  /** `uninstall` only restores. */
  lemma {:induction false} UninstallStepsShape(env: Environment, table: Table, ownWrite: bool)
    ensures RestoresOnly(UninstallSteps(env, table, ownWrite))
  {
    var props := PropertySteps(env.interfaces, table, true);
    var tail := Append(props, ScriptRestores(env));
    var parser := Append(ParserRestores(env), tail);
    PropertyStepsShape(env.interfaces, table, env.document, "write");
    SinkRestoresShape(env, ownWrite);
    SmallPlansShape(env);
    RestoresOnlyAppend(props, ScriptRestores(env));
    RestoresOnlyAppend(ParserRestores(env), tail);
    RestoresOnlyAppend(SinkRestores(env, ownWrite), parser);
  }

  /** Every key `install` records, `uninstall` deletes. */
  lemma {:induction false} UninstallCoversInstall(env: Environment, table: Table, ownWrite: bool)
    ensures Keys(InstallSteps(env, table, ownWrite)) <= Keys(UninstallSteps(env, table, ownWrite))
  {
    var wraps := PropertySteps(env.interfaces, table, false);
    var restores := PropertySteps(env.interfaces, table, true);
    PropertyStepsShape(env.interfaces, table, env.document, "write");
    SinkWrapsShape(env, ownWrite);
    SinkRestoresShape(env, ownWrite);
    SmallPlansShape(env);
    var scripts := Append(ScriptWraps(env), wraps);
    var attrs := Append(SetAttributeWraps(env), scripts);
    var parser := Append(ParserWraps(env), attrs);
    KeysAppend(ScriptWraps(env), wraps);
    KeysAppend(SetAttributeWraps(env), scripts);
    KeysAppend(ParserWraps(env), attrs);
    KeysAppend(SinkWraps(env, ownWrite), parser);
    var tail := Append(restores, ScriptRestores(env));
    var parser' := Append(ParserRestores(env), tail);
    KeysAppend(restores, ScriptRestores(env));
    KeysAppend(ParserRestores(env), tail);
    KeysAppend(SinkRestores(env, ownWrite), parser');
  }

  // ----- Where `write` is looked up -----

  /** The head of `install` as the source orders it: four wraps, then the
      check on `Document.prototype`, then `write` and `open`. */
  function SinkWrapsAsWritten(env: Environment, t: Tables): Effect
  {
    var e := RunPlan(t, Take(SinkWraps(env, false), 4));
    AndThen(e, Call(EnforceStep(WriteSurface(env, OwnWrite(env, e.after)), "write", HTML, 0),
               Call(EnforceStep(env.window, "open", URL, 0), End)))
  }

  /** Reading the flag before the first wrap, as `Enforcer.WrapSinks` does,
      runs the same calls as reading it after the fourth. */
  lemma {:induction false} HoistedWriteCheck(env: Environment, t: Tables)
    ensures RunPlan(t, SinkWraps(env, OwnWrite(env, t))) == SinkWrapsAsWritten(env, t)
  {
    var p := SinkWraps(env, false);
    var head := Take(p, 4);
    var tail := Call(EnforceStep(WriteSurface(env, OwnWrite(env, t)), "write", HTML, 0),
                Call(EnforceStep(env.window, "open", URL, 0), End));
    // `Take` of a literal list, built up one call at a time from the end so
    // the solver unfolds one step per assertion.
    var p1 := p.next;
    var p2 := p1.next;
    var p3 := p2.next;
    assert Take(p3, 1) == Call(p3.step, Take(p3.next, 0));
    assert Take(p2, 2) == Call(p2.step, Take(p3, 1));
    assert Take(p1, 3) == Call(p1.step, Take(p2, 2));
    assert head == Call(p.step, Take(p1, 3));
    assert Untargeted(Take(p2, 2), env.document, "write");
    assert Untargeted(head, env.document, "write");
    assert Append(Take(p3, 1), tail) == Call(p3.step, tail);
    assert Append(Take(p2, 2), tail) == Call(p2.step, Append(Take(p3, 1), tail));
    assert Append(Take(p1, 3), tail) == Call(p1.step, Append(Take(p2, 2), tail));
    assert Append(head, tail) == Call(p.step, Append(Take(p1, 3), tail));
    assert SinkWraps(env, OwnWrite(env, t)) == Append(head, tail);
    RunAppend(t, head, tail);
    RunKeepsUntargeted(t, head, env.document, "write");
  }

  /** The head of `uninstall` as the source orders it: six restores, then
      the check on `Document.prototype`, then `write` and `open`. */
  function SinkRestoresAsWritten(env: Environment, t: Tables): Effect
  {
    var e := RunPlan(t, Take(SinkRestores(env, false), 6));
    AndThen(e, Call(RestoreFunctionStep(WriteSurface(env, OwnWrite(env, e.after)), "write"),
               Call(RestoreFunctionStep(env.window, "open"), End)))
  }

  /** Reading the flag before the first restore, as `Enforcer.RestoreSinks`
      does, runs the same calls as reading it after the sixth. */
  lemma {:induction false} HoistedWriteCheckOnUninstall(env: Environment, t: Tables)
    ensures RunPlan(t, SinkRestores(env, OwnWrite(env, t))) == SinkRestoresAsWritten(env, t)
  {
    var p := SinkRestores(env, false);
    var head := Take(p, 6);
    var tail := Call(RestoreFunctionStep(WriteSurface(env, OwnWrite(env, t)), "write"),
                Call(RestoreFunctionStep(env.window, "open"), End));
    // `Take` of a literal list, built up one call at a time from the end so
    // the solver unfolds one step per assertion.
    var p1 := p.next;
    var p2 := p1.next;
    var p3 := p2.next;
    var p4 := p3.next;
    var p5 := p4.next;
    assert Take(p5, 1) == Call(p5.step, Take(p5.next, 0));
    assert Take(p4, 2) == Call(p4.step, Take(p5, 1));
    assert Take(p3, 3) == Call(p3.step, Take(p4, 2));
    assert Take(p2, 4) == Call(p2.step, Take(p3, 3));
    assert Take(p1, 5) == Call(p1.step, Take(p2, 4));
    assert head == Call(p.step, Take(p1, 5));
    assert Untargeted(Take(p4, 2), env.document, "write");
    assert Untargeted(Take(p2, 4), env.document, "write");
    assert Untargeted(head, env.document, "write");
    assert Append(Take(p5, 1), tail) == Call(p5.step, tail);
    assert Append(Take(p4, 2), tail) == Call(p4.step, Append(Take(p5, 1), tail));
    assert Append(Take(p3, 3), tail) == Call(p3.step, Append(Take(p4, 2), tail));
    assert Append(Take(p2, 4), tail) == Call(p2.step, Append(Take(p3, 3), tail));
    assert Append(Take(p1, 5), tail) == Call(p1.step, Append(Take(p2, 4), tail));
    assert Append(head, tail) == Call(p.step, Append(Take(p1, 5), tail));
    assert SinkRestores(env, OwnWrite(env, t)) == Append(head, tail);
    RunAppend(t, head, tail);
    RunKeepsUntargeted(t, head, env.document, "write");
  }

  // ----- Install and uninstall as a whole -----

  /** After a completed `install`, `element.innerHTML = value` runs the
      enforcement with the setter that was there before, and the record
      keeps that setter. */
  lemma {:induction false} InstalledInnerHtmlEnforces(cfg: Config, p: Provider, env: Environment, table: Table,
                                                      t: Tables, receiver: Receiver, value: Value)
    requires RunPlan(t, InstallSteps(env, table, OwnWrite(env, t))).status.Done?
    ensures OwnSetter(t.host, env.element, "innerHTML").Some?
    ensures var a := RunPlan(t, InstallSteps(env, table, OwnWrite(env, t))).after;
            var original := OwnSetter(t.host, env.element, "innerHTML").value;
            Key(env.element, "innerHTML") in a.originalSetters &&
            a.originalSetters[Key(env.element, "innerHTML")] == original &&
            OwnSetter(a.host, env.element, "innerHTML").Some? &&
            CallSetter(cfg, p, OwnSetter(a.host, env.element, "innerHTML").value, receiver, value) ==
            Enforce(cfg, p, receiver, "innerHTML", HTML, original, 0, [value])
  {
    var plan := InstallSteps(env, table, OwnWrite(env, t));
    InstallStepsShape(env, table, OwnWrite(env, t));
    assert plan.step == WrapSetterStep(env.element, "innerHTML", HTML, None);
    var e := ApplyStep(t, plan.step);
    WrapRunKeepsRecorded(e.after, plan.next, env.element, "innerHTML");
  }

  /** The wrapper functions `install` puts in place: the enforcing
      functions of its head, the parser's when there is one, and the two
      `setAttribute` wrappers. */
  lemma {:induction false} FunctionSinksInInstall(env: Environment, table: Table, ownWrite: bool)
    ensures var plan := InstallSteps(env, table, ownWrite);
            Contains(plan, EnforceStep(env.range, "createContextualFragment", HTML, 0)) &&
            Contains(plan, EnforceStep(env.element, "insertAdjacentHTML", HTML, 1)) &&
            Contains(plan, EnforceStep(WriteSurface(env, ownWrite), "write", HTML, 0)) &&
            Contains(plan, EnforceStep(env.window, "open", URL, 0)) &&
            (env.domParser.Some? ==> Contains(plan, EnforceStep(env.domParser.value, "parseFromString", HTML, 0))) &&
            Contains(plan, WrapFunctionStep(env.element, "setAttribute", SetAttributeBody)) &&
            Contains(plan, WrapFunctionStep(env.element, "setAttributeNS", SetAttributeNSBody))
  {
    var head := SinkWraps(env, ownWrite);
    var props := PropertySteps(env.interfaces, table, false);
    var scripts := Append(ScriptWraps(env), props);
    var attrs := Append(SetAttributeWraps(env), scripts);
    var parser := Append(ParserWraps(env), attrs);
    // The head is a literal list; each line below unfolds one more call of it.
    var p2 := head.next.next;
    var p4 := p2.next.next;
    assert Contains(p4.next, EnforceStep(env.window, "open", URL, 0));
    assert Contains(p4, EnforceStep(WriteSurface(env, ownWrite), "write", HTML, 0));
    assert Contains(p4, EnforceStep(env.window, "open", URL, 0));
    assert Contains(p2, EnforceStep(env.range, "createContextualFragment", HTML, 0));
    assert Contains(p2, EnforceStep(env.element, "insertAdjacentHTML", HTML, 1));
    assert Contains(p2, EnforceStep(WriteSurface(env, ownWrite), "write", HTML, 0));
    assert Contains(p2, EnforceStep(env.window, "open", URL, 0));
    forall s | Contains(p2, s) ensures Contains(head, s) {
      assert Contains(head.next, s);
    }
    ContainsAppend(head, parser, EnforceStep(env.range, "createContextualFragment", HTML, 0));
    ContainsAppend(head, parser, EnforceStep(env.element, "insertAdjacentHTML", HTML, 1));
    ContainsAppend(head, parser, EnforceStep(WriteSurface(env, ownWrite), "write", HTML, 0));
    ContainsAppend(head, parser, EnforceStep(env.window, "open", URL, 0));
    if env.domParser.Some? {
      var s := EnforceStep(env.domParser.value, "parseFromString", HTML, 0);
      ContainsAppend(ParserWraps(env), attrs, s);
      ContainsAppend(head, parser, s);
    }
    var setAttribute := WrapFunctionStep(env.element, "setAttribute", SetAttributeBody);
    var setAttributeNS := WrapFunctionStep(env.element, "setAttributeNS", SetAttributeNSBody);
    assert Contains(SetAttributeWraps(env).next, setAttributeNS);
    ContainsAppend(SetAttributeWraps(env), scripts, setAttribute);
    ContainsAppend(SetAttributeWraps(env), scripts, setAttributeNS);
    ContainsAppend(ParserWraps(env), attrs, setAttribute);
    ContainsAppend(ParserWraps(env), attrs, setAttributeNS);
    ContainsAppend(head, parser, setAttribute);
    ContainsAppend(head, parser, setAttributeNS);
  }

  /** After a completed `install`, calling a function it wrapped with
      `wrapWithEnforceFunction_` runs the enforcement of that argument, with
      the function that was there before, and the record keeps that
      function. */
  lemma {:induction false} InstalledEnforceFunctionEnforces(cfg: Config, p: Provider, env: Environment, table: Table,
                                                            t: Tables, o: Surface, name: string, kind: Kind,
                                                            argNumber: nat, receiver: Receiver, args: seq<Value>)
    requires RunPlan(t, InstallSteps(env, table, OwnWrite(env, t))).status.Done?
    requires Contains(InstallSteps(env, table, OwnWrite(env, t)), EnforceStep(o, name, kind, argNumber))
    ensures OwnFunction(t.host, o, name).Some?
    ensures var a := RunPlan(t, InstallSteps(env, table, OwnWrite(env, t))).after;
            var original := OwnFunction(t.host, o, name).value;
            Key(o, name) in a.originalSetters && a.originalSetters[Key(o, name)] == original &&
            OwnFunction(a.host, o, name).Some? &&
            CallFunction(cfg, p, table, OwnFunction(a.host, o, name).value, receiver, args) ==
            Enforce(cfg, p, receiver, name, kind, original, argNumber, args)
  {
    InstallStepsShape(env, table, OwnWrite(env, t));
    WrapRunInstallsFunction(t, InstallSteps(env, table, OwnWrite(env, t)), o, name, EnforceArgument(name, kind, argNumber));
  }

  /** After a completed `install`, `element.insertAdjacentHTML(position, html)`
      enforces HTML on its second argument with the original function. */
  lemma {:induction false} InstalledInsertAdjacentHtmlEnforces(cfg: Config, p: Provider, env: Environment, table: Table,
                                                               t: Tables, receiver: Receiver, args: seq<Value>)
    requires RunPlan(t, InstallSteps(env, table, OwnWrite(env, t))).status.Done?
    ensures OwnFunction(t.host, env.element, "insertAdjacentHTML").Some?
    ensures var a := RunPlan(t, InstallSteps(env, table, OwnWrite(env, t))).after;
            var original := OwnFunction(t.host, env.element, "insertAdjacentHTML").value;
            OwnFunction(a.host, env.element, "insertAdjacentHTML").Some? &&
            CallFunction(cfg, p, table, OwnFunction(a.host, env.element, "insertAdjacentHTML").value, receiver, args) ==
            Enforce(cfg, p, receiver, "insertAdjacentHTML", HTML, original, 1, args)
  {
    FunctionSinksInInstall(env, table, OwnWrite(env, t));
    InstalledEnforceFunctionEnforces(cfg, p, env, table, t, env.element, "insertAdjacentHTML", HTML, 1, receiver, args);
  }

  /** After a completed `install`, `element.setAttribute(...)` runs the
      `setAttribute` wrapper with the original function, which the record
      keeps. */
  lemma {:induction false} InstalledSetAttributeEnforces(cfg: Config, p: Provider, env: Environment, table: Table,
                                                         t: Tables, receiver: Receiver, args: seq<Value>)
    requires RunPlan(t, InstallSteps(env, table, OwnWrite(env, t))).status.Done?
    ensures OwnFunction(t.host, env.element, "setAttribute").Some?
    ensures var a := RunPlan(t, InstallSteps(env, table, OwnWrite(env, t))).after;
            var original := OwnFunction(t.host, env.element, "setAttribute").value;
            Key(env.element, "setAttribute") in a.originalSetters &&
            a.originalSetters[Key(env.element, "setAttribute")] == original &&
            OwnFunction(a.host, env.element, "setAttribute").Some? &&
            CallFunction(cfg, p, table, OwnFunction(a.host, env.element, "setAttribute").value, receiver, args) ==
            SetAttributeCall(cfg, p, table, receiver, original, args)
  {
    var plan := InstallSteps(env, table, OwnWrite(env, t));
    FunctionSinksInInstall(env, table, OwnWrite(env, t));
    InstallStepsShape(env, table, OwnWrite(env, t));
    WrapRunInstallsFunction(t, plan, env.element, "setAttribute", SetAttributeBody);
  }

  /** After a completed `install`, `element.setAttributeNS(...)` runs the
      `setAttributeNS` wrapper with the original function, which the record
      keeps. */
  lemma {:induction false} InstalledSetAttributeNSEnforces(cfg: Config, p: Provider, env: Environment, table: Table,
                                                           t: Tables, receiver: Receiver, args: seq<Value>)
    requires RunPlan(t, InstallSteps(env, table, OwnWrite(env, t))).status.Done?
    ensures OwnFunction(t.host, env.element, "setAttributeNS").Some?
    ensures var a := RunPlan(t, InstallSteps(env, table, OwnWrite(env, t))).after;
            var original := OwnFunction(t.host, env.element, "setAttributeNS").value;
            Key(env.element, "setAttributeNS") in a.originalSetters &&
            a.originalSetters[Key(env.element, "setAttributeNS")] == original &&
            OwnFunction(a.host, env.element, "setAttributeNS").Some? &&
            CallFunction(cfg, p, table, OwnFunction(a.host, env.element, "setAttributeNS").value, receiver, args) ==
            SetAttributeNSCall(cfg, p, table, receiver, original, args)
  {
    var plan := InstallSteps(env, table, OwnWrite(env, t));
    FunctionSinksInInstall(env, table, OwnWrite(env, t));
    InstallStepsShape(env, table, OwnWrite(env, t));
    WrapRunInstallsFunction(t, plan, env.element, "setAttributeNS", SetAttributeNSBody);
  }

  /** A second `install` throws at its first wrap and leaves both tables
      unchanged; its `setAllowedPolicyNames` call still happens. */
  lemma {:induction false} InstallTwiceIsRejected(env: Environment, table: Table, t: Tables)
    requires RunPlan(t, InstallSteps(env, table, OwnWrite(env, t))).status.Done?
    ensures var a := RunPlan(t, InstallSteps(env, table, OwnWrite(env, t))).after;
            RunPlan(a, InstallSteps(env, table, OwnWrite(env, a))) == Effect(Failed(DoubleInstallation), a)
  {
    var plan := InstallSteps(env, table, OwnWrite(env, t));
    InstallStepsShape(env, table, OwnWrite(env, t));
    assert plan.step == WrapSetterStep(env.element, "innerHTML", HTML, None);
    var e := ApplyStep(t, plan.step);
    WrapRunKeepsRecorded(e.after, plan.next, env.element, "innerHTML");
    var a := RunPlan(t, plan).after;
    assert OwnSetter(a.host, env.element, "innerHTML").Some?;
    assert InstallSteps(env, table, OwnWrite(env, a)).step == WrapSetterStep(env.element, "innerHTML", HTML, None);
  }

  /** A second `uninstall` throws at its first restore and changes nothing. */
  lemma {:induction false} UninstallTwiceIsRejected(env: Environment, table: Table, t: Tables)
    requires RunPlan(t, UninstallSteps(env, table, OwnWrite(env, t))).status.Done?
    ensures var a := RunPlan(t, UninstallSteps(env, table, OwnWrite(env, t))).after;
            RunPlan(a, UninstallSteps(env, table, OwnWrite(env, a))) == Effect(Failed(CannotRestore), a)
  {
    var plan := UninstallSteps(env, table, OwnWrite(env, t));
    UninstallStepsShape(env, table, OwnWrite(env, t));
    assert plan.step == RestoreSetterStep(env.element, "innerHTML", None);
    var e := ApplyStep(t, plan.step);
    RestoreRunKeepsForgotten(e.after, plan.next, Key(env.element, "innerHTML"));
    var a := RunPlan(t, plan).after;
    assert UninstallSteps(env, table, OwnWrite(env, a)).step == RestoreSetterStep(env.element, "innerHTML", None);
  }

  /** Starting from an empty record table, a completed `install` followed
      by a completed `uninstall` leaves the record table empty again. */
  lemma {:induction false} UninstallAfterInstallForgetsAll(env: Environment, table: Table, t: Tables)
    requires t.originalSetters == map[]
    requires RunPlan(t, InstallSteps(env, table, OwnWrite(env, t))).status.Done?
    requires var a := RunPlan(t, InstallSteps(env, table, OwnWrite(env, t))).after;
             RunPlan(a, UninstallSteps(env, table, OwnWrite(env, a))).status.Done?
    ensures var a := RunPlan(t, InstallSteps(env, table, OwnWrite(env, t))).after;
            RunPlan(a, UninstallSteps(env, table, OwnWrite(env, a))).after.originalSetters == map[]
  {
    var w := OwnWrite(env, t);
    var install := InstallSteps(env, table, w);
    var a := RunPlan(t, install).after;
    InstallStepsShape(env, table, w);
    WrapRunKeepsPresence(t, install, env.document, "write");
    assert OwnWrite(env, a) == w;
    var uninstall := UninstallSteps(env, table, w);
    UninstallStepsShape(env, table, w);
    WrapRunRecords(t, install);
    RestoreRunForgets(a, uninstall);
    UninstallCoversInstall(env, table, w);
    var u := RunPlan(a, uninstall).after;
    assert u.originalSetters.Keys == {};
  }
}
