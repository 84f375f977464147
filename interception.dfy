/** The interception table of the enforcer, specified on values: the record
    keys (`getKey_`), wrapping and restoring one member (`wrapFunction_`,
    `wrapSetter_`, `restoreFunction_`, `restoreSetter_`), and running a
    sequence of them the way `install` and `uninstall` do, stopping at the
    first one that throws. The `Enforcer` class implements these on its
    fields and is proved to agree with them. */
module Interception {
  import opened JsValues
  import opened SinkCatalog
  import opened Host
  import opened Errors

  /** `getKey_(object, name)` */
  function Key(o: Surface, name: string): (r: string)
  {
    o.ctorName + "-" + name
  }

  /** When no constructor name contains '-', distinct (constructor name,
      member name) pairs get distinct keys. */
  lemma {:induction false} KeyInjective(a: Surface, n: string, b: Surface, m: string)
    requires '-' !in a.ctorName && '-' !in b.ctorName
    requires Key(a, n) == Key(b, m)
    ensures a.ctorName == b.ctorName && n == m
  {
    var ka, kb := Key(a, n), Key(b, m);
    var la, lb := |a.ctorName|, |b.ctorName|;
    DashPosition(a.ctorName, n);
    DashPosition(b.ctorName, m);
    assert la == lb;
    assert a.ctorName == ka[..la] == kb[..lb] == b.ctorName;
    assert n == ka[la + 1..] == kb[lb + 1..] == m;
  }

  /** The first '-' of a key ends the constructor name. */
  lemma DashPosition(c: string, n: string)
    requires '-' !in c
    ensures (c + "-" + n)[|c|] == '-'
    ensures forall i :: 0 <= i < |c| ==> (c + "-" + n)[i] != '-'
  {
    assert forall i :: 0 <= i < |c| ==> (c + "-" + n)[i] == c[i];
  }

  /** One example of why `KeyInjective` needs its hypothesis: with a '-' in
      a constructor name two different members share a key, so wrapping the
      second reports a double installation. */
  lemma KeyCollision()
    ensures Key(Root("A-b"), "c") == Key(Root("A"), "b-c")
  {
  }

  /** The record table `originalSetters_` and the host's own members. */
  datatype Tables = Tables(originalSetters: map<string, Impl>, host: HostMap)

  /** Whether a step returned normally or threw. */
  datatype Status = Done | Failed(error: Error)

  /** The status of a step and the tables it leaves. */
  datatype Effect = Effect(status: Status, after: Tables)

  /** `descriptorObject` is absent, or an object on the prototype chain of `o`. */
  predicate ValidDescriptorObject(o: Surface, descriptorObject: Option<Surface>)
  {
    descriptorObject.None? || IsPrototypeOf(descriptorObject.value, o)
  }

  /** `useObject = descriptorObject || object` */
  function DescriptorSource(o: Surface, descriptorObject: Option<Surface>): Surface
  {
    if descriptorObject.Some? then descriptorObject.value else o
  }

  /** `wrapFunction_(o, name, body)` */
  function WrapFunction(t: Tables, o: Surface, name: string, body: Body): (r: Effect)
    ensures r.status.Failed? ==> r.after == t
    ensures r.status == Failed(NotAFunction(name)) <==> OwnFunction(t.host, o, name).None?
    ensures r.status == Failed(DoubleInstallation) <==>
            OwnFunction(t.host, o, name).Some? && Key(o, name) in t.originalSetters
    ensures r.status.Done? ==>
            var original := OwnFunction(t.host, o, name).value;
            Key(o, name) !in t.originalSetters &&
            r.after.originalSetters == t.originalSetters[Key(o, name) := original] &&
            r.after.host == t.host[(o, name) := Method(FunctionWrapper(body, original))]
  {
    var original := OwnFunction(t.host, o, name);
    if original.None? then Effect(Failed(NotAFunction(name)), t)
    else if Key(o, name) in t.originalSetters then Effect(Failed(DoubleInstallation), t)
    else
      Effect(Done, Tables(t.originalSetters[Key(o, name) := original.value],
                          InstallFunction(t.host, o, name, FunctionWrapper(body, original.value))))
  }

  /** `wrapSetter_(o, name, kind, descriptorObject)` */
  function WrapSetter(t: Tables, o: Surface, name: string, kind: Kind, descriptorObject: Option<Surface>): (r: Effect)
    ensures r.status.Failed? ==> r.after == t
    ensures r.status == Failed(InvalidPrototypeChain) <==> !ValidDescriptorObject(o, descriptorObject)
    ensures r.status == Failed(NoSetter(name)) <==>
            ValidDescriptorObject(o, descriptorObject) &&
            OwnSetter(t.host, DescriptorSource(o, descriptorObject), name).None?
    ensures r.status == Failed(DoubleInstallation) <==>
            ValidDescriptorObject(o, descriptorObject) &&
            OwnSetter(t.host, DescriptorSource(o, descriptorObject), name).Some? &&
            Key(o, name) in t.originalSetters
    ensures r.status.Done? ==>
            var source := (DescriptorSource(o, descriptorObject), name);
            var original := OwnSetter(t.host, source.0, name).value;
            source in t.host && Key(o, name) !in t.originalSetters &&
            r.after.originalSetters == t.originalSetters[Key(o, name) := original] &&
            r.after.host == t.host[(o, name) := Accessor(Some(EnforcingSetter(name, kind, original)),
                                                         GetterOf(t.host[source]))]
  {
    if descriptorObject.Some? && !IsPrototypeOf(descriptorObject.value, o) then
      Effect(Failed(InvalidPrototypeChain), t)
    else
      var useObject := DescriptorSource(o, descriptorObject);
      var original := OwnSetter(t.host, useObject, name);
      if original.None? then Effect(Failed(NoSetter(name)), t)
      else if Key(o, name) in t.originalSetters then Effect(Failed(DoubleInstallation), t)
      else
        var enforcing := EnforcingSetter(name, kind, original.value);
        var host := if useObject == o then InstallSetter(t.host, o, name, enforcing)
                    else InstallSetterAndGetter(t.host, o, name, enforcing, GetterOf(t.host[(useObject, name)]));
        Effect(Done, Tables(t.originalSetters[Key(o, name) := original.value], host))
  }

  /** `restoreFunction_(o, name)` */
  function RestoreFunction(t: Tables, o: Surface, name: string): (r: Effect)
    ensures r.status.Failed? ==> r.after == t
    ensures r.status.Failed? <==> Key(o, name) !in t.originalSetters
    ensures r.status.Failed? ==> r.status.error == CannotRestore
    ensures r.status.Done? ==>
            r.after.originalSetters == t.originalSetters - {Key(o, name)} &&
            r.after.host == t.host[(o, name) := Method(t.originalSetters[Key(o, name)])]
  {
    var key := Key(o, name);
    if key !in t.originalSetters then Effect(Failed(CannotRestore), t)
    else Effect(Done, Tables(t.originalSetters - {key}, InstallFunction(t.host, o, name, t.originalSetters[key])))
  }

  /** The getter `restoreSetter_` puts back beside the original setter. */
  function RestoredGetter(host: HostMap, o: Surface, name: string, descriptorObject: Option<Surface>): Option<Impl>
  {
    var source := (DescriptorSource(o, descriptorObject), name);
    if source in host then GetterOf(host[source]) else None
  }

  /** `restoreSetter_(o, name, descriptorObject)` */
  function RestoreSetter(t: Tables, o: Surface, name: string, descriptorObject: Option<Surface>): (r: Effect)
    ensures r.status.Failed? ==> r.after == t
    ensures r.status == Failed(InvalidPrototypeChain) <==> !ValidDescriptorObject(o, descriptorObject)
    ensures r.status == Failed(CannotRestore) <==>
            ValidDescriptorObject(o, descriptorObject) && Key(o, name) !in t.originalSetters
    ensures r.status == Failed(MissingDescriptor(name)) <==>
            ValidDescriptorObject(o, descriptorObject) && Key(o, name) in t.originalSetters &&
            descriptorObject.Some? && (descriptorObject.value, name) !in t.host
    ensures r.status.Done? ==>
            r.after.originalSetters == t.originalSetters - {Key(o, name)} &&
            r.after.host == t.host[(o, name) := Accessor(Some(t.originalSetters[Key(o, name)]),
                                                         RestoredGetter(t.host, o, name, descriptorObject))]
  {
    var key := Key(o, name);
    if descriptorObject.Some? && !IsPrototypeOf(descriptorObject.value, o) then
      Effect(Failed(InvalidPrototypeChain), t)
    else if key !in t.originalSetters then Effect(Failed(CannotRestore), t)
    else if descriptorObject.Some? then
      var d := descriptorObject.value;
      if (d, name) !in t.host then Effect(Failed(MissingDescriptor(name)), t)
      else
        Effect(Done, Tables(t.originalSetters - {key},
                            InstallSetterAndGetter(t.host, o, name, t.originalSetters[key], GetterOf(t.host[(d, name)]))))
    else
      Effect(Done, Tables(t.originalSetters - {key}, InstallSetter(t.host, o, name, t.originalSetters[key])))
  }

  /** Restoring a wrapped function reinstalls exactly the recorded original
      and deletes its record: both tables are as before the wrap. */
  lemma {:induction false} RestoreFunctionUndoesWrap(t: Tables, o: Surface, name: string, body: Body)
    requires WrapFunction(t, o, name, body).status.Done?
    ensures RestoreFunction(WrapFunction(t, o, name, body).after, o, name) == Effect(Done, t)
  {
    var w := WrapFunction(t, o, name, body).after;
    var key := Key(o, name);
    var r := RestoreFunction(w, o, name);
    assert r.after.originalSetters == t.originalSetters;
    assert t.host[(o, name)] == Method(w.originalSetters[key]);
    assert r.after.host == t.host;
  }

  /** Restoring a setter wrapped in place reinstalls the recorded original
      beside the untouched getter: both tables are as before the wrap. */
  lemma {:induction false} RestoreSetterUndoesWrap(t: Tables, o: Surface, name: string, kind: Kind)
    requires WrapSetter(t, o, name, kind, None).status.Done?
    ensures RestoreSetter(WrapSetter(t, o, name, kind, None).after, o, name, None) == Effect(Done, t)
  {
    var w := WrapSetter(t, o, name, kind, None).after;
    var key := Key(o, name);
    var r := RestoreSetter(w, o, name, None);
    assert r.after.originalSetters == t.originalSetters;
    assert t.host[(o, name)] == Accessor(Some(w.originalSetters[key]), GetterOf(t.host[(o, name)]));
    assert r.after.host == t.host;
  }

  /** A setter wrapped from an ancestor `d` is restored as an own accessor of
      `o` equal to `d`'s, original setter and getter; the table is as before. */
  lemma {:induction false} RestoreInheritedSetter(t: Tables, o: Surface, d: Surface, name: string, kind: Kind)
    requires WrapSetter(t, o, name, kind, Some(d)).status.Done?
    ensures (d, name) in t.host
    ensures RestoreSetter(WrapSetter(t, o, name, kind, Some(d)).after, o, name, Some(d)) ==
            Effect(Done, Tables(t.originalSetters, t.host[(o, name) := t.host[(d, name)]]))
  {
    PrototypeIsProper(d, o);
    var w := WrapSetter(t, o, name, kind, Some(d)).after;
    var key := Key(o, name);
    assert w.host[(d, name)] == t.host[(d, name)];
    var r := RestoreSetter(w, o, name, Some(d));
    assert r.status.Done?;
    assert r.after.originalSetters == t.originalSetters;
    assert t.host[(d, name)] == Accessor(Some(w.originalSetters[key]), GetterOf(t.host[(d, name)]));
  }

  /** That own accessor is invisible: where `o` had no own member and
      nothing between `o` and `d` has one, property lookup on `o` finds the
      same member before the wrap and after the restore. */
  lemma {:induction false} InheritedRestoreIsInvisible(t: Tables, o: Surface, d: Surface, name: string, kind: Kind)
    requires WrapSetter(t, o, name, kind, Some(d)).status.Done?
    requires (o, name) !in t.host && NothingBetween(t.host, d, o, name)
    ensures var r := RestoreSetter(WrapSetter(t, o, name, kind, Some(d)).after, o, name, Some(d));
            r.status.Done? && Resolve(r.after.host, o, name) == Resolve(t.host, o, name)
  {
    RestoreInheritedSetter(t, o, d, name, kind);
    ResolveInherited(t.host, d, o, name);
  }

  /** A second wrap of a wrapped function reports a double installation and
      changes nothing. */
  lemma {:induction false} WrapFunctionTwice(t: Tables, o: Surface, name: string, body: Body, body': Body)
    requires WrapFunction(t, o, name, body).status.Done?
    ensures var w := WrapFunction(t, o, name, body).after;
            WrapFunction(w, o, name, body') == Effect(Failed(DoubleInstallation), w)
  {
    var w := WrapFunction(t, o, name, body).after;
    assert OwnFunction(w.host, o, name).Some?;
  }

  /** A second wrap of a wrapped setter reports a double installation and
      changes nothing. */
  lemma {:induction false} WrapSetterTwice(t: Tables, o: Surface, name: string, kind: Kind, kind': Kind,
                                           descriptorObject: Option<Surface>)
    requires WrapSetter(t, o, name, kind, descriptorObject).status.Done?
    ensures var w := WrapSetter(t, o, name, kind, descriptorObject).after;
            WrapSetter(w, o, name, kind', descriptorObject) == Effect(Failed(DoubleInstallation), w)
  {
    var w := WrapSetter(t, o, name, kind, descriptorObject).after;
    var source := DescriptorSource(o, descriptorObject);
    if descriptorObject.Some? {
      PrototypeIsProper(descriptorObject.value, o);
      assert w.host[(source, name)] == t.host[(source, name)];
    }
    assert OwnSetter(w.host, source, name).Some?;
  }

  /** A second restore of a function reports it cannot restore and changes nothing. */
  lemma {:induction false} RestoreFunctionTwice(t: Tables, o: Surface, name: string)
    requires RestoreFunction(t, o, name).status.Done?
    ensures var r := RestoreFunction(t, o, name).after;
            RestoreFunction(r, o, name) == Effect(Failed(CannotRestore), r)
  {
  }

  /** A second restore of a setter reports it cannot restore and changes nothing. */
  lemma {:induction false} RestoreSetterTwice(t: Tables, o: Surface, name: string, descriptorObject: Option<Surface>)
    requires RestoreSetter(t, o, name, descriptorObject).status.Done?
    ensures var r := RestoreSetter(t, o, name, descriptorObject).after;
            RestoreSetter(r, o, name, descriptorObject) == Effect(Failed(CannotRestore), r)
  {
  }

  /** One call `install` or `uninstall` makes. `Fail` stands for a call that
      throws before reaching the table (`window[type]` undefined). */
  datatype Step =
    | WrapFunctionStep(o: Surface, name: string, body: Body)
    | WrapSetterStep(o: Surface, name: string, kind: Kind, descriptorObject: Option<Surface>)
    | RestoreFunctionStep(o: Surface, name: string)
    | RestoreSetterStep(o: Surface, name: string, descriptorObject: Option<Surface>)
    | Fail(error: Error)

  function ApplyStep(t: Tables, s: Step): Effect
  {
    match s
    case WrapFunctionStep(o, name, body) => WrapFunction(t, o, name, body)
    case WrapSetterStep(o, name, kind, descriptorObject) => WrapSetter(t, o, name, kind, descriptorObject)
    case RestoreFunctionStep(o, name) => RestoreFunction(t, o, name)
    case RestoreSetterStep(o, name, descriptorObject) => RestoreSetter(t, o, name, descriptorObject)
    case Fail(error) => Effect(Failed(error), t)
  }

  /** A sequence of calls, in order. */
  datatype Plan = End | Call(step: Step, next: Plan)

  /** The calls of `p`, then those of `q`. */
  function Append(p: Plan, q: Plan): Plan
  {
    match p
    case End => q
    case Call(s, next) => Call(s, Append(next, q))
  }

  /** Runs the calls in order; the first that throws ends the run, leaving
      the tables as the calls before it left them. */
  function RunPlan(t: Tables, p: Plan): Effect
    decreases p
  {
    match p
    case End => Effect(Done, t)
    case Call(s, next) =>
      var e := ApplyStep(t, s);
      if e.status.Failed? then e else RunPlan(e.after, next)
  }

  /** Continue a run with more calls, unless it already threw. */
  function AndThen(e: Effect, p: Plan): Effect
  {
    if e.status.Failed? then e else RunPlan(e.after, p)
  }

  /** Running two plans one after the other is running the first, then,
      unless it threw, the second from where it left the tables. */
  lemma {:induction false} RunAppend(t: Tables, p: Plan, q: Plan)
    ensures RunPlan(t, Append(p, q)) == AndThen(RunPlan(t, p), q)
    decreases p
  {
    match p
    case End =>
    case Call(s, next) =>
      var e := ApplyStep(t, s);
      if e.status.Done? {
        RunAppend(e.after, next, q);
      }
  }

  /** The first `n` calls of a plan. */
  function Take(p: Plan, n: nat): Plan
  {
    if n == 0 then End
    else match p
      case End => End
      case Call(s, next) => Call(s, Take(next, n - 1))
  }

  /** The member a call redefines, if it gets that far. */
  function Target(s: Step): Option<(Surface, string)>
  {
    match s
    case WrapFunctionStep(o, name, _) => Some((o, name))
    case WrapSetterStep(o, name, _, _) => Some((o, name))
    case RestoreFunctionStep(o, name) => Some((o, name))
    case RestoreSetterStep(o, name, _) => Some((o, name))
    case Fail(_) => None
  }

  /** The record key a call adds or removes: that of its target. */
  function StepKey(s: Step): Option<string>
  {
    match Target(s)
    case None => None
    case Some(m) => Some(Key(m.0, m.1))
  }

  /** The record keys of the calls of a plan. */
  function Keys(p: Plan): set<string>
  {
    match p
    case End => {}
    case Call(s, next) => (if StepKey(s).Some? then {StepKey(s).value} else {}) + Keys(next)
  }

  /** No call of the plan redefines `o.name`. */
  predicate Untargeted(p: Plan, o: Surface, name: string)
  {
    match p
    case End => true
    case Call(s, next) => Target(s) != Some((o, name)) && Untargeted(next, o, name)
  }

  /** Every call of the plan is a wrap (or throws before reaching the table). */
  predicate WrapsOnly(p: Plan)
  {
    match p
    case End => true
    case Call(s, next) => (s.WrapFunctionStep? || s.WrapSetterStep? || s.Fail?) && WrapsOnly(next)
  }

  /** Every call of the plan is a restore (or throws before reaching the table). */
  predicate RestoresOnly(p: Plan)
  {
    match p
    case End => true
    case Call(s, next) => (s.RestoreFunctionStep? || s.RestoreSetterStep? || s.Fail?) && RestoresOnly(next)
  }

  /** No call of the plan wraps `o.name` with a setter taken from an
      ancestor, the only wrap that can create an own member. */
  predicate CreatesNo(p: Plan, o: Surface, name: string)
  {
    match p
    case End => true
    case Call(s, next) =>
      !(s.WrapSetterStep? && s.descriptorObject.Some? && s.o == o && s.name == name) && CreatesNo(next, o, name)
  }

  lemma {:induction false} KeysAppend(p: Plan, q: Plan)
    ensures Keys(Append(p, q)) == Keys(p) + Keys(q)
    decreases p
  {
    match p
    case End =>
    case Call(s, next) => KeysAppend(next, q);
  }

  lemma {:induction false} WrapsOnlyAppend(p: Plan, q: Plan)
    ensures WrapsOnly(Append(p, q)) <==> WrapsOnly(p) && WrapsOnly(q)
    decreases p
  {
    match p
    case End =>
    case Call(s, next) => WrapsOnlyAppend(next, q);
  }

  lemma {:induction false} RestoresOnlyAppend(p: Plan, q: Plan)
    ensures RestoresOnly(Append(p, q)) <==> RestoresOnly(p) && RestoresOnly(q)
    decreases p
  {
    match p
    case End =>
    case Call(s, next) => RestoresOnlyAppend(next, q);
  }

  lemma {:induction false} CreatesNoAppend(p: Plan, q: Plan, o: Surface, name: string)
    ensures CreatesNo(Append(p, q), o, name) <==> CreatesNo(p, o, name) && CreatesNo(q, o, name)
    decreases p
  {
    match p
    case End =>
    case Call(s, next) => CreatesNoAppend(next, q, o, name);
  }

  /** Calls that do not target `o.name` leave it as it was, whether they
      return or throw. */
  lemma {:induction false} RunKeepsUntargeted(t: Tables, p: Plan, o: Surface, name: string)
    requires Untargeted(p, o, name)
    ensures var a := RunPlan(t, p).after;
            ((o, name) in a.host <==> (o, name) in t.host) &&
            ((o, name) in t.host ==> a.host[(o, name)] == t.host[(o, name)])
    decreases p
  {
    match p
    case End =>
    case Call(s, next) =>
      var e := ApplyStep(t, s);
      if e.status.Done? {
        RunKeepsUntargeted(e.after, next, o, name);
      }
  }

  /** A completed run of wraps records the keys of all its calls, none of
      which was recorded before. */
  lemma {:induction false} WrapRunRecords(t: Tables, p: Plan)
    requires WrapsOnly(p) && RunPlan(t, p).status.Done?
    ensures RunPlan(t, p).after.originalSetters.Keys == t.originalSetters.Keys + Keys(p)
    decreases p
  {
    match p
    case End =>
    case Call(s, next) =>
      var e := ApplyStep(t, s);
      assert e.after.originalSetters.Keys == t.originalSetters.Keys + {StepKey(s).value};
      WrapRunRecords(e.after, next);
  }

  /** A completed run of restores deletes the keys of all its calls. */
  lemma {:induction false} RestoreRunForgets(t: Tables, p: Plan)
    requires RestoresOnly(p) && RunPlan(t, p).status.Done?
    ensures RunPlan(t, p).after.originalSetters.Keys == t.originalSetters.Keys - Keys(p)
    decreases p
  {
    match p
    case End =>
    case Call(s, next) =>
      var e := ApplyStep(t, s);
      assert e.after.originalSetters.Keys == t.originalSetters.Keys - {StepKey(s).value};
      RestoreRunForgets(e.after, next);
  }

  /** In a completed run of wraps, a member whose key was already recorded is
      not touched again: any call on it would have thrown. */
  lemma {:induction false} WrapRunKeepsRecorded(t: Tables, p: Plan, o: Surface, name: string)
    requires WrapsOnly(p) && RunPlan(t, p).status.Done?
    requires Key(o, name) in t.originalSetters
    ensures var a := RunPlan(t, p).after;
            Key(o, name) in a.originalSetters &&
            a.originalSetters[Key(o, name)] == t.originalSetters[Key(o, name)] &&
            ((o, name) in a.host <==> (o, name) in t.host) &&
            ((o, name) in t.host ==> a.host[(o, name)] == t.host[(o, name)])
    decreases p
  {
    match p
    case End =>
    case Call(s, next) =>
      var e := ApplyStep(t, s);
      assert Target(s).value != (o, name);
      WrapRunKeepsRecorded(e.after, next, o, name);
  }

  /** A run of restores never records a key, whether it completes or not. */
  lemma {:induction false} RestoreRunKeepsForgotten(t: Tables, p: Plan, k: string)
    requires RestoresOnly(p) && k !in t.originalSetters
    ensures k !in RunPlan(t, p).after.originalSetters
    decreases p
  {
    match p
    case End =>
    case Call(s, next) =>
      var e := ApplyStep(t, s);
      if e.status.Done? {
        RestoreRunKeepsForgotten(e.after, next, k);
      }
  }

  /** A completed run of wraps creates no own member except by wrapping a
      setter found on an ancestor: a function or an own setter it wraps was
      already there. */
  lemma {:induction false} WrapRunKeepsPresence(t: Tables, p: Plan, o: Surface, name: string)
    requires WrapsOnly(p) && RunPlan(t, p).status.Done? && CreatesNo(p, o, name)
    ensures (o, name) in RunPlan(t, p).after.host <==> (o, name) in t.host
    decreases p
  {
    match p
    case End =>
    case Call(s, next) =>
      var e := ApplyStep(t, s);
      WrapRunKeepsPresence(e.after, next, o, name);
  }

  /** The plan makes the call `s`. */
  predicate Contains(p: Plan, s: Step)
  {
    match p
    case End => false
    case Call(s0, next) => s0 == s || Contains(next, s)
  }

  lemma {:induction false} ContainsAppend(p: Plan, q: Plan, s: Step)
    ensures Contains(Append(p, q), s) <==> Contains(p, s) || Contains(q, s)
    decreases p
  {
    match p
    case End =>
    case Call(s0, next) => ContainsAppend(next, q, s);
  }

  /** A completed run of wraps that wraps the function `o.name` records the
      function `o` owned before the run and leaves the wrapper around it in
      place: no earlier call touched `o.name`, since that would have
      recorded its key and made this wrap throw, and no later call did,
      since the key was then recorded. */
  lemma {:induction false} WrapRunInstallsFunction(t: Tables, p: Plan, o: Surface, name: string, body: Body)
    requires WrapsOnly(p) && RunPlan(t, p).status.Done? && Contains(p, WrapFunctionStep(o, name, body))
    ensures Key(o, name) !in t.originalSetters && OwnFunction(t.host, o, name).Some?
    ensures var a := RunPlan(t, p).after;
            var original := OwnFunction(t.host, o, name).value;
            Key(o, name) in a.originalSetters && a.originalSetters[Key(o, name)] == original &&
            OwnFunction(a.host, o, name) == Some(FunctionWrapper(body, original))
    decreases p
  {
    match p
    case Call(s0, next) =>
      var e := ApplyStep(t, s0);
      if s0 == WrapFunctionStep(o, name, body) {
        WrapRunKeepsRecorded(e.after, next, o, name);
      } else {
        WrapRunInstallsFunction(e.after, next, o, name, body);
        assert Target(s0) != Some((o, name));
        assert t.originalSetters.Keys <= e.after.originalSetters.Keys;
        assert ((o, name) in e.after.host <==> (o, name) in t.host) &&
               ((o, name) in t.host ==> e.after.host[(o, name)] == t.host[(o, name)]);
      }
  }

  // ----- The record table and the host -----

  /** `m` holds a wrapper the enforcer installed around `original`. */
  predicate WrapsOriginal(m: Member, original: Impl)
  {
    (m.Method? && m.fn.FunctionWrapper? && m.fn.original == original) ||
    (m.Accessor? && m.setter.Some? && m.setter.value.EnforcingSetter? && m.setter.value.original == original)
  }

  /** Every recorded key names a member, with exactly that key, that holds
      a wrapper around the recorded original. */
  predicate Tracked(t: Tables)
  {
    forall k :: k in t.originalSetters ==>
      exists m :: m in t.host && Key(m.0, m.1) == k && WrapsOriginal(t.host[m], t.originalSetters[k])
  }

  /** The step from `t` to `a` changed only the member `o.name` and the
      record `Key(o, name)`. */
  predicate OnlyAt(t: Tables, a: Tables, o: Surface, name: string)
  {
    (forall m :: m in t.host && m != (o, name) ==> m in a.host && a.host[m] == t.host[m]) &&
    (forall k :: k in a.originalSetters && k != Key(o, name) ==>
       k in t.originalSetters && a.originalSetters[k] == t.originalSetters[k])
  }

  /** A call that wraps `o.name` or deletes its record, and changes nothing
      else, keeps the tracking of every other record. */
  lemma {:induction false} OnlyAtKeepsTracked(t: Tables, a: Tables, o: Surface, name: string)
    requires Tracked(t) && OnlyAt(t, a, o, name)
    requires Key(o, name) in a.originalSetters ==>
             (o, name) in a.host && WrapsOriginal(a.host[(o, name)], a.originalSetters[Key(o, name)])
    ensures Tracked(a)
  {
    forall k | k in a.originalSetters
      ensures exists m :: m in a.host && Key(m.0, m.1) == k && WrapsOriginal(a.host[m], a.originalSetters[k])
    {
      if k == Key(o, name) {
        var m := (o, name);
        assert m in a.host && Key(m.0, m.1) == k && WrapsOriginal(a.host[m], a.originalSetters[k]);
      } else {
        var m :| m in t.host && Key(m.0, m.1) == k && WrapsOriginal(t.host[m], t.originalSetters[k]);
        assert m != (o, name);
        assert m in a.host && Key(m.0, m.1) == k && WrapsOriginal(a.host[m], a.originalSetters[k]);
      }
    }
  }

  lemma {:induction false} WrapFunctionKeepsTracked(t: Tables, o: Surface, name: string, body: Body)
    requires Tracked(t)
    ensures Tracked(WrapFunction(t, o, name, body).after)
  {
    var e := WrapFunction(t, o, name, body);
    if e.status.Done? {
      OnlyAtKeepsTracked(t, e.after, o, name);
    }
  }

  lemma {:induction false} WrapSetterKeepsTracked(t: Tables, o: Surface, name: string, kind: Kind,
                                                  descriptorObject: Option<Surface>)
    requires Tracked(t)
    ensures Tracked(WrapSetter(t, o, name, kind, descriptorObject).after)
  {
    var e := WrapSetter(t, o, name, kind, descriptorObject);
    if e.status.Done? {
      OnlyAtKeepsTracked(t, e.after, o, name);
    }
  }

  lemma {:induction false} RestoreFunctionKeepsTracked(t: Tables, o: Surface, name: string)
    requires Tracked(t)
    ensures Tracked(RestoreFunction(t, o, name).after)
  {
    var e := RestoreFunction(t, o, name);
    if e.status.Done? {
      OnlyAtKeepsTracked(t, e.after, o, name);
    }
  }

  lemma {:induction false} RestoreSetterKeepsTracked(t: Tables, o: Surface, name: string,
                                                     descriptorObject: Option<Surface>)
    requires Tracked(t)
    ensures Tracked(RestoreSetter(t, o, name, descriptorObject).after)
  {
    var e := RestoreSetter(t, o, name, descriptorObject);
    if e.status.Done? {
      OnlyAtKeepsTracked(t, e.after, o, name);
    }
  }

  /** Every run keeps the tracking, whether it completes or throws. */
  lemma {:induction false} RunKeepsTracked(t: Tables, p: Plan)
    requires Tracked(t)
    ensures Tracked(RunPlan(t, p).after)
    decreases p
  {
    match p
    case End =>
    case Call(s, next) =>
      match s {
        case WrapFunctionStep(o, name, body) => WrapFunctionKeepsTracked(t, o, name, body);
        case WrapSetterStep(o, name, kind, d) => WrapSetterKeepsTracked(t, o, name, kind, d);
        case RestoreFunctionStep(o, name) => RestoreFunctionKeepsTracked(t, o, name);
        case RestoreSetterStep(o, name, d) => RestoreSetterKeepsTracked(t, o, name, d);
        case Fail(_) =>
      }
      var e := ApplyStep(t, s);
      if e.status.Done? {
        RunKeepsTracked(e.after, next);
      }
  }

  /** The general form of `RestoreFunctionUndoesWrap`: in a tracked state
      where `o.name` alone has its key, a record for it means `o.name` holds
      a wrapper around the recorded original, so restoring a wrapped
      function reinstalls the function that wrapper calls. */
  lemma {:induction false} RecordedMemberIsWrapped(t: Tables, o: Surface, name: string)
    requires Tracked(t) && SeparateKey(t.host, o, name) && Key(o, name) in t.originalSetters
    ensures (o, name) in t.host && WrapsOriginal(t.host[(o, name)], t.originalSetters[Key(o, name)])
    ensures t.host[(o, name)].Method? ==>
            RestoreFunction(t, o, name).status.Done? &&
            RestoreFunction(t, o, name).after.host[(o, name)] == Method(t.host[(o, name)].fn.original)
  {
    var k := Key(o, name);
    var m :| m in t.host && Key(m.0, m.1) == k && WrapsOriginal(t.host[m], t.originalSetters[k]);
    assert m == (o, name);
  }

  predicate IsWrapperImpl(f: Impl)
  {
    f.FunctionWrapper? || f.EnforcingSetter?
  }

  /** `m` holds a wrapper: a wrapper function, or an enforcing setter. */
  predicate IsWrapper(m: Member)
  {
    (m.Method? && IsWrapperImpl(m.fn)) || (m.Accessor? && m.setter.Some? && IsWrapperImpl(m.setter.value))
  }

  /** A member is wrapped iff its key is recorded, and the record holds an
      original that is no wrapper itself. */
  predicate Exact(t: Tables)
  {
    Tracked(t) &&
    (forall m :: m in t.host && IsWrapper(t.host[m]) ==> Key(m.0, m.1) in t.originalSetters) &&
    (forall k :: k in t.originalSetters ==> !IsWrapperImpl(t.originalSetters[k]))
  }

  /** No member other than `o.name` shares its key. */
  predicate SeparateKey(host: HostMap, o: Surface, name: string)
  {
    forall m :: m in host && m != (o, name) ==> Key(m.0, m.1) != Key(o, name)
  }

  /** Distinct constructor names without a '-' give every member its own key. */
  lemma {:induction false} DistinctNamesSeparateKeys(host: HostMap, o: Surface, name: string)
    requires '-' !in o.ctorName
    requires forall m :: m in host ==> '-' !in m.0.ctorName
    requires forall m :: m in host && m.0 != o ==> m.0.ctorName != o.ctorName
    ensures SeparateKey(host, o, name)
  {
    forall m | m in host && m != (o, name) ensures Key(m.0, m.1) != Key(o, name) {
      if Key(m.0, m.1) == Key(o, name) {
        KeyInjective(m.0, m.1, o, name);
      }
    }
  }

  lemma {:induction false} WrapFunctionKeepsExact(t: Tables, o: Surface, name: string, body: Body)
    requires Exact(t)
    ensures Exact(WrapFunction(t, o, name, body).after)
  {
    WrapFunctionKeepsTracked(t, o, name, body);
  }

  /** A setter taken from an ancestor whose own setter is not wrapped keeps
      the table exact; wrapping from a wrapped ancestor would record a
      wrapper as the original. */
  lemma {:induction false} WrapSetterKeepsExact(t: Tables, o: Surface, name: string, kind: Kind,
                                                descriptorObject: Option<Surface>)
    requires Exact(t)
    requires descriptorObject.Some? ==> Key(descriptorObject.value, name) !in t.originalSetters
    ensures Exact(WrapSetter(t, o, name, kind, descriptorObject).after)
  {
    WrapSetterKeepsTracked(t, o, name, kind, descriptorObject);
  }

  lemma {:induction false} RestoreFunctionKeepsExact(t: Tables, o: Surface, name: string)
    requires Exact(t) && SeparateKey(t.host, o, name)
    ensures Exact(RestoreFunction(t, o, name).after)
  {
    RestoreFunctionKeepsTracked(t, o, name);
  }

  lemma {:induction false} RestoreSetterKeepsExact(t: Tables, o: Surface, name: string,
                                                   descriptorObject: Option<Surface>)
    requires Exact(t) && SeparateKey(t.host, o, name)
    ensures Exact(RestoreSetter(t, o, name, descriptorObject).after)
  {
    RestoreSetterKeepsTracked(t, o, name, descriptorObject);
  }

  /** Without separate keys the converse fails: two objects whose
      constructors are both named "A" share the key of `f`, so restoring
      the unwrapped one deletes the record of the wrapped one. */
  lemma SharedNameLosesRecord()
    ensures var a := Root("A");
            var b := Derived("A", Root("B"));
            var t := Tables(map[], map[(a, "f") := Method(Native(0)), (b, "f") := Method(Native(1))]);
            var w := WrapFunction(t, a, "f", SetAttributeBody);
            var r := RestoreFunction(w.after, b, "f");
            w.status.Done? && r.status.Done? && r.after.originalSetters == map[] &&
            IsWrapper(r.after.host[(a, "f")])
  {
    var a := Root("A");
    var b := Derived("A", Root("B"));
    assert a != b;
    assert Key(a, "f") == Key(b, "f");
  }
}
