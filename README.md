# A verified model of the Trusted Types enforcer

This project models `TrustedTypesEnforcer` (`src/enforcer.js`) in Dafny and proves properties of the model. The enforcer patches the DOM so that dangerous sinks only accept trusted values, and it can undo that patching:

- `innerHTML`, `outerHTML` and `document.write`;
- `setAttribute` and `setAttributeNS`;
- the script element's `innerText` and `textContent`;
- every element property named in its attribute catalog.

Each patched member gets either an enforcing setter or a wrapper function. The wrapper runs `enforce_`. That step lets a value through when the trusted-type checker accepts it or when it is exempt, and otherwise tries the fallback policy. When neither applies, the enforcer logs the violation, throws, or returns without touching the sink. The original of every patched member is kept in a record table keyed `constructorName-memberName`, so `uninstall` can put it back.

The model has these parts:

- `JsValues`: the JavaScript values the enforcer tells apart, plus `String(v)`, `toLowerCase` and argument-list updates.
- `SinkCatalog`: the attribute catalog as an ordered table, including the `on*` handler names added to `HTMLElement`, and the lookups on it.
- `Host`, `Errors`: the host objects as a map from (object, member name) to an own member, the three redefinition primitives as updates of that map, and the errors the enforcer throws.
- `Enforcement`: `enforce_`, the attribute walk, the two `setAttribute` wrappers, and what calling an installed wrapper or setter amounts to.
- `Interception`: wrapping and restoring one member, specified on values. `Plan` lists the calls a sequence of wraps or restores makes, and `RunPlan` runs them, stopping at the first one that throws.
- `TrustedTypesEnforcer`: the `Enforcer` class.
  - Its fields are the record table `originalSetters` and the host map `host`.
  - Every method is proved to leave exactly the state its pure specification prescribes.
  - Its invariant `Valid` says that every record names a member that wraps the recorded original. `new` establishes it, and `install` and `uninstall` keep it.
  - `install` and `uninstall` are proved to run the plans `InstallSteps` and `UninstallSteps`.
  - The nested property loops and the do-while attribute walk are `while` loops with invariants.
- `Lifecycle`: properties of a whole install or uninstall.
  - A second install is rejected and changes nothing, and so is a second uninstall.
  - An installed `innerHTML` setter enforces, using the original setter, and so do the installed `insertAdjacentHTML` and every other function `wrapWithEnforceFunction_` wrapped; the installed `setAttribute` and `setAttributeNS` run their wrappers with the original functions.
  - Uninstalling after installing leaves the record table empty.
  - Reading `Document.prototype.write` up front gives what the source's later read gives.
- `InheritedAttributeKeys`: the attribute lookup as written, where plain-object reads see `Object.prototype`, and the two findings that follow from it, for `setAttribute` and `setAttributeNS`.

## Model

| member | source | states |
|---|---|---|
| JsValues.ToLowerCase | src/enforcer.js:328 | each character is lower-cased (ASCII) and the length is kept; an already lower-case name is unchanged |
| JsValues.SetArg | src/enforcer.js:583 | `args[i] = v` on a JS array: `v` is at `i`, every other index is unchanged, and an index past the end grows the array with `undefined` holes |
| SinkCatalog.HandlerNames | src/enforcer.js:89-93 | the handler names are exactly those own names of `HTMLElement.prototype` that start with `on`, without repeats |
| SinkCatalog.BuildAttributeTypeTable | src/enforcer.js:89-93 | the loop's table is the static catalog with the handler entries put in the `HTMLElement` slot |
| SinkCatalog.FindType | src/enforcer.js:302 | a type's entry is absent iff no table row has that name; otherwise it is the first row of that name |
| SinkCatalog.FindAttribute | src/enforcer.js:303 | an attribute's kind is absent iff no entry has that name; otherwise it is the first entry of that name |
| SinkCatalog.HandlerLookup | src/enforcer.js:84-93 | in the built table, `HTMLElement` maps an attribute to Script iff it is an own `on*` name of `HTMLElement.prototype`, and to nothing otherwise |
| SinkCatalog.StaticLookup | src/enforcer.js:31-86 | adding the handlers changes the lookup of no type other than `HTMLElement` |
| SinkCatalog.StaticTable | src/enforcer.js:31-86 | the catalog's types in source order with their attributes and kinds; the stop type `HTMLElement` comes last with no attributes of its own, and no other entry has its name |
| SinkCatalog.PropertyName | src/enforcer.js:237-238 | the property a catalog attribute is wrapped under (and, at lines 254-255, restored under) differs from the attribute only in case, and only for `codebase` and `formaction` |
| Host.PrototypeIsProper | src/enforcer.js:475 | a descriptor object that passed the prototype check is a different object, so the `useObject === object` branch is never taken for it |
| Host.ResolveInherited | src/enforcer.js:210-215 | a subtype with no own member, and nothing in between, sees the ancestor's own member |
| Interception.Key | src/enforcer.js:544-549 | the record key of `o.name` is `o`'s constructor name, a `-`, and the member name; the two lemmas below say when it identifies the member |
| Interception.KeyInjective | src/enforcer.js:544-549 | when no constructor name contains `-`, distinct (constructor name, member name) pairs get distinct keys |
| Interception.KeyCollision | src/enforcer.js:547-548 | with a `-` in a constructor name, two different members share a key |
| Interception.WrapFunction | src/enforcer.js:407-432 | throws "not a function" iff there is no own function, and "double installation" iff the key is already recorded; a throw changes nothing; success adds exactly that key, bound to the original, and replaces only that member by a wrapper around it |
| Interception.WrapSetter | src/enforcer.js:444-491 | throws "invalid prototype chain" iff the descriptor object is not an ancestor, "no setter" iff the object read has no own setter, and "double installation" iff the key is recorded; a throw changes nothing; success records the original setter and installs an enforcing setter around it beside the getter of the object read |
| Interception.RestoreFunction | src/enforcer.js:527-535 | throws "cannot restore" iff the key is missing, changing nothing; otherwise it reinstalls the recorded original and deletes the key |
| Interception.RestoreSetter | src/enforcer.js:502-519 | throws "invalid prototype chain" iff the descriptor object is not an ancestor, and "cannot restore" iff the key is missing; an ancestor without that member throws too; a throw changes nothing; success reinstalls the recorded setter beside the getter (the ancestor's, when one is given) and deletes the key |
| Interception.RestoreFunctionUndoesWrap | src/enforcer.js:527-534 | a wrapped function then restored leaves both tables as before the wrap |
| Interception.RestoreSetterUndoesWrap | src/enforcer.js:511-518 | a setter wrapped in place then restored leaves both tables as before the wrap |
| Interception.RestoreInheritedSetter | src/enforcer.js:511-514 | a setter wrapped from an ancestor then restored leaves the record table as before, and the object with an own copy of the ancestor's accessor |
| Interception.InheritedRestoreIsInvisible | src/enforcer.js:481-488 | that own copy resolves to the same member the object inherited before the wrap |
| Interception.WrapFunctionTwice | src/enforcer.js:417-420 | wrapping a wrapped function again throws "double installation" and changes nothing |
| Interception.WrapSetterTwice | src/enforcer.js:461-464 | wrapping a wrapped setter again throws "double installation" and changes nothing |
| Interception.RestoreFunctionTwice | src/enforcer.js:528-532 | restoring a function twice throws "cannot restore" the second time and changes nothing |
| Interception.RestoreSetterTwice | src/enforcer.js:507-510 | restoring a setter twice throws "cannot restore" the second time and changes nothing |
| Interception.RunAppend | src/enforcer.js:176-178 | running two call sequences in turn is running the first, then the second unless the first threw |
| Interception.RunKeepsUntargeted | src/enforcer.js:161 | calls that target other members leave a member as it was, whether they complete or throw |
| Interception.WrapRunRecords | src/enforcer.js:431 | a completed run of wraps adds the keys of all its calls to the record table |
| Interception.RestoreRunForgets | src/enforcer.js:534 | a completed run of restores removes the keys of all its calls |
| Interception.WrapRunKeepsRecorded | src/enforcer.js:417-420 | in a completed run of wraps, a member whose key was already recorded is not touched and its record is kept |
| Interception.RestoreRunKeepsForgotten | src/enforcer.js:518 | a run of restores never adds a key, whether it completes or not |
| Interception.WrapRunKeepsPresence | src/enforcer.js:475-479 | a completed run of wraps creates no own member except by wrapping an ancestor's setter |
| Interception.ContainsAppend | src/enforcer.js:151-179 | a call is in two call sequences run in turn iff it is in one of them |
| Interception.WrapRunInstallsFunction | src/enforcer.js:407-432 | in a completed run of wraps, a function wrap names a key not recorded before and an own function; afterwards the record holds that function and the member is a wrapper around it |
| Interception.WrapFunctionKeepsTracked | src/enforcer.js:427-431 | if every record names a member that wraps the recorded original, wrapping a function keeps that so |
| Interception.WrapSetterKeepsTracked | src/enforcer.js:470-490 | so does wrapping a setter, in place or from an ancestor |
| Interception.RestoreFunctionKeepsTracked | src/enforcer.js:527-535 | so does restoring a function |
| Interception.RestoreSetterKeepsTracked | src/enforcer.js:502-519 | so does restoring a setter |
| Interception.RunKeepsTracked | src/enforcer.js:151-204 | so does any run of wraps and restores, complete or stopped by a throw |
| Interception.RecordedMemberIsWrapped | src/enforcer.js:527-534 | in that state, when no other member shares the key of `o.name`, a record for it means `o.name` wraps the recorded original, and restoring a wrapped function reinstalls the function its wrapper called |
| Interception.DistinctNamesSeparateKeys | src/enforcer.js:544-549 | when constructor names contain no `-` and differ between objects, no other member shares a member's key |
| Interception.WrapFunctionKeepsExact | src/enforcer.js:407-432 | if, besides, a member is a wrapper exactly when its key is recorded and no record holds a wrapper, wrapping a function keeps all three |
| Interception.WrapSetterKeepsExact | src/enforcer.js:444-491 | so does wrapping a setter, unless it is taken from an ancestor whose own key is recorded |
| Interception.RestoreFunctionKeepsExact | src/enforcer.js:527-535 | so does restoring a function whose key no other member shares |
| Interception.RestoreSetterKeepsExact | src/enforcer.js:502-519 | so does restoring a setter whose key no other member shares |
| Interception.SharedNameLosesRecord | src/enforcer.js:527-534 | with two constructors named `A`, wrapping `a.f` and restoring `b.f` empties the record table while `a.f` is still a wrapper |
| Enforcement.Enforce | src/enforcer.js:563-600 | a compliant value passes untouched, and so does any function value (every sink) or `null` on an `on*` Script sink; control passes only to the original on the same receiver; an argument is substituted iff the fallback policy rescues a non-compliant, non-exempt value, and then only that argument; otherwise it is a violation, logged iff logging is on, thrown iff enforcement is on, and silent (the original does not run) iff enforcement is off |
| Enforcement.Exempt | src/enforcer.js:572-574 | grouped as the operators group them: `null` at an `on*` Script sink, or any function value |
| Enforcement.ExemptCases | src/enforcer.js:572-574 | a function value is exempt at every sink; `null` is exempt iff the sink is an `on*` Script sink; strings and `undefined` never are |
| Enforcement.EnforcementFlagOnlyChoosesThrow | src/enforcer.js:597-599 | the enforcement flag only chooses between throwing and returning silently: the pass-through, the arguments and the logging are the same |
| Enforcement.LoggingFlagOnlyChoosesLog | src/enforcer.js:592-595 | the logging flag only decides whether a violation is logged; it never changes the outcome |
| Enforcement.RequiredTypeForAttribute | src/enforcer.js:298-313 | the walk up the constructor chain, level by level, stopping at a level that declares the attribute or at `HTMLElement`; the two lemmas below state its result |
| Enforcement.FirstStopDecides | src/enforcer.js:298-310 | the walk returns the entry of the first level that declares the attribute or is `HTMLElement`, even when that level's entry is absent |
| Enforcement.NoStopFindsNothing | src/enforcer.js:310-312 | a chain that ends without such a level gives no type |
| Enforcement.SetAttributeCall | src/enforcer.js:321-338 | a null constructor passes the call straight to the original with the arguments untouched; otherwise `args[0]` becomes `String(args[0])`, the lower-cased name is walked up the chain, only argument 1 is enforced when a kind is found, and the call passes otherwise |
| Enforcement.SetAttributeNSCall | src/enforcer.js:346-372 | a null constructor passes the call untouched; otherwise `args[0]` and `args[1]` are stringified, only the receiver's own constructor is looked up (no walk), and argument 2 is enforced when a kind is found |
| Enforcement.CallFunction | src/enforcer.js:393-396 | calling an installed function: a wrapper runs its body (for `wrapFunction_`'s wrapper at lines 428-429) and only ever hands control to the function it wraps, on the same receiver; anything else is just called |
| Enforcement.CallSetter | src/enforcer.js:470-473 | assigning through an enforcing setter enforces the kind on the value and only ever hands one value to the setter it wraps, on the same receiver; any other setter is just called |
| TrustedTypesEnforcer.Enforcer.constructor | src/enforcer.js:134-144 | stores the configuration, starts with an empty record table, and owns the catalog with the handlers added; `Valid` holds |
| TrustedTypesEnforcer.Enforcer.WrapFunction | src/enforcer.js:407-432 | the status and new fields are those `Interception.WrapFunction` gives for the old fields |
| TrustedTypesEnforcer.Enforcer.WrapSetter | src/enforcer.js:444-491 | the status and new fields are those `Interception.WrapSetter` gives for the old fields |
| TrustedTypesEnforcer.Enforcer.RestoreFunction | src/enforcer.js:527-535 | the status and new fields are those `Interception.RestoreFunction` gives for the old fields |
| TrustedTypesEnforcer.Enforcer.RestoreSetter | src/enforcer.js:502-519 | the status and new fields are those `Interception.RestoreSetter` gives for the old fields |
| TrustedTypesEnforcer.Enforcer.WrapWithEnforceFunction | src/enforcer.js:383-397 | wraps the function with a body that enforces the given argument against the given kind under the member's name |
| TrustedTypesEnforcer.Enforcer.WrapSetAttribute | src/enforcer.js:262-290 | wraps `setAttribute` and then `setAttributeNS` on `Element.prototype`, stopping at the first that throws |
| TrustedTypesEnforcer.Enforcer.InstallScriptWrappers | src/enforcer.js:209-216 | wraps the script element's `innerText` and `textContent` with the setters of `HTMLElement.prototype` and `Node.prototype` |
| TrustedTypesEnforcer.Enforcer.UninstallScriptWrappers | src/enforcer.js:221-226 | restores those two setters from the same ancestors |
| TrustedTypesEnforcer.Enforcer.InstallPropertySetWrappers | src/enforcer.js:233-243 | wraps the renamed property of every catalog attribute, type by type in catalog order; a missing interface or a failing wrap ends the loops |
| TrustedTypesEnforcer.Enforcer.UninstallPropertySetWrappers | src/enforcer.js:250-259 | restores those properties in the same order, ending at the first failure |
| TrustedTypesEnforcer.Enforcer.WrapSinks | src/enforcer.js:154-171 | the six sink wraps at the head of `install`, `write` on whichever document prototype owns it |
| TrustedTypesEnforcer.Enforcer.Install | src/enforcer.js:151-179 | pushes the allowed policy names, then runs every wrap of `install` in order; the first that throws ends it and leaves the earlier wraps in place; `Valid` is kept |
| TrustedTypesEnforcer.Enforcer.RestoreSinks | src/enforcer.js:185-197 | the eight restores at the head of `uninstall` |
| TrustedTypesEnforcer.Enforcer.Uninstall | src/enforcer.js:184-204 | runs every restore of `uninstall` in order, and resets the allowed policy names to `["*"]` only when all of them complete; `Valid` is kept |
| TrustedTypesEnforcer.Enforcer.GetRequiredTypeForAttribute | src/enforcer.js:298-313 | the do-while loop computes the attribute walk `Enforcement.RequiredTypeForAttribute` |
| TrustedTypesEnforcer.Enforcer.SetAttributeWrapper | src/enforcer.js:321-338 | the decision is `Enforcement.SetAttributeCall` for the enforcer's configuration and catalog |
| TrustedTypesEnforcer.Enforcer.SetAttributeNSWrapper | src/enforcer.js:346-372 | the decision is `Enforcement.SetAttributeNSCall` for the enforcer's configuration and catalog |
| TrustedTypesEnforcer.PropertySteps | src/enforcer.js:233-259 | one wrap (or restore) per catalog attribute, type by type and attribute by attribute in catalog order, under its `PropertyName` |
| TrustedTypesEnforcer.InstallSteps | src/enforcer.js:151-179 | the calls of `install` in source order: the six sink wraps, `parseFromString` when there is a parser, the two `setAttribute` wraps, the script setters, the property setters |
| TrustedTypesEnforcer.UninstallSteps | src/enforcer.js:184-204 | the calls of `uninstall` in source order: the eight sink restores, `parseFromString` when there is a parser, the property setters, the script setters |
| Lifecycle.PropertyStepsShape | src/enforcer.js:233-259 | the property loops only wrap (on install) or only restore (on uninstall) the same set of keys, and never with an ancestor's setter |
| Lifecycle.SinkWrapsShape | src/enforcer.js:154-171 | the head of `install` only wraps; it names its six keys and creates no own `write` |
| Lifecycle.SinkRestoresShape | src/enforcer.js:185-197 | the head of `uninstall` only restores; it names its eight keys |
| Lifecycle.SmallPlansShape | src/enforcer.js:172-178 | the parser, `setAttribute` and script calls wrap on install and restore the same keys on uninstall |
| Lifecycle.InstallStepsShape | src/enforcer.js:151-179 | every call of `install` is a wrap, and none creates an own `write` on `Document.prototype` |
| Lifecycle.UninstallStepsShape | src/enforcer.js:184-202 | every call of `uninstall` is a restore |
| Lifecycle.UninstallCoversInstall | src/enforcer.js:184-202 | every key `install` records is a key `uninstall` restores |
| Lifecycle.HoistedWriteCheck | src/enforcer.js:154-169 | reading the own `write` before the first wrap runs the same calls, with the same result, as reading it after the fourth wrap |
| Lifecycle.HoistedWriteCheckOnUninstall | src/enforcer.js:185-196 | reading it before the first restore runs the same calls as reading it after the sixth |
| Lifecycle.InstalledInnerHtmlEnforces | src/enforcer.js:154 | after a completed install, the record holds the original `innerHTML` setter, and assigning through the installed setter runs `enforce_` for HTML with that original |
| Lifecycle.FunctionSinksInInstall | src/enforcer.js:156-176 | `install` wraps `createContextualFragment`, `insertAdjacentHTML`, `write` on the chosen document, `open`, `parseFromString` when there is a parser, `setAttribute` and `setAttributeNS` |
| Lifecycle.InstalledEnforceFunctionEnforces | src/enforcer.js:383-397 | after a completed install, a function wrapped by `wrapWithEnforceFunction_` is recorded with its original, and calling it runs `enforce_` for its kind and argument with that original |
| Lifecycle.InstalledInsertAdjacentHtmlEnforces | src/enforcer.js:158-159 | after a completed install, `insertAdjacentHTML` enforces HTML on its second argument with the original function |
| Lifecycle.InstalledSetAttributeEnforces | src/enforcer.js:262-290 | after a completed install, the record holds the original `setAttribute`, and calling the installed one runs `setAttributeWrapper_` with it |
| Lifecycle.InstalledSetAttributeNSEnforces | src/enforcer.js:262-290 | after a completed install, the record holds the original `setAttributeNS`, and calling the installed one runs `setAttributeNSWrapper_` with it |
| Lifecycle.InstallTwiceIsRejected | src/enforcer.js:461-464 | a second install after a completed one throws "double installation" at its first wrap and leaves both tables unchanged; it still repeats the `setAllowedPolicyNames` call (src/enforcer.js:152) |
| Lifecycle.UninstallTwiceIsRejected | src/enforcer.js:507-510 | a second uninstall after a completed one throws "cannot restore" at its first restore and changes nothing |
| Lifecycle.UninstallAfterInstallForgetsAll | src/enforcer.js:184-203 | from an empty record table, a completed install and then a completed uninstall leave the record table empty |
| InheritedAttributeKeys.LookupAsWritten | src/enforcer.js:301-303 | an own entry is read as itself; an undeclared attribute of a catalogued type reads the `Object.prototype` member of that name |
| InheritedAttributeKeys.RequiredTypeAsWritten | src/enforcer.js:298-313 | for an attribute name no `Object.prototype` member answers to, the walk as written ends where the own-entry walk does, with the same kind |
| InheritedAttributeKeys.EnforceAsObject | src/enforcer.js:563-600 | enforcing against `Object` passes a value iff it is a function, and then untouched |
| InheritedAttributeKeys.SetAttributeCallAsWritten | src/enforcer.js:327 | a null constructor passes the call untouched |
| InheritedAttributeKeys.UndeclaredHasNoLevelType | src/enforcer.js:301-303 | with own entries only, an attribute no type declares has no type at any level |
| InheritedAttributeKeys.UndeclaredHasNoRequirement | src/enforcer.js:298-313 | with own entries only, the walk finds no type for an attribute no type declares |
| InheritedAttributeKeys.UndeclaredAttributePasses | src/enforcer.js:327-337 | with own entries only, `setAttribute` of an undeclared attribute reaches the original with only its name stringified |
| InheritedAttributeKeys.ConstructorIsUndeclared | src/enforcer.js:31-93 | no catalog entry declares `constructor` |
| InheritedAttributeKeys.SectionConstructorReadsObject | src/enforcer.js:299-308 | for an element whose constructor is `HTMLElement`, the walk as written stops at once with the function `Object` |
| InheritedAttributeKeys.ConstructorNameIsLower | src/enforcer.js:328 | stringifying and lower-casing `'constructor'` changes nothing |
| InheritedAttributeKeys.ConstructorAttributeIsBlocked | src/enforcer.js:327-334 | `section.setAttribute('constructor', 'x')` with enforcement on and no fallback throws as written, and reaches the original unchanged with own entries only |
| InheritedAttributeKeys.SetAttributeNSCallAsWritten | src/enforcer.js:355 | a null constructor passes the call untouched |
| InheritedAttributeKeys.UndeclaredNSAttributePasses | src/enforcer.js:355-371 | with own entries only, `setAttributeNS` of an undeclared attribute reaches the original with only its namespace and name stringified |
| InheritedAttributeKeys.ConstructorNSArgumentsAreKept | src/enforcer.js:356-357 | stringifying `'ns'` and `'constructor'` in place changes no argument |
| InheritedAttributeKeys.NSObjectReadThrows | src/enforcer.js:359-365 | when the receiver's own entry reads the function `Object`, `setAttributeNS` with enforcement on and no fallback throws for a type named `Object` |
| InheritedAttributeKeys.SectionNSConstructorThrows | src/enforcer.js:359-365 | `section.setAttributeNS('ns', 'constructor', 'x')` throws that way as written |
| InheritedAttributeKeys.ConstructorNSAttributeIsBlocked | src/enforcer.js:355-371 | `section.setAttributeNS('ns', 'constructor', 'x')` with enforcement on and no fallback throws as written, and reaches the original unchanged with own entries only |

## Left out

- The redefinition primitives of `./utils/wrapper.js` are not shown, so they are modelled as updates of the host map. That map holds own data functions, own non-function data and accessor pairs.
- The policy provider `TrustedTypes` is a parameter.
  - `isHTML` and its siblings are `isType(kind, v)`, and `createHTML` and its siblings are `create(kind, policy, v)`.
  - `getPolicyNames()` is the value taken at the call.
  - `setAllowedPolicyNames` is recorded as a write to `policyNameWrites`.
  - `TYPE_CHECKER_MAP` and `TYPE_PRODUCER_MAP` are total on the four kinds, so they are that provider indexed by kind.
- The browser globals are fields of `Environment`: `Element.prototype`, `Range.prototype`, both document prototypes, `window`, `DOMParser.prototype` when there is one, the prototypes `window[type]` gives for catalog types, and the own property names of `HTMLElement.prototype`. A `window[type]` that is undefined is the error `MissingInterface`.
- `bind`, `apply` and `this` forwarding are left out. A call is modelled as its outcome: which implementation runs, on which receiver, with which arguments. The return value of the original is not modelled.
- The diagnostic message text and `console.warn` are left out; only whether a violation is logged is kept.
- `toLowerCase` is modelled on ASCII letters only. There is no Unicode case mapping.
- The stop test `ctor == HTMLElement` compares identity in the source. Here it compares the constructor name with `"HTMLElement"`.
- A receiver whose `constructor` is undefined is not modelled. The chain of a present constructor is given as its sequence of names, with an empty name where `ctor.name` is falsy.
- `uninstallPropertySetWrappers_` renames with `attribute in ATTR_PROPERTY_MAP`, and install uses `hasOwnProperty`. Both are modelled by `PropertyName`. They differ only for names of `Object.prototype`, and no catalog attribute is one.
- `isHtmlNamespace` always answers true, so the namespace branch of `setAttributeNSWrapper_` is always taken. Its namespace argument is only stringified.
- Enforcer.WrapSinks, Enforcer.RestoreSinks: they read `getOwnPropertyDescriptor(Document.prototype, 'write')` before the first wrap or restore, not after the fourth or sixth. `Lifecycle.HoistedWriteCheck` and `Lifecycle.HoistedWriteCheckOnUninstall` prove the two orders equivalent.
- Lifecycle.UninstallAfterInstallForgetsAll: it states an empty record table, not that the host is back to its state before install. A restore through an ancestor leaves an own copy of the ancestor's accessor on the script element prototype. `Interception.InheritedRestoreIsInvisible` proves that copy resolves to the member seen before.
- InheritedAttributeKeys.LookupAsWritten: it models the prototype members reachable from a lower-case attribute name on a type the catalog has. It does not model type names that are `Object.prototype` members. No built-in element constructor name is one, but a custom element class may be named `toString`, `valueOf`, `hasOwnProperty` or `constructor`. For such an element, line 302 reads the inherited `Object.prototype` member, and line 303 reads a `Function.prototype` member from it: for `setAttribute('call', v)` that is `Function.prototype.call`, which passes the `instanceof Function` test and makes `enforce_` throw when enforcement is on. `Enforcement.SetAttributeCall` and `InheritedAttributeKeys.RequiredTypeAsWritten` pass that call instead, because the catalog has no such type.
- Enforcement.Enforce: the provider is total. Its checkers and producers (src/enforcer.js:568, 580) are assumed not to throw, and so is the `toString` of an argument that `String` is applied to (328, 356-357). A throwing one would make the wrapper throw without logging, whatever the flags, so "throws iff enforcement is on" and "silent iff it is off" hold under that assumption.

## Findings

| source | as written | input that shows it | evidently intended | confidence | as-written member | corrected member |
|---|---|---|---|---|---|---|
| src/enforcer.js:301-303 | `SET_ATTRIBUTE_TYPE_MAP[ctor.name][attrName]` reads a plain object literal, so an attribute the catalog does not declare still finds `Object.prototype.constructor`, the function `Object`, which passes `type instanceof Function` at line 331 | `document.createElement('section').setAttribute('constructor', 'x')` with enforcement on and no fallback policy; `enforce_` is called with type `Object`, which has no checker, so it throws a TypeError | only declared attributes are enforced; `constructor` is an ordinary attribute and reaches the original `setAttribute` | not executed | InheritedAttributeKeys.ConstructorAttributeIsBlocked | InheritedAttributeKeys.UndeclaredAttributePasses |
| src/enforcer.js:359-361 | `SET_ATTRIBUTE_TYPE_MAP[context.constructor.name][attrName]` in `setAttributeNSWrapper_` reads the same plain object literal, so an undeclared `constructor` again finds the function `Object`, which passes `type instanceof Function` at line 363 | `document.createElement('section').setAttributeNS('ns', 'constructor', 'x')` with enforcement on and no fallback policy; `enforce_` is called with type `Object` and throws a TypeError | only declared attributes are enforced; the call reaches the original `setAttributeNS` with its arguments stringified | not executed | InheritedAttributeKeys.ConstructorNSAttributeIsBlocked | InheritedAttributeKeys.UndeclaredNSAttributePasses |
