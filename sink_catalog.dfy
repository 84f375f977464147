/** The static sink catalog of the enforcer: which attribute of which element
    type needs which kind of trusted value (src/enforcer.js:31-93), and the
    attribute-to-property renaming (src/enforcer.js:121-124).

    The catalog is kept as an ORDERED table, because install and uninstall
    walk it in the order `getOwnPropertyNames` reports, which is insertion
    order, and that order decides where a failing install stops. */
module SinkCatalog {
  import opened JsValues

  /** The four trusted kinds. The checker map and the producer map of the
      source (src/enforcer.js:99-115) are total on these four names, so in
      this model they are simply the policy provider's `isType(kind, _)` and
      `create(kind, _, _)` indexed by `Kind`. */
  datatype Kind = HTML | URL | ScriptURL | Script

  /** `TrustedTypes.TrustedX.name` */
  function KindName(k: Kind): string
  {
    match k
    case HTML => "TrustedHTML"
    case URL => "TrustedURL"
    case ScriptURL => "TrustedScriptURL"
    case Script => "TrustedScript"
  }

  datatype AttributeEntry = AttributeEntry(attribute: string, kind: Kind)
  datatype TypeEntry = TypeEntry(typeName: string, attributes: seq<AttributeEntry>)
  type Table = seq<TypeEntry>

  /** The element type at which the attribute walk stops. */
  const BaseElement: string := "HTMLElement"

  /** `SET_ATTRIBUTE_TYPE_MAP` as written in the source, before the inline
      event handlers are added to its last entry. */
  function StaticTable(): (r: Table)
    // The walk's stop type comes last, with no attributes of its own yet,
    // and no other entry has its name.
    ensures |r| > 0 && r[|r| - 1] == TypeEntry(BaseElement, [])
    ensures forall i :: 0 <= i < |r| - 1 ==> r[i].typeName != BaseElement
  {
    [ TypeEntry("HTMLAnchorElement", [AttributeEntry("href", URL)]),
      TypeEntry("HTMLAreaElement", [AttributeEntry("href", URL)]),
      TypeEntry("HTMLBaseElement", [AttributeEntry("href", URL)]),
      TypeEntry("HTMLButtonElement", [AttributeEntry("formaction", URL)]),
      TypeEntry("HTMLSourceElement", [AttributeEntry("src", URL)]),
      TypeEntry("HTMLImageElement", [AttributeEntry("src", URL)]),
      TypeEntry("HTMLTrackElement", [AttributeEntry("src", URL)]),
      TypeEntry("HTMLMediaElement", [AttributeEntry("src", URL)]),
      TypeEntry("HTMLInputElement", [AttributeEntry("src", URL), AttributeEntry("formaction", URL)]),
      TypeEntry("HTMLFrameElement", [AttributeEntry("src", URL)]),
      TypeEntry("HTMLIFrameElement", [AttributeEntry("src", URL), AttributeEntry("srcdoc", HTML)]),
      TypeEntry("HTMLLinkElement", [AttributeEntry("href", ScriptURL)]),
      TypeEntry("HTMLObjectElement", [AttributeEntry("data", ScriptURL), AttributeEntry("codebase", ScriptURL)]),
      TypeEntry("HTMLEmbedElement", [AttributeEntry("src", ScriptURL)]),
      TypeEntry("HTMLScriptElement", [AttributeEntry("src", ScriptURL), AttributeEntry("text", Script)]),
      TypeEntry(BaseElement, []) ]
  }

  /** The inline event handler names among the own property names of
      `HTMLElement.prototype`, in the order they were first seen: assigning
      an existing key of a JavaScript object again keeps its position. */
  function HandlerNames(names: seq<string>): (r: seq<string>)
    ensures forall n :: n in r <==> n in names && StartsWithOn(n)
    ensures forall i, j :: 0 <= i < j < |r| ==> r[i] != r[j]
    decreases |names|
  {
    if names == [] then []
    else
      var prev := HandlerNames(names[..|names| - 1]);
      var n := names[|names| - 1];
      assert names == names[..|names| - 1] + [n];
      if StartsWithOn(n) && n !in prev then prev + [n] else prev
  }

  function HandlerEntries(handlers: seq<string>): (r: seq<AttributeEntry>)
  {
    seq(|handlers|, i requires 0 <= i < |handlers| => AttributeEntry(handlers[i], Script))
  }

  /** `SET_ATTRIBUTE_TYPE_MAP` after the loop at src/enforcer.js:89-93 has
      added every `on*` own property name of `HTMLElement.prototype`
      (given here as `ownNames`) to the `HTMLElement` entry with kind Script. */
  function AttributeTypeTable(ownNames: seq<string>): Table
  {
    StaticTable()[|StaticTable()| - 1 := TypeEntry(BaseElement, HandlerEntries(HandlerNames(ownNames)))]
  }

  /** The loop at src/enforcer.js:89-93. */
  method BuildAttributeTypeTable(ownNames: seq<string>) returns (table: Table)
    ensures table == AttributeTypeTable(ownNames)
  {
    var handlers: seq<string> := [];
    var i := 0;
    while i < |ownNames|
      invariant 0 <= i <= |ownNames|
      invariant handlers == HandlerNames(ownNames[..i])
    {
      var name := ownNames[i];
      assert ownNames[..i + 1][..i] == ownNames[..i];
      if StartsWithOn(name) && name !in handlers {
        handlers := handlers + [name];
      }
      i := i + 1;
    }
    assert ownNames[..i] == ownNames;
    var base := StaticTable();
    table := base[|base| - 1 := TypeEntry(BaseElement, HandlerEntries(handlers))];
  }

  /** `table[typeName]`: the first entry of that name. */
  function FindType(table: Table, typeName: string): (r: Option<seq<AttributeEntry>>)
    ensures r.None? <==> forall i :: 0 <= i < |table| ==> table[i].typeName != typeName
    ensures r.Some? ==> exists i :: 0 <= i < |table| && table[i] == TypeEntry(typeName, r.value) &&
                          forall j :: 0 <= j < i ==> table[j].typeName != typeName
  {
    if table == [] then None
    else if table[0].typeName == typeName then Some(table[0].attributes)
    else
      var r := FindType(table[1..], typeName);
      assert r.Some? ==> exists i :: 0 < i < |table| && table[i] == TypeEntry(typeName, r.value) &&
                          forall j :: 0 <= j < i ==> table[j].typeName != typeName by {
        if r.Some? {
          var i :| 0 <= i < |table[1..]| && table[1..][i] == TypeEntry(typeName, r.value) &&
                   forall j :: 0 <= j < i ==> table[1..][j].typeName != typeName;
          assert forall j :: 0 <= j < i + 1 ==> table[j].typeName != typeName by {
            forall j | 0 <= j < i + 1 ensures table[j].typeName != typeName {
              if j > 0 { assert table[j] == table[1..][j - 1]; }
            }
          }
        }
      }
      r
  }

  /** `attributes[attribute]`: the kind of the first entry of that name. */
  function FindAttribute(attributes: seq<AttributeEntry>, attribute: string): (r: Option<Kind>)
    ensures r.None? <==> forall i :: 0 <= i < |attributes| ==> attributes[i].attribute != attribute
    ensures r.Some? ==> exists i :: 0 <= i < |attributes| && attributes[i] == AttributeEntry(attribute, r.value) &&
                          forall j :: 0 <= j < i ==> attributes[j].attribute != attribute
  {
    if attributes == [] then None
    else if attributes[0].attribute == attribute then Some(attributes[0].kind)
    else
      var r := FindAttribute(attributes[1..], attribute);
      assert r.Some? ==> exists i :: 0 < i < |attributes| && attributes[i] == AttributeEntry(attribute, r.value) &&
                          forall j :: 0 <= j < i ==> attributes[j].attribute != attribute by {
        if r.Some? {
          var i :| 0 <= i < |attributes[1..]| && attributes[1..][i] == AttributeEntry(attribute, r.value) &&
                   forall j :: 0 <= j < i ==> attributes[1..][j].attribute != attribute;
          assert forall j :: 0 <= j < i + 1 ==> attributes[j].attribute != attribute by {
            forall j | 0 <= j < i + 1 ensures attributes[j].attribute != attribute {
              if j > 0 { assert attributes[j] == attributes[1..][j - 1]; }
            }
          }
        }
      }
      r
  }

  /** `SET_ATTRIBUTE_TYPE_MAP[typeName] && SET_ATTRIBUTE_TYPE_MAP[typeName][attribute]`,
      reading own entries only (see the finding on inherited keys). */
  function Lookup(table: Table, typeName: string, attribute: string): Option<Kind>
  {
    match FindType(table, typeName)
    case None => None
    case Some(attributes) => FindAttribute(attributes, attribute)
  }

  /** `ATTR_PROPERTY_MAP` */
  const AttrPropertyMap: map<string, string> := map["codebase" := "codeBase", "formaction" := "formAction"]

  /** The element property behind a catalog attribute (src/enforcer.js:237-238). */
  function PropertyName(attribute: string): (r: string)
    // The property differs from the attribute at most in case,
    // and only for the two mapped attributes.
    ensures ToLowerCase(r) == ToLowerCase(attribute)
    ensures attribute !in AttrPropertyMap ==> r == attribute
  {
    if attribute in AttrPropertyMap then AttrPropertyMap[attribute] else attribute
  }

  /** The `HTMLElement` entry of the built table holds exactly the inline
      event handler names, each with kind Script. */
  lemma {:induction false} HandlerLookup(ownNames: seq<string>, name: string)
    ensures FindType(AttributeTypeTable(ownNames), BaseElement) == Some(HandlerEntries(HandlerNames(ownNames)))
    ensures Lookup(AttributeTypeTable(ownNames), BaseElement, name) ==
            if name in ownNames && StartsWithOn(name) then Some(Script) else None
  {
    var t := AttributeTypeTable(ownNames);
    var h := HandlerNames(ownNames);
    var i := |t| - 1;
    assert t[i] == TypeEntry(BaseElement, HandlerEntries(h));
    forall j | 0 <= j < i ensures t[j].typeName != BaseElement {
      assert t[j] == StaticTable()[j];
    }
    assert FindType(t, BaseElement) == Some(HandlerEntries(h));
    var r := FindAttribute(HandlerEntries(h), name);
    if name in h {
      var k :| 0 <= k < |h| && h[k] == name;
      assert HandlerEntries(h)[k].attribute == name;
      assert r.Some?;
      var m :| 0 <= m < |HandlerEntries(h)| && HandlerEntries(h)[m] == AttributeEntry(name, r.value);
      assert r.value == Script;
    } else {
      forall k | 0 <= k < |HandlerEntries(h)| ensures HandlerEntries(h)[k].attribute != name {
        assert HandlerEntries(h)[k].attribute == h[k];
      }
    }
  }

  /** Adding the handlers changes no entry but `HTMLElement`'s. */
  lemma {:induction false} StaticLookup(ownNames: seq<string>, typeName: string, attribute: string)
    requires typeName != BaseElement
    ensures Lookup(AttributeTypeTable(ownNames), typeName, attribute) == Lookup(StaticTable(), typeName, attribute)
  {
    var t := AttributeTypeTable(ownNames);
    var s := StaticTable();
    assert |t| == |s|;
    var ft := FindType(t, typeName);
    var fs := FindType(s, typeName);
    if ft.Some? {
      var i :| 0 <= i < |t| && t[i] == TypeEntry(typeName, ft.value) && forall j :: 0 <= j < i ==> t[j].typeName != typeName;
      assert i < |t| - 1;
      assert s[i] == t[i];
      assert fs.Some?;
      var i' :| 0 <= i' < |s| && s[i'] == TypeEntry(typeName, fs.value) && forall j :: 0 <= j < i' ==> s[j].typeName != typeName;
      assert i' < |s| - 1;
      assert t[i'] == s[i'];
      assert i == i';
    } else {
      forall i | 0 <= i < |s| ensures s[i].typeName != typeName {
        if i < |s| - 1 { assert s[i] == t[i]; }
      }
    }
  }
}
