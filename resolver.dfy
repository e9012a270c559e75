/** The type resolver: `inheritProperties`, `convertType`, `convertProperties` and
    `convertBodyFn`. Named types are expanded at each occurrence, property maps are inherited
    through the first parent type, type and item names are joined for display, item names are
    resolved to inline definitions, and descriptions, examples and schemas are rendered.

    The source mutates each type object in place; here a type is a value and each operation
    returns the updated value. The global types are only read (every use takes a deep clone).
    `fuel` bounds the depth of nested calls the way the engine's call stack does: cyclic or
    self-referencing types run out of it and fail with the engine's RangeError.

    Each step is a function; `convertType` itself is also a method made of the source's
    statements, proved equal to `Converted`. `ExpandType` and `ConvertItems` have no loop of
    their own; they are methods because they call the `inheritProperties` loop and, for the
    items, `ConvertType` recursively. */
module TypeResolver {
  import opened Wrappers
  import opened Objects
  import opened Text
  import opened JsonValues
  import opened Raml
  import opened Formats

  // ---- inheritProperties (lines 56-68)

  /** `t.type[0]` as a key of the types object: reading index 0 of an absent `type` throws, an
      empty array gives `undefined`, which is looked up as the key "undefined", and a string
      gives its first character. */
  function FirstTypeKey(t: Option<TypeRef>): (r: Result<string, Failure>)
    ensures r.Err? <==> t.None?
    ensures t.Some? && t.value.Names? && t.value.names != [] ==> r == Ok(t.value.names[0])
  {
    match t
    case None => Err(TypeError("Cannot read properties of undefined (reading '0')"))
    case Some(Names(ns)) => Ok(if ns == [] then "undefined" else ns[0])
    case Some(Label(s)) => Ok(if s == "" then "undefined" else [s[0]])
  }

  /** Lines 60-66: a type without properties adopts the base's whole map; otherwise
      `_.defaults` adds the names the type does not declare, after its own. */
  function AdoptProperties(props: PropertyMap, base: PropertyMap): (r: PropertyMap)
    ensures base.NoProperties? ==> r == props
    ensures base.Properties? && props.NoProperties? ==> r == base
    ensures props.Properties? ==> r.Properties? && props.members <= r.members
    ensures props.Properties? && base.Properties? ==>
              forall k :: Lookup(r.members, k) ==
                if Lookup(props.members, k).Some? then Lookup(props.members, k) else Lookup(base.members, k)
  {
    if base.NoProperties? then props
    else if props.NoProperties? then base
    else Properties(Defaults(props.members, base.members))
  }

  /** `inheritProperties(type, base, data)` on the properties of `type`. */
  function Inherit(props: PropertyMap, base: Option<TypeDef>, types: TypeMap, fuel: nat): Result<PropertyMap, Failure>
    decreases fuel
  {
    if base.None? then Ok(props)
    else if fuel == 0 then Err(StackOverflow)
    else
      var adopted := AdoptProperties(props, base.value.properties);
      var key :- FirstTypeKey(base.value.typeRef);
      Inherit(adopted, Get(types, key), types, fuel - 1)
  }

  /** `inheritProperties(type, base, data)`: the recursion on the parent of `base` is a loop
      over the chain of first parents, rewriting the properties of `t`. */
  method InheritProperties(t: TypeDef, base: Option<TypeDef>, types: TypeMap, fuel: nat) returns (r: Result<TypeDef, Failure>)
    ensures var p := Inherit(t.properties, base, types, fuel);
            r == if p.Ok? then Ok(t.(properties := p.value)) else Err(p.error)
  {
    var props := t.properties;
    var b := base;
    var f := fuel;
    while b.Some?
      invariant Inherit(props, b, types, f) == Inherit(t.properties, base, types, fuel)
      decreases f
    {
      if f == 0 {
        return Err(StackOverflow);
      }
      props := AdoptProperties(props, b.value.properties);
      var key := FirstTypeKey(b.value.typeRef);
      if key.Err? {
        return Err(key.error);
      }
      b := Get(types, key.value);
      f := f - 1;
    }
    return Ok(t.(properties := props));
  }

  /** The base and its chain of first parents, nearest first. */
  function Ancestors(base: Option<TypeDef>, types: TypeMap, fuel: nat): Result<seq<TypeDef>, Failure>
    decreases fuel
  {
    if base.None? then Ok([])
    else if fuel == 0 then Err(StackOverflow)
    else
      var key :- FirstTypeKey(base.value.typeRef);
      var rest :- Ancestors(Get(types, key), types, fuel - 1);
      Ok([base.value] + rest)
  }

  /** The definition of property `k` that is nearest along a chain: the type's own, else the
      first ancestor's that declares it. */
  function NearestDeclaration(props: PropertyMap, chain: seq<TypeDef>, k: string): Option<TypeDef>
    decreases |chain|
  {
    if props.Properties? && Lookup(props.members, k).Some? then Lookup(props.members, k)
    else if chain == [] then None
    else NearestDeclaration(chain[0].properties, chain[1..], k)
  }

  /** Inheritance, stated over the chain of first parents: it fails exactly when walking the
      chain fails; the type ends with properties exactly when it or some ancestor has them;
      each property name resolves to its nearest declaration, so a name the type declares
      keeps its own definition; and the type's own members keep their places. */
  lemma {:induction false} InheritFromChain(props: PropertyMap, base: Option<TypeDef>, types: TypeMap, fuel: nat)
    ensures Inherit(props, base, types, fuel).Err? <==> Ancestors(base, types, fuel).Err?
    ensures Inherit(props, base, types, fuel).Err? ==>
              Inherit(props, base, types, fuel).error == Ancestors(base, types, fuel).error
    ensures Inherit(props, base, types, fuel).Ok? ==>
              var p := Inherit(props, base, types, fuel).value;
              var chain := Ancestors(base, types, fuel).value;
              (p.Properties? <==>
                 props.Properties? || exists i :: 0 <= i < |chain| && chain[i].properties.Properties?) &&
              (p.Properties? ==> forall k :: Lookup(p.members, k) == NearestDeclaration(props, chain, k)) &&
              (props.Properties? ==> props.members <= p.members)
    decreases fuel
  {
    if base.Some? && fuel > 0 {
      var b := base.value;
      var adopted := AdoptProperties(props, b.properties);
      var key := FirstTypeKey(b.typeRef);
      if key.Ok? {
        var next := Get(types, key.value);
        InheritFromChain(adopted, next, types, fuel - 1);
        if Inherit(props, base, types, fuel).Ok? {
          var p := Inherit(props, base, types, fuel).value;
          var rest := Ancestors(next, types, fuel - 1).value;
          var chain := [b] + rest;
          assert Ancestors(base, types, fuel).value == chain;
          assert chain[1..] == rest;
          assert chain[0] == b;
          forall k ensures NearestDeclaration(adopted, rest, k) == NearestDeclaration(props, chain, k) {
          }
          if props.Properties? {
            assert adopted.Properties? && props.members <= adopted.members;
          }
          assert (exists i :: 0 <= i < |chain| && chain[i].properties.Properties?) <==>
                 b.properties.Properties? || exists i :: 0 <= i < |rest| && rest[i].properties.Properties? by {
            if exists i :: 0 <= i < |chain| && chain[i].properties.Properties? {
              var i :| 0 <= i < |chain| && chain[i].properties.Properties?;
              if i > 0 { assert rest[i - 1].properties.Properties?; }
            }
            if exists i :: 0 <= i < |rest| && rest[i].properties.Properties? {
              var i :| 0 <= i < |rest| && rest[i].properties.Properties?;
              assert chain[i + 1].properties.Properties?;
            }
          }
        }
      }
    }
  }

  /** More stack never changes a result that was reached. */
  lemma {:induction false} InheritFuel(props: PropertyMap, base: Option<TypeDef>, types: TypeMap, fuel: nat, more: nat)
    requires Inherit(props, base, types, fuel).Ok?
    requires fuel <= more
    ensures Inherit(props, base, types, more) == Inherit(props, base, types, fuel)
    decreases fuel
  {
    if base.Some? {
      var key := FirstTypeKey(base.value.typeRef);
      InheritFuel(AdoptProperties(props, base.value.properties), Get(types, key.value), types, fuel - 1, more - 1);
    }
  }

  /** A set of type names each of which is defined and names a member of the set first. */
  predicate ClosedUnderFirstParent(types: TypeMap, names: set<string>) {
    forall n | n in names ::
      n in types && FirstTypeKey(types[n].typeRef).Ok? && FirstTypeKey(types[n].typeRef).value in names
  }

  /** Line 67 never returns on a cycle of first parents: whatever the stack, it overflows. */
  lemma {:induction false} CyclicInheritanceOverflows(props: PropertyMap, n: string, types: TypeMap, names: set<string>, fuel: nat)
    requires ClosedUnderFirstParent(types, names)
    requires n in names
    ensures Inherit(props, Get(types, n), types, fuel) == Err(StackOverflow)
    decreases fuel
  {
    if fuel > 0 {
      var t := types[n];
      CyclicInheritanceOverflows(AdoptProperties(props, t.properties), FirstTypeKey(t.typeRef).value, types, names, fuel - 1);
    }
  }

  // ---- the single steps of convertType (lines 72-130)

  /** The `type` field as a JSON value, which is what line 75 stores as the schema. */
  function TypeRefJson(t: Option<TypeRef>): Option<Json> {
    match t
    case None => None
    case Some(Names(ns)) => Some(JArr(seq(|ns|, i requires 0 <= i < |ns| => JStr(ns[i]))))
    case Some(Label(s)) => Some(JStr(s))
  }

  /** An inline JSON or XML definition. */
  predicate InlineSchemaKind(t: TypeDef) {
    t.kind == Some("JSON") || t.kind == Some("XML")
  }

  /** Lines 74-77: an inline JSON or XML type without a schema becomes a RAML 0.8 style schema.
      Only `schema` and `type` can change; a type that is not inline, or has a schema, is left
      alone; afterwards no inline type keeps its definition in `type` without a schema; and a
      definition that moves is carried over to `schema`, not lost. */
  function MoveInlineSchema(t: TypeDef): (r: TypeDef)
    ensures r.(schema := t.schema, typeRef := t.typeRef) == t
    ensures Present(t.schema) || !InlineSchemaKind(t) ==> r == t
    ensures InlineSchemaKind(r) ==> Present(r.schema) || r.typeRef.None?
    ensures r != t ==> r.typeRef.None? && r.schema == TypeRefJson(t.typeRef)
  {
    if InlineSchemaKind(t) && !Present(t.schema) then
      t.(schema := TypeRefJson(t.typeRef), typeRef := None)
    else t
  }

  function FillOpt<T>(own: Option<T>, base: Option<T>): (r: Option<T>)
    ensures own.Some? ==> r == own
    ensures own.None? ==> r == base
  {
    if own.Some? then own else base
  }

  /** `_.defaults(type, base)`: every field the occurrence has is kept, and only the missing
      ones are copied from the base; unnamed keys follow the same rule. */
  function FillMissing(t: TypeDef, base: Option<TypeDef>): (r: TypeDef)
    ensures base.None? ==> r == t
    ensures base.Some? ==>
              var b := base.value;
              r.kind == FillOpt(t.kind, b.kind) && r.typeRef == FillOpt(t.typeRef, b.typeRef) &&
              r.properties == (if t.properties.Properties? then t.properties else b.properties) &&
              r.items == FillOpt(t.items, b.items) && r.description == FillOpt(t.description, b.description) &&
              r.examples == FillOpt(t.examples, b.examples) && r.example == FillOpt(t.example, b.example) &&
              r.schema == FillOpt(t.schema, b.schema) && t.other <= r.other &&
              forall k :: Lookup(r.other, k) == if Lookup(t.other, k).Some? then Lookup(t.other, k) else Lookup(b.other, k)
  {
    if base.None? then t
    else
      var b := base.value;
      TypeDef(FillOpt(t.kind, b.kind), FillOpt(t.typeRef, b.typeRef),
              if t.properties.Properties? then t.properties else b.properties,
              FillOpt(t.items, b.items), FillOpt(t.description, b.description),
              FillOpt(t.examples, b.examples), FillOpt(t.example, b.example),
              FillOpt(t.schema, b.schema), Defaults(t.other, b.other))
  }

  /** Lines 78-84: a type expression is expanded with a clone of the global type its first
      name refers to; an unknown name expands to nothing. */
  function ExpandStep(t: TypeDef, types: TypeMap, fuel: nat): (r: Result<TypeDef, Failure>)
    ensures t.kind != Some("TYPE_EXPRESSION") ==> r == Ok(t)
    ensures t.kind == Some("TYPE_EXPRESSION") && t.typeRef.None? ==> r.Err?
    ensures r.Ok? ==> t.other <= r.value.other
  {
    if t.kind != Some("TYPE_EXPRESSION") then Ok(t)
    else
      var key :- FirstTypeKey(t.typeRef);
      var base := Get(types, key);
      var props :- Inherit(t.properties, base, types, fuel);
      Ok(FillMissing(t.(properties := props), base))
  }

  /** A type expression keeps every field it has (its own properties first, in their places)
      and takes each field it lacks from the global type its first name refers to; with no
      such global type only the properties step applies, and the occurrence is unchanged. */
  lemma ExpansionKeepsOwnFields(t: TypeDef, types: TypeMap, fuel: nat)
    requires t.kind == Some("TYPE_EXPRESSION")
    requires ExpandStep(t, types, fuel).Ok?
    ensures var r := ExpandStep(t, types, fuel).value;
            var base := Get(types, FirstTypeKey(t.typeRef).value);
            r.kind == t.kind && r.typeRef == t.typeRef &&
            (t.items.Some? ==> r.items == t.items) &&
            (t.description.Some? ==> r.description == t.description) &&
            (t.examples.Some? ==> r.examples == t.examples) &&
            (t.example.Some? ==> r.example == t.example) &&
            (t.schema.Some? ==> r.schema == t.schema) &&
            (t.properties.Properties? ==> r.properties.Properties? && t.properties.members <= r.properties.members) &&
            (forall k :: Lookup(t.other, k).Some? ==> Lookup(r.other, k) == Lookup(t.other, k)) &&
            (base.None? ==> r == t) &&
            (base.Some? ==>
               (t.items.None? ==> r.items == base.value.items) &&
               (t.description.None? ==> r.description == base.value.description) &&
               (t.examples.None? ==> r.examples == base.value.examples) &&
               (t.example.None? ==> r.example == base.value.example) &&
               (t.schema.None? ==> r.schema == base.value.schema) &&
               (forall k :: Lookup(t.other, k).None? ==> Lookup(r.other, k) == Lookup(base.value.other, k)))
  {
    var key := FirstTypeKey(t.typeRef).value;
    var base := Get(types, key);
    InheritFromChain(t.properties, base, types, fuel);
    var r := ExpandStep(t, types, fuel).value;
    PrefixLookup(t.other, r.other);
  }

  /** Lines 89-91: a list of type names is shown as one string. No list is left; a single
      name is shown as itself, and every name of a longer list shows in the string; a string
      or an absent `type` is unchanged. */
  function JoinTypeRef(t: Option<TypeRef>): (r: Option<TypeRef>)
    ensures r.None? <==> t.None?
    ensures r.Some? ==> r.value.Label?
    ensures t.Some? && t.value.Label? ==> r == t
    ensures t.Some? && t.value.Names? ==>
              forall i :: 0 <= i < |t.value.names| ==> Contains(r.value.text, t.value.names[i])
    ensures t.Some? && t.value.Names? && |t.value.names| == 1 ==> r == Some(Label(t.value.names[0]))
  {
    if t.Some? && t.value.Names? then
      JoinShowsParts(t.value.names, ", ");
      Some(Label(Join(t.value.names, ", ")))
    else t
  }

  /** `type.items` is truthy: anything but an absent or empty item name. */
  predicate ItemsTruthy(items: Option<Items>) {
    items.Some? && !(items.value.ItemName? && items.value.name == "")
  }

  /** Line 113: `format && beautify(format, value) || value`. */
  function ExampleValue(env: Env, format: string, v: Option<Json>): (r: Option<Json>)
    ensures format == "" ==> r == v
    ensures r.None? <==> v.None?
    ensures r == v || (r.Some? && Truthy(r.value) && r.value == Beautify(env, format, v.value))
  {
    if format == "" || v.None? then v
    else
      var b := Beautify(env, format, v.value);
      if Truthy(b) then Some(b) else v
  }

  /** Lines 111-114, for one example: its unnamed keys are kept; a truthy description is
      rendered and a falsy one kept; an absent value stays absent, a value is untouched without
      a format, and one that changes is the truthy pretty-printed value. */
  function ConvertExample(env: Env, format: string, e: Example): (r: Example)
    ensures r.other == e.other
    ensures HasText(e.description) ==> r.description == Some(env.makeHtml(e.description.value))
    ensures !HasText(e.description) ==> r.description == e.description
    ensures r.value.None? <==> e.value.None?
    ensures format == "" ==> r.value == e.value
    ensures r.value != e.value ==> Truthy(r.value.value) && r.value.value == Beautify(env, format, e.value.value)
  {
    e.(description := Render(env, e.description), value := ExampleValue(env, format, e.value))
  }

  function ConvertExamples(env: Env, format: string, es: seq<Example>): (r: seq<Example>)
    ensures |r| == |es|
    ensures forall i :: 0 <= i < |es| ==> r[i] == ConvertExample(env, format, es[i])
  {
    seq(|es|, i requires 0 <= i < |es| => ConvertExample(env, format, es[i]))
  }

  /** Lines 107-118: the description is rendered, the examples' descriptions too, and the
      example values are pretty printed when a format is known. */
  function ContentStep(env: Env, format: string, t: TypeDef): (r: TypeDef)
    ensures r.(description := t.description, examples := t.examples, example := t.example) == t
    ensures r.description == Render(env, t.description)
    ensures t.examples.None? <==> r.examples.None?
    ensures t.examples.Some? ==>
              |r.examples.value| == |t.examples.value| &&
              forall i :: 0 <= i < |t.examples.value| ==>
                r.examples.value[i].other == t.examples.value[i].other &&
                r.examples.value[i].description == Render(env, t.examples.value[i].description) &&
                r.examples.value[i].value == ExampleValue(env, format, t.examples.value[i].value)
    ensures Present(t.example) && format != "" ==> r.example == Some(Beautify(env, format, t.example.value))
    ensures !(Present(t.example) && format != "") ==> r.example == t.example
  {
    t.(description := Render(env, t.description),
       examples := if t.examples.Some? then Some(ConvertExamples(env, format, t.examples.value)) else None,
       example := if Present(t.example) && format != "" then Some(Beautify(env, format, t.example.value)) else t.example)
  }

  /** `schema.description` of a parsed schema; reading it from `null` throws. */
  function SchemaDescription(parsed: Json): (r: Result<Option<Json>, Failure>)
    ensures r.Err? <==> parsed.JNull?
    ensures parsed.JObj? ==> r == Ok(Lookup(parsed.members, "description"))
    ensures !parsed.JObj? && !parsed.JNull? ==> r == Ok(None)
  {
    match parsed
    case JNull => Err(TypeError("Cannot read properties of null (reading 'description')"))
    case JObj(ms) => Ok(Lookup(ms, "description"))
    case _ => Ok(None)
  }

  /** `converter.makeHtml(d)` on a truthy schema description: the renderer works on strings
      only and fails on `text.replace` for anything else. */
  function RenderValue(env: Env, d: Json): (r: Result<string, Failure>)
    ensures d.JStr? ==> r == Ok(env.makeHtml(d.s))
    ensures !d.JStr? ==> r.Err?
  {
    if d.JStr? then Ok(env.makeHtml(d.s)) else Err(TypeError("text.replace is not a function"))
  }

  /** Lines 119-129. Only with a format; only `application/json` exactly is parsed and
      re-serialised, hoisting a truthy schema description onto an occurrence that has none
      (and deleting it from the schema); every format then pretty prints the schema. */
  function ConvertSchema(env: Env, format: string, t: TypeDef): (r: Result<TypeDef, Failure>)
    ensures r.Ok? ==> r.value.(description := t.description, schema := t.schema) == t
    ensures !Present(t.schema) || format == "" ==> r == Ok(t)
    ensures Present(t.schema) && format != "" && format != "application/json" ==>
              r == Ok(t.(schema := Some(Beautify(env, format, t.schema.value))))
    ensures HasText(t.description) && r.Ok? ==> r.value.description == t.description
    ensures format == "application/json" && Present(t.schema) ==>
              var p := ParseJsonSchema(env, t.schema.value);
              (p.Err? ==> r == Err(p.error)) &&
              (p.Ok? && p.value.JNull? ==> r.Err?) &&
              (p.Ok? && !p.value.JObj? && !p.value.JNull? ==>
                 r == Ok(t.(schema := Some(Beautify(env, format, JStr(env.stringify(p.value))))))) &&
              (p.Ok? && HasText(t.description) && !p.value.JNull? ==>
                 r == Ok(t.(schema := Some(Beautify(env, format, JStr(env.stringify(p.value))))))) &&
              (p.Ok? && p.value.JObj? && !HasText(t.description) ==>
                 var d := Lookup(p.value.members, "description");
                 (Present(d) && !d.value.JStr? ==> r.Err?) &&
                 (d.Some? && d.value.JStr? && d.value.s != "" ==>
                    r == Ok(t.(description := Some(env.makeHtml(d.value.s)),
                               schema := Some(Beautify(env, format, JStr(env.stringify(JObj(Remove(p.value.members, "description"))))))))) &&
                 (!Present(d) ==> r == Ok(t.(schema := Some(Beautify(env, format, JStr(env.stringify(p.value))))))))
  {
    if !Present(t.schema) || format == "" then Ok(t)
    else if format != "application/json" then Ok(t.(schema := Some(Beautify(env, format, t.schema.value))))
    else
      var parsed :- ParseJsonSchema(env, t.schema.value);
      var d :- SchemaDescription(parsed);
      if Present(d) && !HasText(t.description) then
        var html :- RenderValue(env, d.value);
        var kept := JObj(Remove(parsed.members, "description"));
        Ok(t.(description := Some(html), schema := Some(Beautify(env, format, JStr(env.stringify(kept))))))
      else
        Ok(t.(schema := Some(Beautify(env, format, JStr(env.stringify(parsed))))))
  }

  // ---- convertType, convertProperties and convertBodyFn

  /** After conversion no `type` is a list of names any more, and every `items` is an inline
      type, converted in turn (or the empty item name, which is falsy and left alone). */
  predicate Resolved(t: TypeDef) {
    !(t.typeRef.Some? && t.typeRef.value.Names?) &&
    (t.items.Some? ==> t.items.value == ItemName("") || (t.items.value.ItemDef? && Resolved(t.items.value.def))) &&
    (t.properties.Properties? ==>
       forall i :: 0 <= i < |t.properties.members| ==> Resolved(t.properties.members[i].1))
  }

  /** Lines 86-88: the properties are converted without a format. */
  function PropertiesStep(t: TypeDef, types: TypeMap, env: Env, fuel: nat): (r: Result<TypeDef, Failure>)
    ensures r.Ok? ==> r.value.(properties := t.properties) == t
    ensures r.Ok? ==> (r.value.properties.Properties? <==> t.properties.Properties?)
    ensures r.Ok? && r.value.properties.Properties? ==>
              forall i :: 0 <= i < |r.value.properties.members| ==> Resolved(r.value.properties.members[i].1)
    decreases fuel, 2
  {
    if t.properties.NoProperties? then Ok(t)
    else
      var ps :- ConvertedProperties(t.properties.members, false, types, env, fuel);
      Ok(t.(properties := Properties(ps)))
  }

  /** Lines 94-97: a list of item names is shown as one name. */
  function JoinedItems(items: Items): (r: Items)
    ensures !r.ItemNames?
    ensures !items.ItemNames? ==> r == items
  {
    if items.ItemNames? then ItemName(Join(items.names, ", ")) else items
  }

  /** Lines 92-106: item names are joined, resolved to a clone of the global type with its
      inherited properties, and the inline type is converted with the same format. Falsy
      items are left alone; a name that no global type has makes the items absent; a known
      name becomes that global definition, its properties inherited, converted; an inline
      definition is converted in place; a failure of either step is the step's failure. */
  function ItemsStep(t: TypeDef, format: string, types: TypeMap, env: Env, fuel: nat): (r: Result<TypeDef, Failure>)
    ensures r.Ok? ==> r.value.(items := t.items) == t
    ensures r.Ok? && r.value.items.Some? ==>
              r.value.items.value == ItemName("") || (r.value.items.value.ItemDef? && Resolved(r.value.items.value.def))
    ensures !ItemsTruthy(t.items) ==> r == Ok(t)
    ensures ItemsTruthy(t.items) && JoinedItems(t.items.value).ItemName? &&
            JoinedItems(t.items.value).name !in types ==>
              r == Ok(t.(items := None))
    ensures ItemsTruthy(t.items) && JoinedItems(t.items.value).ItemName? &&
            JoinedItems(t.items.value).name in types ==>
              var d := types[JoinedItems(t.items.value).name];
              var p := Inherit(d.properties, Some(d), types, fuel);
              (p.Err? ==> r == Err(p.error)) &&
              (p.Ok? ==>
                 var c := Converted(d.(properties := p.value), format, types, env, fuel);
                 (c.Err? ==> r == Err(c.error)) &&
                 (c.Ok? ==> r == Ok(t.(items := Some(ItemDef(c.value)))) && d.other <= c.value.other))
    ensures ItemsTruthy(t.items) && t.items.value.ItemDef? ==>
              var c := Converted(t.items.value.def, format, types, env, fuel);
              (c.Err? ==> r == Err(c.error)) &&
              (c.Ok? ==> r == Ok(t.(items := Some(ItemDef(c.value)))))
    decreases fuel, 1
  {
    if !ItemsTruthy(t.items) then Ok(t)
    else
      var named := JoinedItems(t.items.value);
      if named.ItemName? then
        var def := Get(types, named.name);
        if def.None? then Ok(t.(items := None))
        else
          var props :- Inherit(def.value.properties, def, types, fuel);
          var c :- Converted(def.value.(properties := props), format, types, env, fuel);
          Ok(t.(items := Some(ItemDef(c))))
      else
        var c :- Converted(named.def, format, types, env, fuel);
        Ok(t.(items := Some(ItemDef(c))))
  }

  /** `convertType(type, format, data, converter)`, the steps in source order. */
  function Converted(t: TypeDef, format: string, types: TypeMap, env: Env, fuel: nat): (r: Result<TypeDef, Failure>)
    ensures r.Ok? ==> Resolved(r.value)
    ensures r.Ok? ==> t.other <= r.value.other
    decreases fuel, 0
  {
    if fuel == 0 then Err(StackOverflow)
    else
      var t1 :- ExpandStep(MoveInlineSchema(t), types, fuel - 1);
      Expanded(t1, format, types, env, fuel - 1)
  }

  /** Lines 86-129, after the expansion. */
  function Expanded(t: TypeDef, format: string, types: TypeMap, env: Env, fuel: nat): (r: Result<TypeDef, Failure>)
    ensures r.Ok? ==> Resolved(r.value) && t.other <= r.value.other
    decreases fuel, 3
  {
    var t2 :- PropertiesStep(t, types, env, fuel);
    Finished(t2, format, types, env, fuel)
  }

  /** Lines 89-129, after the properties: names joined, items resolved, content rendered. */
  function Finished(t: TypeDef, format: string, types: TypeMap, env: Env, fuel: nat): (r: Result<TypeDef, Failure>)
    ensures r.Ok? ==> t.other <= r.value.other
    ensures r.Ok? && t.properties.Properties? &&
            (forall i :: 0 <= i < |t.properties.members| ==> Resolved(t.properties.members[i].1)) ==>
              Resolved(r.value)
    decreases fuel, 2
  {
    var t3 :- ItemsStep(t.(typeRef := JoinTypeRef(t.typeRef)), format, types, env, fuel);
    ConvertSchema(env, format, ContentStep(env, format, t3))
  }

  /** `convertProperties(properties, isUri, data, converter)`: every property, in order, is
      flagged `uri = true` when it is a URI parameter and converted without a format. The
      names and their order are kept. */
  function ConvertedProperties(ps: Members<TypeDef>, isUri: bool, types: TypeMap, env: Env, fuel: nat): (r: Result<Members<TypeDef>, Failure>)
    ensures r.Ok? ==> |r.value| == |ps|
    ensures r.Ok? ==> forall i :: 0 <= i < |ps| ==>
              r.value[i].0 == ps[i].0 && Resolved(r.value[i].1) &&
              (isUri ==> Lookup(r.value[i].1.other, "uri") == Some(JBool(true))) &&
              (!isUri ==> ps[i].1.other <= r.value[i].1.other)
    ensures r.Ok? ==> forall i :: 0 <= i < |ps| ==> Converted(Flagged(ps[i].1, isUri), "", types, env, fuel) == Ok(r.value[i].1)
    decreases fuel, 1, |ps|
  {
    if ps == [] then Ok([])
    else
      var flagged := Flagged(ps[0].1, isUri);
      var c :- Converted(flagged, "", types, env, fuel);
      var rest :- ConvertedProperties(ps[1..], isUri, types, env, fuel);
      PrefixLookup(flagged.other, c.other);
      assert forall i :: 1 <= i < |ps| ==> ps[i] == ps[1..][i - 1];
      Ok([(ps[0].0, c)] + rest)
  }

  /** The walk over the properties stops at the first one whose conversion fails, and reports
      that failure: every property before it converts. */
  lemma {:induction false} PropertiesFirstFailure(ps: Members<TypeDef>, isUri: bool, types: TypeMap, env: Env, fuel: nat) returns (i: nat)
    requires ConvertedProperties(ps, isUri, types, env, fuel).Err?
    ensures i < |ps|
    ensures Converted(Flagged(ps[i].1, isUri), "", types, env, fuel) == Err(ConvertedProperties(ps, isUri, types, env, fuel).error)
    ensures forall k :: 0 <= k < i ==> Converted(Flagged(ps[k].1, isUri), "", types, env, fuel).Ok?
    decreases |ps|
  {
    var c := Converted(Flagged(ps[0].1, isUri), "", types, env, fuel);
    if c.Err? {
      i := 0;
    } else {
      var j := PropertiesFirstFailure(ps[1..], isUri, types, env, fuel);
      i := j + 1;
      forall k | 1 <= k < i
        ensures Converted(Flagged(ps[k].1, isUri), "", types, env, fuel).Ok?
      {
        assert ps[k] == ps[1..][k - 1];
      }
    }
  }

  /** `_.forOwn(body, convertBodyFn(data, converter))`: each body is converted with its media
      type as the format. */
  function ConvertedBodies(body: Members<TypeDef>, types: TypeMap, env: Env, fuel: nat): (r: Result<Members<TypeDef>, Failure>)
    ensures r.Ok? ==> |r.value| == |body|
    ensures r.Ok? ==> forall i :: 0 <= i < |body| ==>
              r.value[i].0 == body[i].0 && Resolved(r.value[i].1) && body[i].1.other <= r.value[i].1.other
    ensures r.Ok? ==> forall i :: 0 <= i < |body| ==> Converted(body[i].1, body[i].0, types, env, fuel) == Ok(r.value[i].1)
  {
    if body == [] then Ok([])
    else
      var c :- Converted(body[0].1, body[0].0, types, env, fuel);
      var rest :- ConvertedBodies(body[1..], types, env, fuel);
      assert forall i :: 1 <= i < |body| ==> body[i] == body[1..][i - 1];
      Ok([(body[0].0, c)] + rest)
  }

  /** The walk over the bodies stops at the first body whose conversion with its media type
      fails, and reports that failure: every body before it converts. */
  lemma {:induction false} BodiesFirstFailure(body: Members<TypeDef>, types: TypeMap, env: Env, fuel: nat) returns (i: nat)
    requires ConvertedBodies(body, types, env, fuel).Err?
    ensures i < |body|
    ensures Converted(body[i].1, body[i].0, types, env, fuel) == Err(ConvertedBodies(body, types, env, fuel).error)
    ensures forall k :: 0 <= k < i ==> Converted(body[k].1, body[k].0, types, env, fuel).Ok?
    decreases |body|
  {
    var c := Converted(body[0].1, body[0].0, types, env, fuel);
    if c.Err? {
      i := 0;
    } else {
      var j := BodiesFirstFailure(body[1..], types, env, fuel);
      i := j + 1;
      forall k | 1 <= k < i
        ensures Converted(body[k].1, body[k].0, types, env, fuel).Ok?
      {
        assert body[k] == body[1..][k - 1];
      }
    }
  }

  /** The outcome of a loop that has already produced `done`, given the outcome of the rest. */
  function Prepend<T>(done: seq<T>, rest: Result<seq<T>, Failure>): (r: Result<seq<T>, Failure>)
    ensures done == [] ==> r == rest
  {
    if rest.Ok? then assert [] + rest.value == rest.value; Ok(done + rest.value) else Err(rest.error)
  }

  /** Lines 78-84, with `inheritProperties` as its loop. */
  method ExpandType(t: TypeDef, types: TypeMap, fuel: nat) returns (r: Result<TypeDef, Failure>)
    ensures r == ExpandStep(t, types, fuel)
  {
    if t.kind != Some("TYPE_EXPRESSION") {
      return Ok(t);
    }
    var key := FirstTypeKey(t.typeRef);
    if key.Err? {
      return Err(key.error);
    }
    var base := Get(types, key.value);
    var inherited := InheritProperties(t, base, types, fuel);
    if inherited.Err? {
      return Err(inherited.error);
    }
    return Ok(FillMissing(inherited.value, base));
  }

  /** Lines 92-106. */
  method ConvertItems(t: TypeDef, format: string, types: TypeMap, env: Env, fuel: nat) returns (r: Result<TypeDef, Failure>)
    ensures r == ItemsStep(t, format, types, env, fuel)
    decreases fuel, 1
  {
    if !ItemsTruthy(t.items) {
      return Ok(t);
    }
    var items := JoinedItems(t.items.value);
    if items.ItemName? {
      var def := Get(types, items.name);
      if def.None? {
        return Ok(t.(items := None));
      }
      var inherited := InheritProperties(def.value, def, types, fuel);
      if inherited.Err? {
        return Err(inherited.error);
      }
      items := ItemDef(inherited.value);
    }
    var c := ConvertType(items.def, format, types, env, fuel);
    if c.Err? {
      return Err(c.error);
    }
    return Ok(t.(items := Some(ItemDef(c.value))));
  }

  /** Lines 107-118, the examples rewritten one by one. */
  method ConvertContent(env: Env, format: string, t: TypeDef) returns (r: TypeDef)
    ensures r == ContentStep(env, format, t)
  {
    r := t.(description := Render(env, t.description));
    if t.examples.Some? {
      var es := t.examples.value;
      var i := 0;
      while i < |es|
        invariant 0 <= i <= |es| == |t.examples.value|
        invariant forall j :: 0 <= j < i ==> es[j] == ConvertExample(env, format, t.examples.value[j])
        invariant forall j :: i <= j < |es| ==> es[j] == t.examples.value[j]
      {
        es := es[i := ConvertExample(env, format, es[i])];
        i := i + 1;
      }
      assert es == ConvertExamples(env, format, t.examples.value);
      r := r.(examples := Some(es));
    }
    if Present(t.example) && format != "" {
      r := r.(example := Some(Beautify(env, format, t.example.value)));
    }
  }

  /** Lines 86-88. */
  method ConvertPropertiesOf(t: TypeDef, types: TypeMap, env: Env, fuel: nat) returns (r: Result<TypeDef, Failure>)
    ensures r == PropertiesStep(t, types, env, fuel)
    decreases fuel, 2
  {
    if t.properties.NoProperties? {
      return Ok(t);
    }
    var ps := ConvertProperties(t.properties.members, false, types, env, fuel);
    if ps.Err? {
      return Err(ps.error);
    }
    return Ok(t.(properties := Properties(ps.value)));
  }

  /** `convertType(type, format, data, converter)`. */
  method ConvertType(t: TypeDef, format: string, types: TypeMap, env: Env, fuel: nat) returns (r: Result<TypeDef, Failure>)
    ensures r == Converted(t, format, types, env, fuel)
    decreases fuel, 0
  {
    if fuel == 0 {
      return Err(StackOverflow);
    }
    var cur := MoveInlineSchema(t);
    var expanded := ExpandType(cur, types, fuel - 1);
    if expanded.Err? {
      return Err(expanded.error);
    }
    r := ConvertExpanded(expanded.value, format, types, env, fuel - 1);
  }

  /** Lines 86-129. */
  method ConvertExpanded(t: TypeDef, format: string, types: TypeMap, env: Env, fuel: nat) returns (r: Result<TypeDef, Failure>)
    ensures r == Expanded(t, format, types, env, fuel)
    decreases fuel, 3
  {
    var withProps := ConvertPropertiesOf(t, types, env, fuel);
    if withProps.Err? {
      return Err(withProps.error);
    }
    r := FinishType(withProps.value, format, types, env, fuel);
  }

  /** Lines 89-129. */
  method FinishType(t: TypeDef, format: string, types: TypeMap, env: Env, fuel: nat) returns (r: Result<TypeDef, Failure>)
    ensures r == Finished(t, format, types, env, fuel)
    decreases fuel, 2
  {
    var withItems := ConvertItems(t.(typeRef := JoinTypeRef(t.typeRef)), format, types, env, fuel);
    if withItems.Err? {
      return Err(withItems.error);
    }
    var cur := ConvertContent(env, format, withItems.value);
    r := ConvertSchema(env, format, cur);
  }

  /** A URI parameter is flagged before it is converted (line 136). */
  function Flagged(v: TypeDef, isUri: bool): TypeDef {
    if isUri then v.(other := Set(v.other, "uri", JBool(true))) else v
  }

  lemma PropertiesUnfold(ps: Members<TypeDef>, i: nat, isUri: bool, types: TypeMap, env: Env, fuel: nat)
    requires i < |ps|
    ensures var c := Converted(Flagged(ps[i].1, isUri), "", types, env, fuel);
            ConvertedProperties(ps[i..], isUri, types, env, fuel) ==
              if c.Err? then Err(c.error) else Prepend([(ps[i].0, c.value)], ConvertedProperties(ps[i + 1..], isUri, types, env, fuel))
  {
    assert ps[i..][0] == ps[i] && ps[i..][1..] == ps[i + 1..];
  }

  lemma PrependTwice<T>(a: seq<T>, b: seq<T>, rest: Result<seq<T>, Failure>)
    ensures Prepend(a, Prepend(b, rest)) == Prepend(a + b, rest)
  {
    if rest.Ok? {
      assert a + (b + rest.value) == (a + b) + rest.value;
    }
  }

  method ConvertProperties(ps: Members<TypeDef>, isUri: bool, types: TypeMap, env: Env, fuel: nat) returns (r: Result<Members<TypeDef>, Failure>)
    ensures r == ConvertedProperties(ps, isUri, types, env, fuel)
    decreases fuel, 1
  {
    var done: Members<TypeDef> := [];
    var i := 0;
    assert ps[0..] == ps;
    while i < |ps|
      invariant 0 <= i <= |ps|
      invariant ConvertedProperties(ps, isUri, types, env, fuel) ==
                Prepend(done, ConvertedProperties(ps[i..], isUri, types, env, fuel))
    {
      var v := Flagged(ps[i].1, isUri);
      var c := ConvertType(v, "", types, env, fuel);
      PropertiesUnfold(ps, i, isUri, types, env, fuel);
      if c.Err? {
        return Err(c.error);
      }
      PrependTwice(done, [(ps[i].0, c.value)], ConvertedProperties(ps[i + 1..], isUri, types, env, fuel));
      done := done + [(ps[i].0, c.value)];
      i := i + 1;
    }
    assert ps[i..] == [];
    assert done + [] == done;
    return Ok(done);
  }

  lemma BodiesUnfold(body: Members<TypeDef>, i: nat, types: TypeMap, env: Env, fuel: nat)
    requires i < |body|
    ensures var c := Converted(body[i].1, body[i].0, types, env, fuel);
            ConvertedBodies(body[i..], types, env, fuel) ==
              if c.Err? then Err(c.error) else Prepend([(body[i].0, c.value)], ConvertedBodies(body[i + 1..], types, env, fuel))
  {
    assert body[i..][0] == body[i] && body[i..][1..] == body[i + 1..];
  }

  /** One `convertBodyFn` callback per body, in order. */
  method ConvertBodies(body: Members<TypeDef>, types: TypeMap, env: Env, fuel: nat) returns (r: Result<Members<TypeDef>, Failure>)
    ensures r == ConvertedBodies(body, types, env, fuel)
  {
    var done: Members<TypeDef> := [];
    var i := 0;
    assert body[0..] == body;
    while i < |body|
      invariant 0 <= i <= |body|
      invariant ConvertedBodies(body, types, env, fuel) == Prepend(done, ConvertedBodies(body[i..], types, env, fuel))
    {
      var c := ConvertType(body[i].1, body[i].0, types, env, fuel);
      BodiesUnfold(body, i, types, env, fuel);
      if c.Err? {
        return Err(c.error);
      }
      PrependTwice(done, [(body[i].0, c.value)], ConvertedBodies(body[i + 1..], types, env, fuel));
      done := done + [(body[i].0, c.value)];
      i := i + 1;
    }
    assert body[i..] == [];
    assert done + [] == done;
    return Ok(done);
  }
}
