/** `omitUndesired`: the keys `structuredExample` and `structuredValue` are deleted from every
    object at any depth of the document, arrays included (the `omit-deep` library). In the typed
    tree the objects are the records' `other` members, the JSON payloads, and every keyed
    collection (properties, parameters, bodies, responses, entries of `types`). */
module Pruner {
  import opened Wrappers
  import opened Objects
  import opened JsonValues
  import opened Raml

  predicate Undesired(k: string) {
    k == "structuredExample" || k == "structuredValue"
  }

  /** Deletes the undesired keys of one object, keeping the other members in order. */
  function Omit<V>(m: Members<V>): (r: Members<V>)
    ensures forall i :: 0 <= i < |r| ==> !Undesired(r[i].0)
    ensures forall k :: Lookup(r, k) == if Undesired(k) then None else Lookup(m, k)
    ensures (forall i :: 0 <= i < |m| ==> !Undesired(m[i].0)) ==> r == m
  {
    if m == [] then []
    else if Undesired(m[0].0) then Omit(m[1..])
    else [m[0]] + Omit(m[1..])
  }

  /** The members `Omit` keeps are members of its argument. */
  lemma {:induction false} OmitKeeps<V>(m: Members<V>, r: Members<V>)
    requires r == Omit(m)
    ensures forall i :: 0 <= i < |r| ==> r[i] in m
  {
    if m != [] {
      OmitKeeps(m[1..], Omit(m[1..]));
    }
  }

  // ---- JSON payloads

  predicate CleanJson(v: Json) {
    match v
    case JArr(es) => forall i :: 0 <= i < |es| ==> CleanJson(es[i])
    case JObj(ms) => forall i :: 0 <= i < |ms| ==> !Undesired(ms[i].0) && CleanJson(ms[i].1)
    case _ => true
  }

  function PruneJson(v: Json): (r: Json)
    ensures CleanJson(r)
  {
    match v
    case JArr(es) => JArr(seq(|es|, i requires 0 <= i < |es| => PruneJson(es[i])))
    case JObj(ms) =>
      var mapped := seq(|ms|, i requires 0 <= i < |ms| => (ms[i].0, PruneJson(ms[i].1)));
      assert forall i :: 0 <= i < |mapped| ==> CleanJson(mapped[i].1);
      var kept := Omit(mapped);
      OmitKeeps(mapped, kept);
      JObj(kept)
    case _ => v
  }

  function PruneBag(ms: Members<Json>): (r: Members<Json>)
    ensures forall i :: 0 <= i < |r| ==> !Undesired(r[i].0) && CleanJson(r[i].1)
  {
    PruneJson(JObj(ms)).members
  }

  function PruneOpt(v: Option<Json>): (r: Option<Json>)
    ensures r.Some? ==> CleanJson(r.value)
  {
    if v.Some? then Some(PruneJson(v.value)) else None
  }

  predicate CleanOpt(v: Option<Json>) {
    v.Some? ==> CleanJson(v.value)
  }

  predicate CleanBag(ms: Members<Json>) {
    forall i :: 0 <= i < |ms| ==> !Undesired(ms[i].0) && CleanJson(ms[i].1)
  }

  lemma {:induction false} PruneJsonFixed(v: Json)
    requires CleanJson(v)
    ensures PruneJson(v) == v
  {
    match v
    case JArr(es) =>
      forall i | 0 <= i < |es| ensures PruneJson(es[i]) == es[i] { PruneJsonFixed(es[i]); }
      assert seq(|es|, i requires 0 <= i < |es| => PruneJson(es[i])) == es;
    case JObj(ms) =>
      forall i | 0 <= i < |ms| ensures PruneJson(ms[i].1) == ms[i].1 { PruneJsonFixed(ms[i].1); }
      assert seq(|ms|, i requires 0 <= i < |ms| => (ms[i].0, PruneJson(ms[i].1))) == ms;
    case _ =>
  }

  lemma PruneBagFixed(ms: Members<Json>)
    requires CleanBag(ms)
    ensures PruneBag(ms) == ms
  {
    PruneJsonFixed(JObj(ms));
  }

  lemma PruneOptFixed(v: Option<Json>)
    requires CleanOpt(v)
    ensures PruneOpt(v) == v
  {
    if v.Some? { PruneJsonFixed(v.value); }
  }

  // ---- types

  predicate CleanExample(e: Example) {
    CleanOpt(e.value) && CleanBag(e.other)
  }

  function PruneExample(e: Example): (r: Example)
    ensures CleanExample(r)
  {
    e.(value := PruneOpt(e.value), other := PruneBag(e.other))
  }

  predicate CleanType(t: TypeDef) {
    (t.properties.Properties? ==>
      forall i :: 0 <= i < |t.properties.members| ==>
        !Undesired(t.properties.members[i].0) && CleanType(t.properties.members[i].1)) &&
    (t.items.Some? && t.items.value.ItemDef? ==> CleanType(t.items.value.def)) &&
    (t.examples.Some? ==> forall i :: 0 <= i < |t.examples.value| ==> CleanExample(t.examples.value[i])) &&
    CleanOpt(t.example) && CleanOpt(t.schema) && CleanBag(t.other)
  }

  function PruneType(t: TypeDef): (r: TypeDef)
    ensures CleanType(r)
  {
    var props :=
      if t.properties.NoProperties? then NoProperties
      else
        var ms := t.properties.members;
        KeptProperties(seq(|ms|, i requires 0 <= i < |ms| => (ms[i].0, PruneType(ms[i].1))));
    var items := match t.items
      case Some(ItemDef(d)) => Some(ItemDef(PruneType(d)))
      case other => other;
    var examples := if t.examples.None? then None else Some(PruneExamples(t.examples.value));
    Cleaned(t, props, items, examples)
  }

  /** A property map of pruned types loses its undesired names. */
  function KeptProperties(mapped: Members<TypeDef>): (p: PropertyMap)
    requires forall i :: 0 <= i < |mapped| ==> CleanType(mapped[i].1)
    ensures p.Properties? && forall i :: 0 <= i < |p.members| ==> !Undesired(p.members[i].0) && CleanType(p.members[i].1)
  {
    var kept := Omit(mapped);
    OmitKeeps(mapped, kept);
    Properties(kept)
  }

  function PruneExamples(es: seq<Example>): (r: seq<Example>)
    ensures forall i :: 0 <= i < |r| ==> CleanExample(r[i])
  {
    seq(|es|, i requires 0 <= i < |es| => PruneExample(es[i]))
  }

  /** A type with its pruned parts in place and its own JSON payloads pruned. */
  function Cleaned(t: TypeDef, props: PropertyMap, items: Option<Items>, examples: Option<seq<Example>>): (r: TypeDef)
    requires props.Properties? ==>
               forall i :: 0 <= i < |props.members| ==> !Undesired(props.members[i].0) && CleanType(props.members[i].1)
    requires items.Some? && items.value.ItemDef? ==> CleanType(items.value.def)
    requires examples.Some? ==> forall i :: 0 <= i < |examples.value| ==> CleanExample(examples.value[i])
    ensures CleanType(r)
  {
    t.(properties := props, items := items, examples := examples,
       example := PruneOpt(t.example), schema := PruneOpt(t.schema), other := PruneBag(t.other))
  }

  lemma PruneExampleFixed(e: Example)
    requires CleanExample(e)
    ensures PruneExample(e) == e
  {
    PruneOptFixed(e.value);
    PruneBagFixed(e.other);
  }

  lemma {:induction false} PruneTypeFixed(t: TypeDef)
    requires CleanType(t)
    ensures PruneType(t) == t
  {
    if t.properties.Properties? {
      var ms := t.properties.members;
      forall i | 0 <= i < |ms| ensures PruneType(ms[i].1) == ms[i].1 { PruneTypeFixed(ms[i].1); }
      assert seq(|ms|, i requires 0 <= i < |ms| => (ms[i].0, PruneType(ms[i].1))) == ms;
    }
    if t.items.Some? && t.items.value.ItemDef? {
      PruneTypeFixed(t.items.value.def);
    }
    if t.examples.Some? {
      var es := t.examples.value;
      forall i | 0 <= i < |es| ensures PruneExample(es[i]) == es[i] { PruneExampleFixed(es[i]); }
      assert PruneExamples(es) == es;
    }
    PruneOptFixed(t.example);
    PruneOptFixed(t.schema);
    PruneBagFixed(t.other);
  }

  // ---- keyed collections of types

  predicate CleanParams(ms: Members<TypeDef>) {
    forall i :: 0 <= i < |ms| ==> !Undesired(ms[i].0) && CleanType(ms[i].1)
  }

  predicate CleanOptParams(ms: Option<Members<TypeDef>>) {
    ms.Some? ==> CleanParams(ms.value)
  }

  function PruneParams(ms: Members<TypeDef>): (r: Members<TypeDef>)
    ensures CleanParams(r)
  {
    var mapped := seq(|ms|, i requires 0 <= i < |ms| => (ms[i].0, PruneType(ms[i].1)));
    var kept := Omit(mapped);
    OmitKeeps(mapped, kept);
    kept
  }

  function PruneOptParams(ms: Option<Members<TypeDef>>): (r: Option<Members<TypeDef>>)
    ensures CleanOptParams(r)
  {
    if ms.Some? then Some(PruneParams(ms.value)) else None
  }

  lemma PruneParamsFixed(ms: Members<TypeDef>)
    requires CleanParams(ms)
    ensures PruneParams(ms) == ms
  {
    forall i | 0 <= i < |ms| ensures PruneType(ms[i].1) == ms[i].1 { PruneTypeFixed(ms[i].1); }
    assert seq(|ms|, i requires 0 <= i < |ms| => (ms[i].0, PruneType(ms[i].1))) == ms;
  }

  lemma PruneOptParamsFixed(ms: Option<Members<TypeDef>>)
    requires CleanOptParams(ms)
    ensures PruneOptParams(ms) == ms
  {
    if ms.Some? { PruneParamsFixed(ms.value); }
  }

  // ---- resources

  predicate CleanResponse(r: Response) {
    CleanOptParams(r.body) && CleanBag(r.other)
  }

  function PruneResponse(r: Response): (p: Response)
    ensures CleanResponse(p)
  {
    r.(body := PruneOptParams(r.body), other := PruneBag(r.other))
  }

  predicate CleanResponses(rs: Members<Option<Response>>) {
    forall i :: 0 <= i < |rs| ==> !Undesired(rs[i].0) && (rs[i].1.Some? ==> CleanResponse(rs[i].1.value))
  }

  function PruneResponses(rs: Members<Option<Response>>): (p: Members<Option<Response>>)
    ensures CleanResponses(p)
  {
    var mapped := seq(|rs|, i requires 0 <= i < |rs| =>
      (rs[i].0, if rs[i].1.Some? then Some(PruneResponse(rs[i].1.value)) else None));
    var kept := Omit(mapped);
    OmitKeeps(mapped, kept);
    kept
  }

  predicate CleanMethod(m: Method) {
    CleanOptParams(m.queryParameters) && CleanOptParams(m.body) &&
    (m.responses.Some? ==> CleanResponses(m.responses.value)) && CleanBag(m.other)
  }

  function PruneMethod(m: Method): (p: Method)
    ensures CleanMethod(p)
  {
    m.(queryParameters := PruneOptParams(m.queryParameters), body := PruneOptParams(m.body),
       responses := if m.responses.Some? then Some(PruneResponses(m.responses.value)) else None,
       other := PruneBag(m.other))
  }

  function PruneMethods(ms: seq<Method>): (p: seq<Method>)
    ensures forall i :: 0 <= i < |p| ==> CleanMethod(p[i])
  {
    seq(|ms|, i requires 0 <= i < |ms| => PruneMethod(ms[i]))
  }

  predicate CleanResource(r: Resource) {
    CleanOptParams(r.uriParameters) &&
    (r.methods.Some? ==> forall i :: 0 <= i < |r.methods.value| ==> CleanMethod(r.methods.value[i])) &&
    (r.resources.Children? ==> forall i :: 0 <= i < |r.resources.list| ==> CleanResource(r.resources.list[i])) &&
    CleanOpt(r.pathSegments) && CleanBag(r.other)
  }

  function PruneResource(r: Resource): (p: Resource)
    ensures CleanResource(p)
  {
    var methods := if r.methods.Some? then Some(PruneMethods(r.methods.value)) else None;
    var children := match r.resources
      case NoChildren => NoChildren
      case Children(list) => Children(seq(|list|, i requires 0 <= i < |list| => PruneResource(list[i])));
    r.(uriParameters := PruneOptParams(r.uriParameters), methods := methods, resources := children,
       pathSegments := PruneOpt(r.pathSegments), other := PruneBag(r.other))
  }

  lemma PruneResponseFixed(r: Response)
    requires CleanResponse(r)
    ensures PruneResponse(r) == r
  {
    PruneOptParamsFixed(r.body);
    PruneBagFixed(r.other);
  }

  lemma PruneResponsesFixed(rs: Members<Option<Response>>)
    requires CleanResponses(rs)
    ensures PruneResponses(rs) == rs
  {
    forall i | 0 <= i < |rs| && rs[i].1.Some? ensures PruneResponse(rs[i].1.value) == rs[i].1.value {
      PruneResponseFixed(rs[i].1.value);
    }
    assert seq(|rs|, i requires 0 <= i < |rs| =>
      (rs[i].0, if rs[i].1.Some? then Some(PruneResponse(rs[i].1.value)) else None)) == rs;
  }

  lemma PruneMethodFixed(m: Method)
    requires CleanMethod(m)
    ensures PruneMethod(m) == m
  {
    PruneOptParamsFixed(m.queryParameters);
    PruneOptParamsFixed(m.body);
    if m.responses.Some? { PruneResponsesFixed(m.responses.value); }
    PruneBagFixed(m.other);
  }

  lemma {:induction false} PruneResourceFixed(r: Resource)
    requires CleanResource(r)
    ensures PruneResource(r) == r
  {
    PruneOptParamsFixed(r.uriParameters);
    if r.methods.Some? {
      var ms := r.methods.value;
      forall i | 0 <= i < |ms| ensures PruneMethod(ms[i]) == ms[i] { PruneMethodFixed(ms[i]); }
      assert PruneMethods(ms) == ms;
    }
    if r.resources.Children? {
      var list := r.resources.list;
      forall i | 0 <= i < |list| ensures PruneResource(list[i]) == list[i] { PruneResourceFixed(list[i]); }
      assert seq(|list|, i requires 0 <= i < |list| => PruneResource(list[i])) == list;
    }
    PruneOptFixed(r.pathSegments);
    PruneBagFixed(r.other);
  }

  // ---- the document

  predicate CleanSection(d: DocSection) {
    CleanBag(d.other)
  }

  predicate CleanDocument(d: Document) {
    CleanOptParams(d.baseUriParameters) &&
    (d.documentation.Some? ==> forall i :: 0 <= i < |d.documentation.value| ==> CleanSection(d.documentation.value[i])) &&
    (d.resources.Some? ==> forall i :: 0 <= i < |d.resources.value| ==> CleanResource(d.resources.value[i])) &&
    (d.types.Some? ==> forall i :: 0 <= i < |d.types.value| ==> CleanParams(d.types.value[i])) &&
    CleanBag(d.other)
  }

  function PruneSections(ds: seq<DocSection>): (p: seq<DocSection>)
    ensures forall i :: 0 <= i < |p| ==> CleanSection(p[i])
  {
    seq(|ds|, i requires 0 <= i < |ds| => ds[i].(other := PruneBag(ds[i].other)))
  }

  function PruneResources(rs: seq<Resource>): (p: seq<Resource>)
    ensures forall i :: 0 <= i < |p| ==> CleanResource(p[i])
  {
    seq(|rs|, i requires 0 <= i < |rs| => PruneResource(rs[i]))
  }

  function PruneTypeEntries(ts: seq<Members<TypeDef>>): (p: seq<Members<TypeDef>>)
    ensures forall i :: 0 <= i < |p| ==> CleanParams(p[i])
  {
    seq(|ts|, i requires 0 <= i < |ts| => PruneParams(ts[i]))
  }

  /** `omitUndesired(data)`: no undesired key is left anywhere in the result. */
  function OmitUndesired(d: Document): (r: Document)
    ensures CleanDocument(r)
  {
    var docs := if d.documentation.Some? then Some(PruneSections(d.documentation.value)) else None;
    var resources := if d.resources.Some? then Some(PruneResources(d.resources.value)) else None;
    var types := if d.types.Some? then Some(PruneTypeEntries(d.types.value)) else None;
    d.(baseUriParameters := PruneOptParams(d.baseUriParameters), documentation := docs,
       resources := resources, types := types, other := PruneBag(d.other))
  }

  /** Pruning removes only the undesired keys: a document that has none is returned as it is. */
  lemma OmitUndesiredFixed(d: Document)
    requires CleanDocument(d)
    ensures OmitUndesired(d) == d
  {
    PruneOptParamsFixed(d.baseUriParameters);
    if d.documentation.Some? {
      var ds := d.documentation.value;
      forall i | 0 <= i < |ds| ensures ds[i].(other := PruneBag(ds[i].other)) == ds[i] { PruneBagFixed(ds[i].other); }
      assert PruneSections(ds) == ds;
    }
    if d.resources.Some? {
      var rs := d.resources.value;
      forall i | 0 <= i < |rs| ensures PruneResource(rs[i]) == rs[i] { PruneResourceFixed(rs[i]); }
      assert PruneResources(rs) == rs;
    }
    if d.types.Some? {
      var ts := d.types.value;
      forall i | 0 <= i < |ts| ensures PruneParams(ts[i]) == ts[i] { PruneParamsFixed(ts[i]); }
      assert PruneTypeEntries(ts) == ts;
    }
    PruneBagFixed(d.other);
  }

  /** Pruning twice is pruning once. */
  lemma OmitUndesiredIdempotent(d: Document)
    ensures OmitUndesired(OmitUndesired(d)) == OmitUndesired(d)
  {
    OmitUndesiredFixed(OmitUndesired(d));
  }

  // ---- what pruning keeps: everything but the undesired keys

  /** `r` is the object `m` pruned: an undesired key is gone, and every other key keeps its
      value, itself pruned. */
  ghost predicate KeptBag(m: Members<Json>, r: Members<Json>) {
    forall k :: Lookup(r, k) == if Undesired(k) then None else PruneOpt(Lookup(m, k))
  }

  function PruneOptType(t: Option<TypeDef>): Option<TypeDef> {
    if t.Some? then Some(PruneType(t.value)) else None
  }

  /** `r` is the keyed collection of types `m` pruned. */
  ghost predicate KeptTypes(m: Members<TypeDef>, r: Members<TypeDef>) {
    forall k :: Lookup(r, k) == if Undesired(k) then None else PruneOptType(Lookup(m, k))
  }

  ghost predicate KeptOptTypes(m: Option<Members<TypeDef>>, r: Option<Members<TypeDef>>) {
    (m.Some? <==> r.Some?) && (m.Some? ==> KeptTypes(m.value, r.value))
  }

  /** A response entry pruned; a `null` response stays `null`. */
  function PruneOptResponse(v: Option<Option<Response>>): Option<Option<Response>> {
    if v.Some? && v.value.Some? then Some(Some(PruneResponse(v.value.value))) else v
  }

  /** `r` is the responses object `m` pruned. */
  ghost predicate KeptResponses(m: Members<Option<Response>>, r: Members<Option<Response>>) {
    forall k :: Lookup(r, k) == if Undesired(k) then None else PruneOptResponse(Lookup(m, k))
  }

  /** A JSON object keeps every key that is not undesired, with its value pruned; an array
      keeps every element, in order, pruned; any other value is left alone. */
  lemma PruneJsonKeeps(v: Json)
    ensures v.JObj? ==> PruneJson(v).JObj? && KeptBag(v.members, PruneJson(v).members)
    ensures v.JArr? ==>
              PruneJson(v).JArr? && |PruneJson(v).elems| == |v.elems| &&
              forall i :: 0 <= i < |v.elems| ==> PruneJson(v).elems[i] == PruneJson(v.elems[i])
    ensures !v.JObj? && !v.JArr? ==> PruneJson(v) == v
  {
    if v.JObj? {
      var ms := v.members;
      var mapped := seq(|ms|, i requires 0 <= i < |ms| => (ms[i].0, PruneJson(ms[i].1)));
      assert PruneJson(v).members == Omit(mapped);
      forall k ensures Lookup(PruneJson(v).members, k) == if Undesired(k) then None else PruneOpt(Lookup(ms, k)) {
        var i := SameKeysLookup(ms, mapped, k);
      }
    }
  }

  lemma PruneBagKeeps(ms: Members<Json>)
    ensures KeptBag(ms, PruneBag(ms))
  {
    PruneJsonKeeps(JObj(ms));
  }

  lemma PruneParamsKeeps(ms: Members<TypeDef>)
    ensures KeptTypes(ms, PruneParams(ms))
  {
    var mapped := seq(|ms|, i requires 0 <= i < |ms| => (ms[i].0, PruneType(ms[i].1)));
    assert PruneParams(ms) == Omit(mapped);
    forall k ensures Lookup(PruneParams(ms), k) == if Undesired(k) then None else PruneOptType(Lookup(ms, k)) {
      var i := SameKeysLookup(ms, mapped, k);
    }
  }

  lemma PruneOptParamsKeeps(ms: Option<Members<TypeDef>>)
    ensures KeptOptTypes(ms, PruneOptParams(ms))
  {
    if ms.Some? { PruneParamsKeeps(ms.value); }
  }

  /** An example keeps its description; its value and its other keys are pruned. */
  lemma PruneExampleKeeps(e: Example)
    ensures PruneExample(e).description == e.description
    ensures PruneExample(e).value == PruneOpt(e.value)
    ensures KeptBag(e.other, PruneExample(e).other)
  {
    PruneBagKeeps(e.other);
  }

  /** A type keeps its kind, `type` and description; its properties, items and examples keep
      everything but undesired keys, pruned; its payloads are pruned; so are its other keys. */
  lemma PruneTypeKeeps(t: TypeDef)
    ensures var r := PruneType(t);
            r.kind == t.kind && r.typeRef == t.typeRef && r.description == t.description &&
            (t.properties.NoProperties? <==> r.properties.NoProperties?) &&
            (t.properties.Properties? ==> KeptTypes(t.properties.members, r.properties.members)) &&
            (t.items.Some? && t.items.value.ItemDef? ==> r.items == Some(ItemDef(PruneType(t.items.value.def)))) &&
            (!(t.items.Some? && t.items.value.ItemDef?) ==> r.items == t.items) &&
            (t.examples.None? <==> r.examples.None?) &&
            (t.examples.Some? ==>
               |r.examples.value| == |t.examples.value| &&
               forall i :: 0 <= i < |t.examples.value| ==> r.examples.value[i] == PruneExample(t.examples.value[i])) &&
            r.example == PruneOpt(t.example) && r.schema == PruneOpt(t.schema) &&
            KeptBag(t.other, r.other)
  {
    if t.properties.Properties? {
      var ms := t.properties.members;
      assert PruneType(t).properties.members == PruneParams(ms);
      PruneParamsKeeps(ms);
    }
    PruneBagKeeps(t.other);
  }

  lemma PruneResponseKeeps(x: Response)
    ensures var p := PruneResponse(x);
            p.description == x.description && KeptOptTypes(x.body, p.body) && KeptBag(x.other, p.other)
  {
    PruneOptParamsKeeps(x.body);
    PruneBagKeeps(x.other);
  }

  lemma PruneResponsesKeeps(rs: Members<Option<Response>>)
    ensures KeptResponses(rs, PruneResponses(rs))
  {
    var mapped := seq(|rs|, i requires 0 <= i < |rs| =>
      (rs[i].0, if rs[i].1.Some? then Some(PruneResponse(rs[i].1.value)) else None));
    assert PruneResponses(rs) == Omit(mapped);
    forall k ensures Lookup(PruneResponses(rs), k) == if Undesired(k) then None else PruneOptResponse(Lookup(rs, k)) {
      var i := SameKeysLookup(rs, mapped, k);
    }
  }

  /** A method keeps its description; its parameters, bodies and responses keep everything
      but undesired keys, pruned; so do its other keys. */
  lemma PruneMethodKeeps(m: Method)
    ensures var p := PruneMethod(m);
            p.description == m.description &&
            KeptOptTypes(m.queryParameters, p.queryParameters) && KeptOptTypes(m.body, p.body) &&
            (m.responses.None? <==> p.responses.None?) &&
            (m.responses.Some? ==> KeptResponses(m.responses.value, p.responses.value)) &&
            KeptBag(m.other, p.other)
  {
    PruneOptParamsKeeps(m.queryParameters);
    PruneOptParamsKeeps(m.body);
    if m.responses.Some? { PruneResponsesKeeps(m.responses.value); }
    PruneBagKeeps(m.other);
  }

  /** A resource keeps its path and description and every method and child, in order, each
      pruned; its URI parameters and other keys keep everything but undesired keys, pruned. */
  lemma PruneResourceKeeps(x: Resource)
    ensures var p := PruneResource(x);
            p.relativeUri == x.relativeUri && p.description == x.description &&
            KeptOptTypes(x.uriParameters, p.uriParameters) &&
            (x.methods.None? <==> p.methods.None?) &&
            (x.methods.Some? ==>
               |p.methods.value| == |x.methods.value| &&
               forall i :: 0 <= i < |x.methods.value| ==> p.methods.value[i] == PruneMethod(x.methods.value[i])) &&
            (x.resources.NoChildren? <==> p.resources.NoChildren?) &&
            (x.resources.Children? ==>
               |p.resources.list| == |x.resources.list| &&
               forall i :: 0 <= i < |x.resources.list| ==> p.resources.list[i] == PruneResource(x.resources.list[i])) &&
            p.pathSegments == PruneOpt(x.pathSegments) && KeptBag(x.other, p.other)
  {
    PruneOptParamsKeeps(x.uriParameters);
    PruneBagKeeps(x.other);
  }

  /** `omitUndesired` deletes nothing but the undesired keys: every section, resource and entry
      of `types` is kept, in order, and every key that is not undesired keeps its value, pruned. */
  lemma OmitUndesiredKeeps(d: Document)
    ensures var r := OmitUndesired(d);
            KeptOptTypes(d.baseUriParameters, r.baseUriParameters) &&
            (d.documentation.None? <==> r.documentation.None?) &&
            (d.documentation.Some? ==>
               |r.documentation.value| == |d.documentation.value| &&
               forall i :: 0 <= i < |d.documentation.value| ==>
                 r.documentation.value[i].content == d.documentation.value[i].content &&
                 KeptBag(d.documentation.value[i].other, r.documentation.value[i].other)) &&
            (d.resources.None? <==> r.resources.None?) &&
            (d.resources.Some? ==>
               |r.resources.value| == |d.resources.value| &&
               forall i :: 0 <= i < |d.resources.value| ==> r.resources.value[i] == PruneResource(d.resources.value[i])) &&
            (d.types.None? <==> r.types.None?) &&
            (d.types.Some? ==>
               |r.types.value| == |d.types.value| &&
               forall i :: 0 <= i < |d.types.value| ==> KeptTypes(d.types.value[i], r.types.value[i])) &&
            KeptBag(d.other, r.other)
  {
    PruneOptParamsKeeps(d.baseUriParameters);
    if d.documentation.Some? {
      var ds := d.documentation.value;
      forall i | 0 <= i < |ds| ensures KeptBag(ds[i].other, PruneSections(ds)[i].other) { PruneBagKeeps(ds[i].other); }
    }
    if d.types.Some? {
      var ts := d.types.value;
      forall i | 0 <= i < |ts| ensures KeptTypes(ts[i], PruneTypeEntries(ts)[i]) { PruneParamsKeeps(ts[i]); }
    }
    PruneBagKeeps(d.other);
  }
}
