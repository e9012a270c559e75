/** The content formatter `formatForDisplay` (lines 151-188): the global types are reduced to a
    name-to-definition table, then the base URI parameters, the documentation and the top-level
    resources (flat by then), their methods, query parameters, bodies and responses are
    converted and their markdown rendered, and the `types` field is deleted.

    Each `Formatted*` function states what the source computes; each `Format*` method is the
    source's statement-by-statement version, proved equal to it. The loops over documentation,
    responses, methods and resources are `while`/`for` loops. The callbacks `FormatResponse`,
    `FormatMethod`, `FormatResource` and `FormatForDisplay` have no loop of their own; they are
    methods because they call the loop methods (and, through them, `ConvertType`). */
module Formatter {
  import opened Wrappers
  import opened Objects
  import opened JsonValues
  import opened Raml
  import opened TypeResolver

  // ---- the global types (lines 156-160)

  /** One step of the reduce: the entry's first key is bound to its value. An entry with no keys
      binds the key "undefined" to `undefined`, so that name then names no type. */
  function AddEntry(acc: TypeMap, e: Members<TypeDef>): TypeMap {
    if e == [] then acc - {"undefined"} else acc[e[0].0 := e[0].1]
  }

  /** `_.reduce(data.types, ..., {})`, entry by entry from the first. */
  function TypeTable(es: seq<Members<TypeDef>>): TypeMap
    decreases |es|
  {
    if es == [] then map[] else AddEntry(TypeTable(es[..|es| - 1]), es[|es| - 1])
  }

  /** Every name in the table is the first key of some entry: later keys of an entry are
      dropped. */
  lemma {:induction false} TypeTableNames(es: seq<Members<TypeDef>>, name: string)
    requires name in TypeTable(es)
    ensures exists j :: 0 <= j < |es| && es[j] != [] && es[j][0].0 == name
    decreases |es|
  {
    var init := es[..|es| - 1];
    var last := es[|es| - 1];
    if last != [] && last[0].0 == name {
      assert es[|es| - 1] != [] && es[|es| - 1][0].0 == name;
    } else {
      assert name in TypeTable(init);
      TypeTableNames(init, name);
      var j :| 0 <= j < |init| && init[j] != [] && init[j][0].0 == name;
      assert es[j] == init[j];
    }
  }

  /** The last entry that names a type decides its definition: an entry whose first key is
      `name`, followed by no entry with the same first key (and, for the name "undefined", by no
      empty entry), defines `name`. */
  lemma {:induction false} TypeTableLastWins(es: seq<Members<TypeDef>>, j: nat)
    requires j < |es| && es[j] != []
    requires forall k :: j < k < |es| && es[k] != [] ==> es[k][0].0 != es[j][0].0
    requires es[j][0].0 == "undefined" ==> forall k :: j < k < |es| ==> es[k] != []
    ensures Get(TypeTable(es), es[j][0].0) == Some(es[j][0].1)
    decreases |es|
  {
    var init := es[..|es| - 1];
    if j < |es| - 1 {
      assert init[j] == es[j];
      forall k | j < k < |init| && init[k] != [] ensures init[k][0].0 != init[j][0].0 {
        assert init[k] == es[k];
      }
      if es[j][0].0 == "undefined" {
        forall k | j < k < |init| ensures init[k] != [] {
          assert init[k] == es[k];
        }
      }
      TypeTableLastWins(init, j);
    }
  }

  method CollectTypes(types: Option<seq<Members<TypeDef>>>) returns (table: TypeMap)
    ensures table == TypeTable(types.GetOr([]))
  {
    var es := types.GetOr([]);
    table := map[];
    for i := 0 to |es|
      invariant table == TypeTable(es[..i])
    {
      assert es[..i + 1][..i] == es[..i];
      if es[i] == [] {
        table := table - {"undefined"};
      } else {
        table := table[es[i][0].0 := es[i][0].1];
      }
    }
    assert es[..|es|] == es;
  }

  // ---- what formatting promises about each entity

  /** `convertProperties(orig, isUri, ...)` turned `orig` into `conv`: an absent map stays
      absent; the names and their order are kept; each value is the conversion, without a
      format, of the parameter flagged `uri = true` exactly when they are URI parameters
      (otherwise its own keys stay first). */
  predicate ParamsConverted(orig: Option<Members<TypeDef>>, conv: Option<Members<TypeDef>>, isUri: bool, types: TypeMap, env: Env, fuel: nat) {
    (orig.Some? <==> conv.Some?) &&
    (orig.Some? ==>
       |conv.value| == |orig.value| &&
       forall i :: 0 <= i < |orig.value| ==>
         conv.value[i].0 == orig.value[i].0 && Resolved(conv.value[i].1) &&
         (isUri ==> Lookup(conv.value[i].1.other, "uri") == Some(JBool(true))) &&
         (!isUri ==> orig.value[i].1.other <= conv.value[i].1.other) &&
         Converted(Flagged(orig.value[i].1, isUri), "", types, env, fuel) == Ok(conv.value[i].1))
  }

  /** The bodies of `orig`, keyed by media type, were each converted with that format. */
  predicate BodiesConverted(orig: Option<Members<TypeDef>>, conv: Option<Members<TypeDef>>, types: TypeMap, env: Env, fuel: nat) {
    (orig.Some? <==> conv.Some?) &&
    (orig.Some? ==>
       |conv.value| == |orig.value| &&
       forall i :: 0 <= i < |orig.value| ==>
         conv.value[i].0 == orig.value[i].0 && Resolved(conv.value[i].1) &&
         orig.value[i].1.other <= conv.value[i].1.other &&
         Converted(orig.value[i].1, orig.value[i].0, types, env, fuel) == Ok(conv.value[i].1))
  }

  /** A `null` response stays `null`; otherwise its description is rendered when present and
      its bodies converted, and nothing else changes. */
  predicate ResponseFormatted(env: Env, types: TypeMap, fuel: nat, x: Option<Response>, y: Option<Response>) {
    (x.None? <==> y.None?) &&
    (x.Some? ==>
       y.value.description == Render(env, x.value.description) &&
       BodiesConverted(x.value.body, y.value.body, types, env, fuel) && y.value.other == x.value.other)
  }

  predicate ResponsesFormatted(env: Env, types: TypeMap, fuel: nat, xs: Members<Option<Response>>, ys: Members<Option<Response>>) {
    |ys| == |xs| &&
    forall i :: 0 <= i < |xs| ==> ys[i].0 == xs[i].0 && ResponseFormatted(env, types, fuel, xs[i].1, ys[i].1)
  }

  predicate MethodFormatted(env: Env, types: TypeMap, fuel: nat, x: Method, y: Method) {
    y.description == Render(env, x.description) &&
    ParamsConverted(x.queryParameters, y.queryParameters, false, types, env, fuel) &&
    BodiesConverted(x.body, y.body, types, env, fuel) &&
    (x.responses.Some? <==> y.responses.Some?) &&
    (x.responses.Some? ==> ResponsesFormatted(env, types, fuel, x.responses.value, y.responses.value)) &&
    y.other == x.other
  }

  predicate MethodsFormatted(env: Env, types: TypeMap, fuel: nat, xs: seq<Method>, ys: seq<Method>) {
    |ys| == |xs| && forall i :: 0 <= i < |xs| ==> MethodFormatted(env, types, fuel, xs[i], ys[i])
  }

  /** A resource keeps its path, its child list and everything else it does not format. */
  predicate ResourceFormatted(env: Env, types: TypeMap, fuel: nat, x: Resource, y: Resource) {
    y.relativeUri == x.relativeUri && y.resources == x.resources &&
    y.pathSegments == x.pathSegments && y.other == x.other &&
    y.description == Render(env, x.description) &&
    ParamsConverted(x.uriParameters, y.uriParameters, true, types, env, fuel) &&
    (x.methods.Some? <==> y.methods.Some?) &&
    (x.methods.Some? ==> MethodsFormatted(env, types, fuel, x.methods.value, y.methods.value))
  }

  predicate ResourcesFormatted(env: Env, types: TypeMap, fuel: nat, xs: seq<Resource>, ys: seq<Resource>) {
    |ys| == |xs| && forall i :: 0 <= i < |xs| ==> ResourceFormatted(env, types, fuel, xs[i], ys[i])
  }

  predicate DocumentFormatted(env: Env, fuel: nat, d: Document, out: Document) {
    var types := TypeTable(d.types.GetOr([]));
    out.types.None? && out.other == d.other &&
    ParamsConverted(d.baseUriParameters, out.baseUriParameters, true, types, env, fuel) &&
    (d.documentation.Some? <==> out.documentation.Some?) &&
    (d.documentation.Some? ==>
       |out.documentation.value| == |d.documentation.value| &&
       forall i :: 0 <= i < |d.documentation.value| ==>
         out.documentation.value[i].content == Render(env, d.documentation.value[i].content) &&
         out.documentation.value[i].other == d.documentation.value[i].other) &&
    (d.resources.Some? <==> out.resources.Some?) &&
    (d.resources.Some? ==> ResourcesFormatted(env, types, fuel, d.resources.value, out.resources.value))
  }

  // ---- the formatting functions

  /** `convertProperties(ps, isUri, ...)` on a map that may be absent (`properties || {}`). */
  function OptProperties(ps: Option<Members<TypeDef>>, isUri: bool, types: TypeMap, env: Env, fuel: nat): (r: Result<Option<Members<TypeDef>>, Failure>)
    ensures r.Ok? ==> ParamsConverted(ps, r.value, isUri, types, env, fuel)
  {
    if ps.None? then Ok(None)
    else
      var c :- ConvertedProperties(ps.value, isUri, types, env, fuel);
      Ok(Some(c))
  }

  /** `_.forOwn(body || {}, convertBodyFn(data, converter))`. */
  function OptBodies(body: Option<Members<TypeDef>>, types: TypeMap, env: Env, fuel: nat): (r: Result<Option<Members<TypeDef>>, Failure>)
    ensures r.Ok? ==> BodiesConverted(body, r.value, types, env, fuel)
  {
    if body.None? then Ok(None)
    else
      var c :- ConvertedBodies(body.value, types, env, fuel);
      Ok(Some(c))
  }

  /** Lines 176-179. */
  function FormattedResponse(x: Option<Response>, types: TypeMap, env: Env, fuel: nat): (r: Result<Option<Response>, Failure>)
    ensures r.Ok? ==> ResponseFormatted(env, types, fuel, x, r.value)
  {
    if x.None? then Ok(None)
    else
      var b :- OptBodies(x.value.body, types, env, fuel);
      Ok(Some(x.value.(description := Render(env, x.value.description), body := b)))
  }

  /** Line 175: every response, in order; the first failure ends the walk. */
  function FormattedResponses(xs: Members<Option<Response>>, types: TypeMap, env: Env, fuel: nat): (r: Result<Members<Option<Response>>, Failure>)
    ensures r.Ok? ==> ResponsesFormatted(env, types, fuel, xs, r.value)
  {
    if xs == [] then Ok([])
    else
      var y :- FormattedResponse(xs[0].1, types, env, fuel);
      var rest :- FormattedResponses(xs[1..], types, env, fuel);
      Ok([(xs[0].0, y)] + rest)
  }

  function OptResponses(xs: Option<Members<Option<Response>>>, types: TypeMap, env: Env, fuel: nat): (r: Result<Option<Members<Option<Response>>>, Failure>)
    ensures r.Ok? ==> (xs.Some? <==> r.value.Some?)
    ensures r.Ok? && xs.Some? ==> ResponsesFormatted(env, types, fuel, xs.value, r.value.value)
  {
    if xs.None? then Ok(None)
    else
      var ys :- FormattedResponses(xs.value, types, env, fuel);
      Ok(Some(ys))
  }

  /** Lines 170-180: description, query parameters, bodies, then responses. */
  function FormattedMethod(x: Method, types: TypeMap, env: Env, fuel: nat): (r: Result<Method, Failure>)
    ensures r.Ok? ==> MethodFormatted(env, types, fuel, x, r.value)
  {
    var q :- OptProperties(x.queryParameters, false, types, env, fuel);
    var b :- OptBodies(x.body, types, env, fuel);
    var rs :- OptResponses(x.responses, types, env, fuel);
    Ok(x.(description := Render(env, x.description), queryParameters := q, body := b, responses := rs))
  }

  function FormattedMethods(xs: seq<Method>, types: TypeMap, env: Env, fuel: nat): (r: Result<seq<Method>, Failure>)
    ensures r.Ok? ==> MethodsFormatted(env, types, fuel, xs, r.value)
  {
    if xs == [] then Ok([])
    else
      var y :- FormattedMethod(xs[0], types, env, fuel);
      var rest :- FormattedMethods(xs[1..], types, env, fuel);
      Ok([y] + rest)
  }

  function OptMethods(xs: Option<seq<Method>>, types: TypeMap, env: Env, fuel: nat): (r: Result<Option<seq<Method>>, Failure>)
    ensures r.Ok? ==> (xs.Some? <==> r.value.Some?)
    ensures r.Ok? && xs.Some? ==> MethodsFormatted(env, types, fuel, xs.value, r.value.value)
  {
    if xs.None? then Ok(None)
    else
      var ys :- FormattedMethods(xs.value, types, env, fuel);
      Ok(Some(ys))
  }

  /** Lines 167-181: description, URI parameters (flagged), then methods. */
  function FormattedResource(x: Resource, types: TypeMap, env: Env, fuel: nat): (r: Result<Resource, Failure>)
    ensures r.Ok? ==> ResourceFormatted(env, types, fuel, x, r.value)
  {
    var ps :- OptProperties(x.uriParameters, true, types, env, fuel);
    var ms :- OptMethods(x.methods, types, env, fuel);
    Ok(x.(description := Render(env, x.description), uriParameters := ps, methods := ms))
  }

  /** Line 166: only the top-level resources are visited. */
  function FormattedResources(xs: seq<Resource>, types: TypeMap, env: Env, fuel: nat): (r: Result<seq<Resource>, Failure>)
    ensures r.Ok? ==> ResourcesFormatted(env, types, fuel, xs, r.value)
  {
    if xs == [] then Ok([])
    else
      var y :- FormattedResource(xs[0], types, env, fuel);
      var rest :- FormattedResources(xs[1..], types, env, fuel);
      Ok([y] + rest)
  }

  function FormattedDocs(env: Env, docs: seq<DocSection>): seq<DocSection> {
    seq(|docs|, i requires 0 <= i < |docs| => docs[i].(content := Render(env, docs[i].content)))
  }

  function OptResources(xs: Option<seq<Resource>>, types: TypeMap, env: Env, fuel: nat): (r: Result<Option<seq<Resource>>, Failure>)
    ensures r.Ok? ==> (xs.Some? <==> r.value.Some?)
    ensures r.Ok? && xs.Some? ==> ResourcesFormatted(env, types, fuel, xs.value, r.value.value)
  {
    if xs.None? then Ok(None)
    else
      var ys :- FormattedResources(xs.value, types, env, fuel);
      Ok(Some(ys))
  }

  /** `formatForDisplay(data)`. */
  function Formatted(env: Env, d: Document, fuel: nat): (r: Result<Document, Failure>)
    ensures r.Ok? ==> DocumentFormatted(env, fuel, d, r.value)
  {
    var types := TypeTable(d.types.GetOr([]));
    var base :- OptProperties(d.baseUriParameters, true, types, env, fuel);
    var docs := if d.documentation.None? then None else Some(FormattedDocs(env, d.documentation.value));
    var res :- OptResources(d.resources, types, env, fuel);
    Ok(d.(baseUriParameters := base, documentation := docs, resources := res, types := None))
  }

  // ---- the formatting loops

  method FormatDocs(env: Env, docs: seq<DocSection>) returns (r: seq<DocSection>)
    ensures r == FormattedDocs(env, docs)
  {
    r := docs;
    for i := 0 to |docs|
      invariant |r| == |docs|
      invariant forall k :: 0 <= k < i ==> r[k] == docs[k].(content := Render(env, docs[k].content))
      invariant r[i..] == docs[i..]
    {
      assert r[i] == docs[i] by { assert r[i..][0] == r[i] && docs[i..][0] == docs[i]; }
      r := r[i := r[i].(content := Render(env, r[i].content))];
    }
  }

  method FormatBodies(body: Option<Members<TypeDef>>, types: TypeMap, env: Env, fuel: nat) returns (r: Result<Option<Members<TypeDef>>, Failure>)
    ensures r == OptBodies(body, types, env, fuel)
  {
    if body.None? {
      return Ok(None);
    }
    var c := ConvertBodies(body.value, types, env, fuel);
    if c.Err? {
      return Err(c.error);
    }
    return Ok(Some(c.value));
  }

  method FormatProperties(ps: Option<Members<TypeDef>>, isUri: bool, types: TypeMap, env: Env, fuel: nat) returns (r: Result<Option<Members<TypeDef>>, Failure>)
    ensures r == OptProperties(ps, isUri, types, env, fuel)
  {
    if ps.None? {
      return Ok(None);
    }
    var c := ConvertProperties(ps.value, isUri, types, env, fuel);
    if c.Err? {
      return Err(c.error);
    }
    return Ok(Some(c.value));
  }

  method FormatResponse(x: Option<Response>, types: TypeMap, env: Env, fuel: nat) returns (r: Result<Option<Response>, Failure>)
    ensures r == FormattedResponse(x, types, env, fuel)
  {
    if x.None? {
      return Ok(None);
    }
    var b := FormatBodies(x.value.body, types, env, fuel);
    if b.Err? {
      return Err(b.error);
    }
    return Ok(Some(x.value.(description := Render(env, x.value.description), body := b.value)));
  }

  lemma ResponsesUnfold(xs: Members<Option<Response>>, i: nat, types: TypeMap, env: Env, fuel: nat)
    requires i < |xs|
    ensures var y := FormattedResponse(xs[i].1, types, env, fuel);
            FormattedResponses(xs[i..], types, env, fuel) ==
              if y.Err? then Err(y.error) else Prepend([(xs[i].0, y.value)], FormattedResponses(xs[i + 1..], types, env, fuel))
  {
    assert xs[i..][0] == xs[i] && xs[i..][1..] == xs[i + 1..];
  }

  method FormatResponses(xs: Members<Option<Response>>, types: TypeMap, env: Env, fuel: nat) returns (r: Result<Members<Option<Response>>, Failure>)
    ensures r == FormattedResponses(xs, types, env, fuel)
  {
    var done: Members<Option<Response>> := [];
    var i := 0;
    assert xs[0..] == xs;
    while i < |xs|
      invariant 0 <= i <= |xs|
      invariant FormattedResponses(xs, types, env, fuel) == Prepend(done, FormattedResponses(xs[i..], types, env, fuel))
    {
      var y := FormatResponse(xs[i].1, types, env, fuel);
      ResponsesUnfold(xs, i, types, env, fuel);
      if y.Err? {
        return Err(y.error);
      }
      PrependTwice(done, [(xs[i].0, y.value)], FormattedResponses(xs[i + 1..], types, env, fuel));
      done := done + [(xs[i].0, y.value)];
      i := i + 1;
    }
    assert xs[i..] == [];
    assert done + [] == done;
    return Ok(done);
  }

  method FormatMethod(x: Method, types: TypeMap, env: Env, fuel: nat) returns (r: Result<Method, Failure>)
    ensures r == FormattedMethod(x, types, env, fuel)
  {
    var q := FormatProperties(x.queryParameters, false, types, env, fuel);
    if q.Err? {
      return Err(q.error);
    }
    var b := FormatBodies(x.body, types, env, fuel);
    if b.Err? {
      return Err(b.error);
    }
    var rs: Option<Members<Option<Response>>> := None;
    if x.responses.Some? {
      var ys := FormatResponses(x.responses.value, types, env, fuel);
      if ys.Err? {
        return Err(ys.error);
      }
      rs := Some(ys.value);
    }
    return Ok(x.(description := Render(env, x.description), queryParameters := q.value, body := b.value, responses := rs));
  }

  lemma MethodsUnfold(xs: seq<Method>, i: nat, types: TypeMap, env: Env, fuel: nat)
    requires i < |xs|
    ensures var y := FormattedMethod(xs[i], types, env, fuel);
            FormattedMethods(xs[i..], types, env, fuel) ==
              if y.Err? then Err(y.error) else Prepend([y.value], FormattedMethods(xs[i + 1..], types, env, fuel))
  {
    assert xs[i..][0] == xs[i] && xs[i..][1..] == xs[i + 1..];
  }

  method FormatMethods(xs: seq<Method>, types: TypeMap, env: Env, fuel: nat) returns (r: Result<seq<Method>, Failure>)
    ensures r == FormattedMethods(xs, types, env, fuel)
  {
    var done: seq<Method> := [];
    var i := 0;
    assert xs[0..] == xs;
    while i < |xs|
      invariant 0 <= i <= |xs|
      invariant FormattedMethods(xs, types, env, fuel) == Prepend(done, FormattedMethods(xs[i..], types, env, fuel))
    {
      var y := FormatMethod(xs[i], types, env, fuel);
      MethodsUnfold(xs, i, types, env, fuel);
      if y.Err? {
        return Err(y.error);
      }
      PrependTwice(done, [y.value], FormattedMethods(xs[i + 1..], types, env, fuel));
      done := done + [y.value];
      i := i + 1;
    }
    assert xs[i..] == [];
    assert done + [] == done;
    return Ok(done);
  }

  method FormatResource(x: Resource, types: TypeMap, env: Env, fuel: nat) returns (r: Result<Resource, Failure>)
    ensures r == FormattedResource(x, types, env, fuel)
  {
    var ps := FormatProperties(x.uriParameters, true, types, env, fuel);
    if ps.Err? {
      return Err(ps.error);
    }
    var ms: Option<seq<Method>> := None;
    if x.methods.Some? {
      var ys := FormatMethods(x.methods.value, types, env, fuel);
      if ys.Err? {
        return Err(ys.error);
      }
      ms := Some(ys.value);
    }
    return Ok(x.(description := Render(env, x.description), uriParameters := ps.value, methods := ms));
  }

  lemma ResourcesUnfold(xs: seq<Resource>, i: nat, types: TypeMap, env: Env, fuel: nat)
    requires i < |xs|
    ensures var y := FormattedResource(xs[i], types, env, fuel);
            FormattedResources(xs[i..], types, env, fuel) ==
              if y.Err? then Err(y.error) else Prepend([y.value], FormattedResources(xs[i + 1..], types, env, fuel))
  {
    assert xs[i..][0] == xs[i] && xs[i..][1..] == xs[i + 1..];
  }

  /** One turn of the resources loop: a failure ends the walk, a success extends what is done. */
  lemma ResourcesStep(xs: seq<Resource>, i: nat, done: seq<Resource>, types: TypeMap, env: Env, fuel: nat)
    requires i < |xs|
    requires FormattedResources(xs, types, env, fuel) == Prepend(done, FormattedResources(xs[i..], types, env, fuel))
    ensures var y := FormattedResource(xs[i], types, env, fuel);
            (y.Err? ==> FormattedResources(xs, types, env, fuel) == Err(y.error)) &&
            (y.Ok? ==> FormattedResources(xs, types, env, fuel) ==
                         Prepend(done + [y.value], FormattedResources(xs[i + 1..], types, env, fuel)))
  {
    var y := FormattedResource(xs[i], types, env, fuel);
    ResourcesUnfold(xs, i, types, env, fuel);
    if y.Ok? {
      PrependTwice(done, [y.value], FormattedResources(xs[i + 1..], types, env, fuel));
    }
  }

  method FormatResources(xs: seq<Resource>, types: TypeMap, env: Env, fuel: nat) returns (r: Result<seq<Resource>, Failure>)
    ensures r == FormattedResources(xs, types, env, fuel)
  {
    var done: seq<Resource> := [];
    var i := 0;
    assert xs[0..] == xs;
    while i < |xs|
      invariant 0 <= i <= |xs|
      invariant FormattedResources(xs, types, env, fuel) == Prepend(done, FormattedResources(xs[i..], types, env, fuel))
    {
      var y := FormatResource(xs[i], types, env, fuel);
      ResourcesStep(xs, i, done, types, env, fuel);
      if y.Err? {
        return Err(y.error);
      }
      done := done + [y.value];
      i := i + 1;
    }
    assert xs[i..] == [];
    assert done + [] == done;
    return Ok(done);
  }

  /** `formatForDisplay(data)`: the type table first, then base URI parameters, documentation
      and resources, and `types` deleted. */
  method FormatForDisplay(env: Env, d: Document, fuel: nat) returns (r: Result<Document, Failure>)
    ensures r == Formatted(env, d, fuel)
  {
    var types := CollectTypes(d.types);
    var base := FormatProperties(d.baseUriParameters, true, types, env, fuel);
    if base.Err? {
      return Err(base.error);
    }
    var docs: Option<seq<DocSection>> := None;
    if d.documentation.Some? {
      var ds := FormatDocs(env, d.documentation.value);
      docs := Some(ds);
    }
    var res: Option<seq<Resource>> := None;
    if d.resources.Some? {
      var ys := FormatResources(d.resources.value, types, env, fuel);
      if ys.Err? {
        return Err(ys.error);
      }
      res := Some(ys.value);
    }
    return Ok(d.(baseUriParameters := base.value, documentation := docs, resources := res, types := None));
  }
}
