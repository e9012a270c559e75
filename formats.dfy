/** The format dispatch helpers: pretty printing chosen by media type, and the choice of parser
    for a schema (ramlprerender.js, `beautify` and `parseJsonSchema`). */
module Formats {
  import opened Wrappers
  import opened Text
  import opened JsonValues
  import opened Raml

  /** The result of a printer that may throw: its output, or the input when it threw. */
  function Printed(out: Option<Json>, data: Json): Json {
    if out.Some? then out.value else data
  }

  /** `beautify(format, data)`: a format mentioning `xml` is printed as XML, otherwise one
      mentioning `json` as JSON, otherwise the data is returned; a printer that throws leaves
      the data unchanged. */
  function Beautify(env: Env, format: string, data: Json): (r: Json)
    ensures (exists i :: 0 <= i <= |format| && OccursAt(format, "xml", i)) ==>
              r == Printed(env.prettyXml(data), data)
    ensures (forall i :: 0 <= i <= |format| ==> !OccursAt(format, "xml", i)) &&
            (exists i :: 0 <= i <= |format| && OccursAt(format, "json", i)) ==>
              r == Printed(env.prettyJson(data), data)
    ensures (forall i :: 0 <= i <= |format| ==> !OccursAt(format, "xml", i) && !OccursAt(format, "json", i)) ==>
              r == data
    ensures r == data || Some(r) == env.prettyXml(data) || Some(r) == env.prettyJson(data)
  {
    if Contains(format, "xml") then Printed(env.prettyXml(data), data)
    else if Contains(format, "json") then Printed(env.prettyJson(data), data)
    else data
  }

  const SchemaMarker := "\"$schema\""

  /** An exception from a parser, as the formatting stage sees it. */
  function Parsed(r: Result<Json, string>): (p: Result<Json, Failure>)
    ensures r.Ok? <==> p.Ok?
    ensures p.Ok? ==> p.value == r.value
    ensures p.Err? ==> p.error == ParseError(r.error)
  {
    if r.Ok? then Ok(r.value) else Err(ParseError(r.error))
  }

  /** `parseJsonSchema(schema)`: the quoted marker `"$schema"` anywhere in the text selects the
      JSON parser, its absence js-yaml. For an array, `indexOf` compares elements, so the marker
      then has to be an element of its own; anything else has no `indexOf` and throws. */
  function ParseJsonSchema(env: Env, schema: Json): (r: Result<Json, Failure>)
    ensures schema.JStr? && (exists i :: 0 <= i <= |schema.s| && OccursAt(schema.s, SchemaMarker, i)) ==>
              r == Parsed(env.parseJson(schema))
    ensures schema.JStr? && (forall i :: 0 <= i <= |schema.s| ==> !OccursAt(schema.s, SchemaMarker, i)) ==>
              r == Parsed(env.parseYaml(schema))
    ensures schema.JArr? ==>
              r == if JStr(SchemaMarker) in schema.elems then Parsed(env.parseJson(schema)) else Parsed(env.parseYaml(schema))
    ensures !schema.JStr? && !schema.JArr? ==> r == Err(TypeError("schema.indexOf is not a function"))
  {
    match schema
    case JStr(s) => if Contains(s, SchemaMarker) then Parsed(env.parseJson(schema)) else Parsed(env.parseYaml(schema))
    case JArr(es) => if JStr(SchemaMarker) in es then Parsed(env.parseJson(schema)) else Parsed(env.parseYaml(schema))
    case _ => Err(TypeError("schema.indexOf is not a function"))
  }
}
