/** The legacy `raml-parser` JSON tree that the loaded RAML document is converted to, as typed
    records. Each record names the fields the pipeline reads or writes; every other key of the
    JavaScript object (`name`, `displayName`, `required`, `title`, `uri`, ...) is kept, in order,
    in its `other` members. A field that is absent or `undefined` is `None`. */
module Raml {
  import opened Wrappers
  import opened Objects
  import opened JsonValues

  /** The `type` field: the parser's array of type names, or the display string it is joined
      into. */
  datatype TypeRef = Names(names: seq<string>) | Label(text: string)

  /** The `items` field of an array type: type names, one type name, or an inline type. */
  datatype Items = ItemNames(names: seq<string>) | ItemName(name: string) | ItemDef(def: TypeDef)

  /** The `properties` object of a type, keyed by property name. */
  datatype PropertyMap = NoProperties | Properties(members: Members<TypeDef>)

  /** A type occurrence: a property, a parameter, a body, or an entry of the global `types`. */
  datatype TypeDef = TypeDef(
    kind: Option<string>,          // typePropertyKind: TYPE_EXPRESSION, JSON, XML, INPLACE
    typeRef: Option<TypeRef>,      // type
    properties: PropertyMap,
    items: Option<Items>,
    description: Option<string>,
    examples: Option<seq<Example>>,
    example: Option<Json>,
    schema: Option<Json>,
    other: Members<Json>)

  datatype Example = Example(description: Option<string>, value: Option<Json>, other: Members<Json>)

  /** The nested `resources` of a resource. */
  datatype ChildList = NoChildren | Children(list: seq<Resource>)

  datatype Resource = Resource(
    relativeUri: string,
    description: Option<string>,
    uriParameters: Option<Members<TypeDef>>,
    methods: Option<seq<Method>>,
    resources: ChildList,
    pathSegments: Option<Json>,    // relativeUriPathSegments
    other: Members<Json>)

  datatype Method = Method(
    description: Option<string>,
    queryParameters: Option<Members<TypeDef>>,
    body: Option<Members<TypeDef>>,                  // keyed by media type
    responses: Option<Members<Option<Response>>>,    // keyed by status code; `null` is None
    other: Members<Json>)

  datatype Response = Response(description: Option<string>, body: Option<Members<TypeDef>>, other: Members<Json>)

  datatype DocSection = DocSection(content: Option<string>, other: Members<Json>)

  datatype Document = Document(
    baseUriParameters: Option<Members<TypeDef>>,
    documentation: Option<seq<DocSection>>,
    resources: Option<seq<Resource>>,
    types: Option<seq<Members<TypeDef>>>,   // list of one-key objects `{ Name: definition }`
    other: Members<Json>)

  function Kids(r: Resource): seq<Resource> {
    if r.resources.Children? then r.resources.list else []
  }

  /** An exception thrown inside the formatting stages, which the pipeline catches. */
  datatype Failure =
    | TypeError(message: string)
    | RangeError(message: string)
    | ParseError(text: string)      // what JSON.parse or js-yaml throws, as its string form

  /** `'' + err`: the text an Error object turns into. */
  function Describe(f: Failure): string {
    match f
    case TypeError(m) => "TypeError: " + m
    case RangeError(m) => "RangeError: " + m
    case ParseError(t) => t
  }

  /** The engine's stack overflow, which deep or cyclic type references run into. */
  const StackOverflow := RangeError("Maximum call stack size exceeded")

  /** The library code the pipeline calls, none of which is modelled: the markdown renderer
      (showdown), the pretty printers (pretty-data; None when the printer throws), the schema
      parsers (JSON.parse and js-yaml's safeLoad) and JSON.stringify. */
  datatype Env = Env(
    makeHtml: string -> string,
    prettyXml: Json -> Option<Json>,
    prettyJson: Json -> Option<Json>,
    parseJson: Json -> Result<Json, string>,
    parseYaml: Json -> Result<Json, string>,
    stringify: Json -> string)

  /** `converter.makeHtml(d)`, and equally `d && converter.makeHtml(d)`: the renderer returns a
      falsy argument unchanged, so only non-empty text is rendered. */
  function Render(env: Env, d: Option<string>): (r: Option<string>)
    ensures HasText(d) ==> r == Some(env.makeHtml(d.value))
    ensures !HasText(d) ==> r == d
  {
    if HasText(d) then Some(env.makeHtml(d.value)) else d
  }

  /** The global types after they are reduced to a name-to-definition object. */
  type TypeMap = map<string, TypeDef>

  /** `types[name]`. */
  function Get(types: TypeMap, name: string): (r: Option<TypeDef>)
    ensures r.Some? <==> name in types
    ensures r.Some? ==> r.value == types[name]
  {
    if name in types then Some(types[name]) else None
  }
}
