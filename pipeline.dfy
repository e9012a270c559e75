/** The per-document control flow of `processOneRamlFile` (lines 209-266): the validation gate
    on the loader's diagnostics, the three formatting stages in order (prune, unnest, format)
    and the wrapping of any failure into the task's error message; and the task's walk over
    its files, which stops at the first error. */
module Pipeline {
  import opened Wrappers
  import opened Text
  import opened Raml
  import opened Pruner
  import opened Flattener
  import opened Formatter

  /** A diagnostic of the loaded API: `isWarning`, `path`, `range.start.line` and `message`. */
  datatype Diagnostic = Diagnostic(isWarning: bool, path: string, line: nat, message: string)

  /** What the loader yields: `RAMLVersion()`, `errors()` and the legacy JSON tree `toJSON(...)`. */
  datatype Loaded = Loaded(version: string, errors: seq<Diagnostic>, tree: Document)

  /** `errors.find(e => !e.isWarning)`, as the index of the diagnostic found. */
  function FirstError(ds: seq<Diagnostic>): (r: Option<nat>)
    ensures r.Some? ==> r.value < |ds| && !ds[r.value].isWarning &&
                        forall k :: 0 <= k < r.value ==> ds[k].isWarning
    ensures r.None? <==> forall k :: 0 <= k < |ds| ==> ds[k].isWarning
  {
    if ds == [] then None
    else if !ds[0].isWarning then Some(0)
    else
      var rest := FirstError(ds[1..]);
      if rest.None? then None else Some(rest.value + 1)
  }

  /** Line 225: the message the task stops with on a validation error. */
  function ValidationMessage(version: string, d: Diagnostic): string {
    "Error " + version + " (" + d.path + ":" + NatToString(d.line) + ") " + d.message
  }

  /** Lines 242-243: the pruned tree with its resources flattened by `unnest(resources, [], '')`. */
  function Flat(d: Document): Document {
    var p := OmitUndesired(d);
    p.(resources := Some(Reverse(PostOrder(p.resources.GetOr([]), "", None, None))))
  }

  /** Lines 242-244: prune, flatten, then format. */
  function Prepared(env: Env, d: Document, fuel: nat): Result<Document, Failure> {
    Formatted(env, Flat(d), fuel)
  }

  /** Line 247: `'Error formatting ' + src + ' ' + err`. */
  function FormattingMessage(src: string, f: Failure): string {
    "Error formatting " + src + " " + Describe(f)
  }

  /** `processOneRamlFile` from the loaded API on: `Ok` with the document it writes, or `Err`
      with the message it passes to its callback. */
  function ProcessOne(loaded: Loaded, src: string, validate: bool, env: Env, fuel: nat): (r: Result<Document, string>)
    ensures validate && FirstError(loaded.errors).Some? ==>
              r == Err(ValidationMessage(loaded.version, loaded.errors[FirstError(loaded.errors).value]))
    ensures !validate || (forall k :: 0 <= k < |loaded.errors| ==> loaded.errors[k].isWarning) ==>
              match Prepared(env, loaded.tree, fuel)
              case Ok(out) => r == Ok(out)
              case Err(f) => r == Err(FormattingMessage(src, f))
  {
    var first := FirstError(loaded.errors);
    if first.Some? && validate then Err(ValidationMessage(loaded.version, loaded.errors[first.value]))
    else
      match Prepared(env, loaded.tree, fuel)
      case Ok(out) => Ok(out)
      case Err(f) => Err(FormattingMessage(src, f))
  }

  method ProcessOneRamlFile(loaded: Loaded, src: string, validate: bool, env: Env, fuel: nat) returns (r: Result<Document, string>)
    ensures r == ProcessOne(loaded, src, validate, env, fuel)
  {
    var first := FirstError(loaded.errors);
    if first.Some? && validate {
      return Err(ValidationMessage(loaded.version, loaded.errors[first.value]));
    }
    var pruned := OmitUndesired(loaded.tree);
    var flat := Unnest(pruned.resources.GetOr([]), [], "", None, None);
    assert flat == Reverse(PostOrder(pruned.resources.GetOr([]), "", None, None));
    var out := FormatForDisplay(env, pruned.(resources := Some(flat)), fuel);
    if out.Err? {
      return Err(FormattingMessage(src, out.error));
    }
    return Ok(out.value);
  }

  /** A document that passes the three stages ends with every resource of the pruned tree as a
      top-level resource, in reverse post-order: it carries the concatenated path of its chain of
      ancestors, the description pushed down that chain and then rendered, the URI parameters
      pushed down that chain and then converted and flagged, and no `resources`,
      `relativeUriPathSegments` or `types`. */
  lemma PreparedDocument(env: Env, d: Document, fuel: nat)
    requires Prepared(env, d, fuel).Ok?
    ensures var out := Prepared(env, d, fuel).value;
            var tree := OmitUndesired(d).resources.GetOr([]);
            var chains := Reverse(Chains(tree));
            var types := TypeTable(OmitUndesired(d).types.GetOr([]));
            out.types.None? && out.resources.Some? &&
            |out.resources.value| == SizeAll(tree) == |chains| &&
            forall i :: 0 <= i < |out.resources.value| ==>
              IsPath(tree, chains[i]) &&
              out.resources.value[i].resources == NoChildren &&
              out.resources.value[i].pathSegments.None? &&
              out.resources.value[i].relativeUri == ConcatUris(chains[i]) &&
              out.resources.value[i].description == Render(env, ChainDescription(None, chains[i])) &&
              ParamsConverted(ChainParams(None, chains[i]), out.resources.value[i].uriParameters, true, types, env, fuel)
  {
    var tree := OmitUndesired(d).resources.GetOr([]);
    var chains := Reverse(Chains(tree));
    FlattenedResources(tree);
    var flat := Flat(d).resources.value;
    var out := Prepared(env, d, fuel).value;
    var types := TypeTable(OmitUndesired(d).types.GetOr([]));
    assert Flat(d).types == OmitUndesired(d).types;
    assert ResourcesFormatted(env, types, fuel, flat, out.resources.value);
    forall i | 0 <= i < |flat|
      ensures out.resources.value[i].resources == NoChildren &&
              out.resources.value[i].pathSegments.None? &&
              out.resources.value[i].relativeUri == ConcatUris(chains[i]) &&
              out.resources.value[i].description == Render(env, ChainDescription(None, chains[i])) &&
              ParamsConverted(ChainParams(None, chains[i]), out.resources.value[i].uriParameters, true, types, env, fuel)
    {
      FormattedFromChain(env, types, fuel, chains[i], flat[i], out.resources.value[i]);
    }
  }

  /** One flattened resource after formatting. */
  lemma FormattedFromChain(env: Env, types: TypeMap, fuel: nat, chain: seq<Resource>, x: Resource, y: Resource)
    requires chain != []
    requires x == FromChain("", None, None, chain)
    requires ResourceFormatted(env, types, fuel, x, y)
    ensures y.resources == NoChildren && y.pathSegments.None? && y.relativeUri == "" + ConcatUris(chain)
    ensures y.description == Render(env, ChainDescription(None, chain))
    ensures ParamsConverted(ChainParams(None, chain), y.uriParameters, true, types, env, fuel)
  {
  }

  /** Pruning comes first and is idempotent: processing an already pruned tree gives the same
      outcome. */
  lemma PruneFirst(loaded: Loaded, src: string, validate: bool, env: Env, fuel: nat)
    ensures ProcessOne(loaded, src, validate, env, fuel) ==
            ProcessOne(loaded.(tree := OmitUndesired(loaded.tree)), src, validate, env, fuel)
  {
    OmitUndesiredIdempotent(loaded.tree);
  }

  // ---- the task's walk over its files (lines 288-315), stated abstractly

  /** How the walk over the task's files ends: every file succeeded, or it stopped at file
      `index` with the error that file reported. */
  datatype BatchOutcome = AllDone(written: seq<Document>) | Stopped(index: nat, error: string)

  /** `forEachSeries` over the files, with `run` the outcome of one file; the first error ends
      the walk and later files are never processed. */
  function Batch<J>(jobs: seq<J>, run: J -> Result<Document, string>): (r: BatchOutcome)
    ensures r.AllDone? <==> forall k :: 0 <= k < |jobs| ==> run(jobs[k]).Ok?
    ensures r.AllDone? ==> |r.written| == |jobs| && forall k :: 0 <= k < |jobs| ==> run(jobs[k]) == Ok(r.written[k])
    ensures r.Stopped? ==> r.index < |jobs| && run(jobs[r.index]) == Err(r.error) &&
                           forall k :: 0 <= k < r.index ==> run(jobs[k]).Ok?
    decreases |jobs|
  {
    if jobs == [] then AllDone([])
    else
      match run(jobs[0])
      case Err(e) => Stopped(0, e)
      case Ok(out) =>
        var rest := Batch(jobs[1..], run);
        if rest.Stopped? then Stopped(rest.index + 1, rest.error)
        else AllDone([out] + rest.written)
  }

  method RunBatch<J>(jobs: seq<J>, run: J -> Result<Document, string>) returns (r: BatchOutcome)
    ensures r == Batch(jobs, run)
  {
    var written: seq<Document> := [];
    var i := 0;
    while i < |jobs|
      invariant 0 <= i <= |jobs| && |written| == i
      invariant forall k :: 0 <= k < i ==> run(jobs[k]) == Ok(written[k])
    {
      var o := run(jobs[i]);
      if o.Err? {
        BatchStopsAt(jobs, run, i);
        return Stopped(i, o.error);
      }
      written := written + [o.value];
      i := i + 1;
    }
    BatchAllDone(jobs, run, written);
    return AllDone(written);
  }

  lemma BatchStopsAt<J>(jobs: seq<J>, run: J -> Result<Document, string>, i: nat)
    requires i < |jobs| && run(jobs[i]).Err?
    requires forall k :: 0 <= k < i ==> run(jobs[k]).Ok?
    ensures Batch(jobs, run) == Stopped(i, run(jobs[i]).error)
  {
    assert !run(jobs[i]).Ok?;
  }

  lemma BatchAllDone<J>(jobs: seq<J>, run: J -> Result<Document, string>, written: seq<Document>)
    requires |written| == |jobs|
    requires forall k :: 0 <= k < |jobs| ==> run(jobs[k]) == Ok(written[k])
    ensures Batch(jobs, run) == AllDone(written)
  {
    var r := Batch(jobs, run);
    assert r.AllDone?;
    assert r.written == written;
  }
}
