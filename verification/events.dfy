/** The HTTP event and the single-function config built per descriptor:
    `extractParameters` and `definitionToConfig`. */
module Events {
  import opened Seqs
  import opened JsStrings
  import opened Swagger
  import opened Definitions
  import opened Naming

  /** A parameter located in the path and marked required. */
  predicate IsRequiredPathParam(p: Parameter)
  {
    p.location == "path" && p.required
  }

  /** The loop of `extractParameters` over `params`: the keys written into
      `paths`, in insertion order, and the `nbParams` counter. */
  function CollectPathParams(params: seq<Parameter>): (r: (seq<string>, nat))
    ensures Distinct(r.0)
    ensures forall n :: n in r.0 <==> exists k :: 0 <= k < |params| && IsRequiredPathParam(params[k]) && params[k].name == n
    ensures r.1 == 0 <==> forall k :: 0 <= k < |params| ==> !IsRequiredPathParam(params[k])
  {
    if |params| == 0 then ([], 0)
    else
      var prev := CollectPathParams(params[..|params| - 1]);
      var p := params[|params| - 1];
      assert forall k :: 0 <= k < |params| - 1 ==> params[..|params| - 1][k] == params[k];
      if IsRequiredPathParam(p) then
        (if p.name in prev.0 then prev.0 else prev.0 + [p.name], prev.1 + 1)
      else prev
  }

  /** `extractParameters`: `null` when no parameter is a required path
      parameter, otherwise `{ paths }` with one key per such name. */
  function ExtractParameters(op: Operation): (r: Option<RequestParameters>)
    ensures r.None? <==> forall k :: 0 <= k < |op.parameters| ==> !IsRequiredPathParam(op.parameters[k])
    ensures r.Some? ==> Distinct(r.value.paths)
    ensures r.Some? ==> forall n :: n in r.value.paths <==>
              exists k :: 0 <= k < |op.parameters| && IsRequiredPathParam(op.parameters[k]) && op.parameters[k].name == n
  {
    var (paths, nbParams) := CollectPathParams(op.parameters);
    if nbParams == 0 then None else Some(RequestParameters(paths))
  }

  /** The event path: unchanged without `basePath`; with it, the first
      character is dropped, the rest split on `/`, and the first piece
      removed, leaving `/` when there was only one piece. */
  function EventPath(path: string, basePath: bool): string
  {
    if !basePath then path
    else
      var splited := Split(Drop(path, 1), '/');
      if |splited| == 1 then "/" else "/" + Join(splited[1..], '/')
  }

  /** With `basePath`, the first segment of a `/`-rooted path is removed
      and the rest is kept verbatim; a single-segment path becomes `/`. */
  lemma EventPathDropsFirstSegment(base: string, rest: string)
    requires '/' !in base
    ensures EventPath("/" + base, true) == "/"
    ensures EventPath("/" + base + "/" + rest, true) == "/" + rest
  {
    assert Drop("/" + base, 1) == base;
    SplitNoSep(base, '/');
    var path := "/" + base + "/" + rest;
    assert Drop(path, 1) == base + ['/'] + rest;
    SplitCons(base, '/', rest);
    JoinSplit(rest, '/');
  }

  /** The key of the one function of a fragment: the `functionName` option
      when set, otherwise the derived name. */
  function ChosenFunctionName(d: Descriptor, options: Options, c: CaseConversions): string
  {
    if |options.functionName| > 0 then options.functionName else FunctionName(d, options, c)
  }

  /** The `http` event of a descriptor. */
  function HttpEventOf(d: Descriptor, options: Options): HttpEvent
  {
    HttpEvent(
      EventPath(d.path, options.basePath),
      d.httpMethod,
      LambdaProxy,
      ExtractParameters(d.op),
      options.cors || (options.optionsMethod && d.httpMethod == "get"),
      options.authorizer)
  }

  /** `definitionToConfig`: one function, keyed by the chosen name, with
      handler `handler.<name>` and one `lambda-proxy` event whose path,
      request parameters, CORS flag and authorizer follow the options. */
  function DefinitionToConfig(d: Descriptor, options: Options, c: CaseConversions): (r: ServiceConfig)
    requires IsTarget(d.op, options.apiPrefix)
    ensures r.service == ServiceName(d.op, options, c)
    ensures |r.functions| == 1
    ensures |options.functionName| > 0 ==> r.functions[0].0 == options.functionName
    ensures |options.functionName| == 0 ==> r.functions[0].0 == FunctionName(d, options, c)
    ensures r.functions[0].1.handler == "handler." + r.functions[0].0
    ensures r.functions[0].1.events == [HttpEventOf(d, options)]
    ensures var e := r.functions[0].1.events[0];
      && e.integration == "lambda-proxy"
      && e.httpMethod == d.httpMethod
      && e.path == EventPath(d.path, options.basePath)
      && e.request == ExtractParameters(d.op)
      && (e.cors <==> options.cors || (options.optionsMethod && d.httpMethod == "get"))
      && e.authorizer == options.authorizer
  {
    var service := ServiceName(d.op, options, c);
    var functionName := ChosenFunctionName(d, options, c);
    var handler := Handler(functionName);
    ServiceConfig(service, [(functionName, FunctionDef(handler, [HttpEventOf(d, options)]))])
  }

  /** A `/`-rooted template of non-empty `/`-free parts has one segment
      per part. */
  lemma RootedPathSegments(parts: seq<string>)
    requires |parts| >= 1
    requires forall k :: 0 <= k < |parts| ==> |parts[k]| > 0 && '/' !in parts[k]
    ensures PathSegments("/" + Join(parts, '/')) == Map(Classify, parts)
  {
    var nonEmpty := (w: string) => |w| > 0;
    assert "/" + Join(parts, '/') == "" + ['/'] + Join(parts, '/');
    SplitCons("", '/', Join(parts, '/'));
    SplitJoin(parts, '/');
    FilterKeepsAll(nonEmpty, parts);
    assert Filter(nonEmpty, [""] + parts) == parts;
  }

  lemma SingleSegmentDropped(part: string)
    requires |part| > 0 && '/' !in part
    ensures PathSegments(EventPath("/" + part, true)) == []
  {
    EventPathDropsFirstSegment(part, "");
    assert Split("", '/') == [""];
    assert Split("/", '/') == ["", ""];
    FilterDropsAll((w: string) => |w| > 0, ["", ""]);
  }

  lemma FirstSegmentEventPath(parts: seq<string>)
    requires |parts| >= 2 && '/' !in parts[0]
    ensures EventPath("/" + Join(parts, '/'), true) == "/" + Join(parts[1..], '/')
  {
    var rest := Join(parts[1..], '/');
    assert Join(parts, '/') == parts[0] + ['/'] + rest;
    assert "/" + Join(parts, '/') == "/" + parts[0] + "/" + rest;
    EventPathDropsFirstSegment(parts[0], rest);
  }

  lemma FirstSegmentDropped(parts: seq<string>)
    requires |parts| >= 2
    requires forall k :: 0 <= k < |parts| ==> |parts[k]| > 0 && '/' !in parts[k]
    ensures PathSegments(EventPath("/" + Join(parts, '/'), true)) == Map(Classify, parts[1..])
  {
    FirstSegmentEventPath(parts);
    var tail := parts[1..];
    assert forall k :: 0 <= k < |tail| ==> tail[k] == parts[k + 1];
    RootedPathSegments(tail);
  }

  /** The one-segment case of `BasePathDropsSameSegment`: both sides are
      empty. */
  lemma OneSegmentDropsSame(parts: seq<string>)
    requires |parts| == 1 && |parts[0]| > 0 && '/' !in parts[0]
    ensures PathSegments(EventPath("/" + Join(parts, '/'), true)) == DropBasePath(PathSegments("/" + Join(parts, '/')), true)
  {
    var path := "/" + Join(parts, '/');
    assert path == "/" + parts[0];
    assert PathSegments(EventPath(path, true)) == [] by {
      SingleSegmentDropped(parts[0]);
    }
    assert |PathSegments(path)| == 1 by {
      RootedPathSegments(parts);
    }
  }

  /** The case of two or more segments: both sides are the classified
      segments after the first. */
  lemma ManySegmentsDropSame(parts: seq<string>)
    requires |parts| >= 2
    requires forall k :: 0 <= k < |parts| ==> |parts[k]| > 0 && '/' !in parts[k]
    ensures PathSegments(EventPath("/" + Join(parts, '/'), true)) == DropBasePath(PathSegments("/" + Join(parts, '/')), true)
  {
    var path := "/" + Join(parts, '/');
    var tail := Map(Classify, parts[1..]);
    assert PathSegments(EventPath(path, true)) == tail by {
      FirstSegmentDropped(parts);
    }
    assert DropBasePath(PathSegments(path), true) == tail by {
      RootedPathSegments(parts);
      assert Map(Classify, parts)[1..] == tail;
    }
  }

  /** On a well-formed template, `/` followed by non-empty segments free of
      `/`, the event path with `basePath` has the segments the function
      name derivation keeps: both drop exactly the first segment. */
  lemma BasePathDropsSameSegment(parts: seq<string>)
    requires |parts| >= 1
    requires forall k :: 0 <= k < |parts| ==> |parts[k]| > 0 && '/' !in parts[k]
    ensures PathSegments(EventPath("/" + Join(parts, '/'), true)) == DropBasePath(PathSegments("/" + Join(parts, '/')), true)
  {
    if |parts| == 1 {
      OneSegmentDropsSame(parts);
    } else {
      ManySegmentsDropSame(parts);
    }
  }
}
