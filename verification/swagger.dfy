/** The records the converter reads and writes: parsed API-document path
    items and operations, the converter options, the per-operation
    descriptor, and the deployment-config objects it produces. */
module Swagger {

  datatype Option<+T> = None | Some(value: T)

  /** The authorizer reference is copied into events untouched, so its
      structure is left abstract. */
  type Authorizer(==)

  /** One entry of an operation's `parameters` list. `required` is the
      JavaScript truthiness of the field. */
  datatype Parameter = Parameter(name: string, location: string, required: bool)

  /** An operation object. `tags` is `None` when the field is undefined;
      `operationId` is `None` when it is absent or not a string; a missing
      `parameters` list is the empty list. */
  datatype Operation = Operation(tags: Option<seq<string>>, operationId: Option<string>, parameters: seq<Parameter>)

  /** A path item: its path template (`pathItem.path()`) and its own
      enumerable properties in enumeration order, keyed by property name. */
  datatype PathItem = PathItem(path: string, entries: seq<(string, Operation)>)

  /** A parsed document is its ordered list of path items. */
  type Document = seq<PathItem>

  /** The converter options. String options are unset when empty, which is
      how JavaScript truthiness treats both `undefined` and `""`. */
  datatype Options = Options(
    apiPrefix: string,
    servicePrefix: string,
    basePath: bool,
    functionName: string,
    operationId: bool,
    cors: bool,
    optionsMethod: bool,
    authorizer: Option<Authorizer>)

  /** The case-conversion primitives of the `change-case` package. They are
      supplied from outside and nothing is assumed about them. */
  datatype CaseConversions = CaseConversions(
    paramCase: string -> string,
    dotCase: string -> string,
    pascalCase: string -> string)

  /** One (path, method, operation) triple extracted from a document. */
  datatype Descriptor = Descriptor(path: string, httpMethod: string, op: Operation)

  /** The request parameters: each path parameter name maps to `true`, so
      only the names are kept, in insertion order. */
  datatype RequestParameters = RequestParameters(paths: seq<string>)

  /** The `http` event. `cors` is false when the key is absent, since the
      converter only ever writes `true`. */
  datatype HttpEvent = HttpEvent(
    path: string,
    httpMethod: string,
    integration: string,
    request: Option<RequestParameters>,
    cors: bool,
    authorizer: Option<Authorizer>)

  datatype FunctionDef = FunctionDef(handler: string, events: seq<HttpEvent>)

  /** A `functions` object: function names to definitions, in key order.
      JavaScript object keys are distinct (see `Merge.DistinctKeys`). */
  type FunctionMap = seq<(string, FunctionDef)>

  /** The single-function config built from one descriptor, and also the
      shape of a merged per-service config. */
  datatype ServiceConfig = ServiceConfig(service: string, functions: FunctionMap)

  /** The handler of the function named `functionName`. */
  function Handler(functionName: string): string
  {
    "handler." + functionName
  }

  const LambdaProxy: string := "lambda-proxy"
}
