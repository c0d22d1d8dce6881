/** Flattening parsed documents into operation descriptors
    (`swaggerToDefinitions`) and the tag-prefix filter (`isTarget`). */
module Definitions {
  import opened Seqs
  import opened JsStrings
  import opened Swagger

  /** The path-item properties treated as HTTP methods: every key that does
      not start with `_`. */
  function MethodEntries(entries: seq<(string, Operation)>): (r: seq<(string, Operation)>)
    ensures forall k :: 0 <= k < |r| ==> r[k] in entries && !StartsWith(r[k].0, "_")
    ensures forall k :: 0 <= k < |entries| && !StartsWith(entries[k].0, "_") ==> entries[k] in r
  {
    Filter((e: (string, Operation)) => !StartsWith(e.0, "_"), entries)
  }

  /** The key filter keeps key order: it works entry by entry, keeping
      exactly the entries whose key does not start with `_`. */
  lemma MethodEntriesAppend(a: seq<(string, Operation)>, e: (string, Operation))
    ensures MethodEntries(a + [e]) == MethodEntries(a) + (if StartsWith(e.0, "_") then [] else [e])
  {
    var p := (x: (string, Operation)) => !StartsWith(x.0, "_");
    FilterAppend(p, a, [e]);
    assert [e][1..] == [];
  }

  predicate IsGet(e: (string, Operation))
  {
    ToLowerCase(e.0) == "get"
  }

  /** The method entries whose lower-cased key is not `get`. */
  function NonGetEntries(methods: seq<(string, Operation)>): seq<(string, Operation)>
  {
    Filter(e => !IsGet(e), methods)
  }

  function Describe(path: string, e: (string, Operation)): Descriptor
  {
    Descriptor(path, ToLowerCase(e.0), e.1)
  }

  /** The descriptors of one path item: one per method key, then, when
      `optionsMethod` is set and some key is not `get`, an `options`
      descriptor. */
  function PathItemDefinitions(item: PathItem, options: Options): seq<Descriptor>
  {
    var methods := MethodEntries(item.entries);
    var described := Map(e => Describe(item.path, e), methods);
    var filtered := NonGetEntries(methods);
    if options.optionsMethod && |filtered| > 0 then
      described + [Descriptor(item.path, "options", filtered[0].1)]
    else
      described
  }

  /** One descriptor per method key, in key order, with the method
      lower-cased; then, exactly when `optionsMethod` is set and some key is
      not `get`, one more descriptor with method `options` that reuses the
      operation of the first such key. */
  lemma PathItemDefinitionsSpec(item: PathItem, options: Options)
    ensures var r := PathItemDefinitions(item, options);
      var ms := MethodEntries(item.entries);
      && |r| >= |ms|
      && (forall k :: 0 <= k < |ms| ==> r[k] == Descriptor(item.path, ToLowerCase(ms[k].0), ms[k].1))
      && (|r| == |ms| + 1 <==> options.optionsMethod && exists k :: 0 <= k < |ms| && !IsGet(ms[k]))
      && (|r| != |ms| + 1 ==> |r| == |ms|)
      && (|r| == |ms| + 1 ==>
            r[|ms|].path == item.path && r[|ms|].httpMethod == "options"
            && exists i :: 0 <= i < |ms| && !IsGet(ms[i]) && r[|ms|].op == ms[i].1
                          && forall j :: 0 <= j < i ==> IsGet(ms[j]))
  {
    var methods := MethodEntries(item.entries);
    var filtered := NonGetEntries(methods);
    if options.optionsMethod && |filtered| > 0 {
      FilterHead(e => !IsGet(e), methods);
    }
  }

  /** The descriptors of a list of path items, item by item. */
  function ItemsDefinitions(items: seq<PathItem>, options: Options): seq<Descriptor>
  {
    if |items| == 0 then []
    else PathItemDefinitions(items[0], options) + ItemsDefinitions(items[1..], options)
  }

  /** `swaggerToDefinitions`: every document's path items, in document order. */
  function SwaggerToDefinitions(docs: seq<Document>, options: Options): seq<Descriptor>
  {
    if |docs| == 0 then []
    else ItemsDefinitions(docs[0], options) + SwaggerToDefinitions(docs[1..], options)
  }

  /** Flattening distributes over the list of documents: descriptors of
      earlier documents come first, and the result is the concatenation of
      each document's path items' descriptors. */
  lemma {:induction false} DefinitionsAppend(d1: seq<Document>, d2: seq<Document>, options: Options)
    ensures SwaggerToDefinitions(d1 + d2, options)
         == SwaggerToDefinitions(d1, options) + SwaggerToDefinitions(d2, options)
    decreases |d1|
  {
    if |d1| == 0 {
      assert d1 + d2 == d2;
    } else {
      var d := d1 + d2;
      assert d[0] == d1[0] && d[1..] == d1[1..] + d2;
      var head := ItemsDefinitions(d1[0], options);
      var rest1, rest2 := SwaggerToDefinitions(d1[1..], options), SwaggerToDefinitions(d2, options);
      DefinitionsAppend(d1[1..], d2, options);
      calc {
        SwaggerToDefinitions(d, options);
        head + SwaggerToDefinitions(d1[1..] + d2, options);
        head + (rest1 + rest2);
        (head + rest1) + rest2;
        SwaggerToDefinitions(d1, options) + rest2;
      }
    }
  }

  /** Without `optionsMethod`, exactly one descriptor per method key. */
  lemma {:induction false} ItemsDefinitionsCount(items: seq<PathItem>, options: Options)
    requires !options.optionsMethod
    ensures |ItemsDefinitions(items, options)| == MethodCount(items)
    decreases |items|
  {
    if |items| > 0 {
      ItemsDefinitionsCount(items[1..], options);
    }
  }

  function MethodCount(items: seq<PathItem>): nat
  {
    if |items| == 0 then 0 else |MethodEntries(items[0].entries)| + MethodCount(items[1..])
  }

  /** A tag matches when the API prefix occurs in it at position 0. */
  predicate TagMatches(tag: string, apiPrefix: string)
  {
    IndexOf(tag, apiPrefix) == 0
  }

  /** `isTarget`: false when the operation has no `tags`; otherwise whether
      some tag starts with the API prefix. */
  predicate IsTarget(op: Operation, apiPrefix: string)
  {
    op.tags.Some? && Any(t => TagMatches(t, apiPrefix), op.tags.value)
  }

  /** `isTarget` is the prefix test it intends: false without tags, and
      otherwise true exactly when some tag has `apiPrefix` as a prefix. */
  lemma IsTargetIffPrefixedTag(op: Operation, apiPrefix: string)
    ensures IsTarget(op, apiPrefix) <==>
              op.tags.Some? && exists k :: 0 <= k < |op.tags.value| && apiPrefix <= op.tags.value[k]
  {
    if op.tags.Some? {
      var tags := op.tags.value;
      AnyIsExists(t => TagMatches(t, apiPrefix), tags);
      forall k | 0 <= k < |tags|
        ensures TagMatches(tags[k], apiPrefix) <==> apiPrefix <= tags[k]
      {
        IndexOfZeroIsPrefix(tags[k], apiPrefix);
      }
    }
  }

  /** Edge cases of the filter: no tags or an empty tag list never match,
      and an empty prefix matches any non-empty tag list. */
  lemma IsTargetEdgeCases(op: Operation, apiPrefix: string)
    ensures op.tags.None? ==> !IsTarget(op, apiPrefix)
    ensures op.tags == Some([]) ==> !IsTarget(op, apiPrefix)
    ensures op.tags.Some? && |op.tags.value| > 0 ==> IsTarget(op, "")
  {
    IsTargetIffPrefixedTag(op, "");
    if op.tags.Some? && |op.tags.value| > 0 {
      assert "" <= op.tags.value[0];
    }
  }

  /** The descriptors that pass `isTarget`, in order. */
  function Targets(defs: seq<Descriptor>, apiPrefix: string): (r: seq<Descriptor>)
    ensures forall k :: 0 <= k < |r| ==> r[k] in defs && IsTarget(r[k].op, apiPrefix)
    ensures forall k :: 0 <= k < |defs| && IsTarget(defs[k].op, apiPrefix) ==> defs[k] in r
  {
    Filter((d: Descriptor) => IsTarget(d.op, apiPrefix), defs)
  }
}
