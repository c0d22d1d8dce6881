/** The exported conversion: flatten the documents, keep the target
    descriptors, build one config per descriptor and merge them by service. */
module Convert {
  import opened Seqs
  import opened Swagger
  import opened Definitions
  import opened Naming
  import opened Events
  import opened Merge

  predicate AllTargets(defs: seq<Descriptor>, apiPrefix: string)
  {
    forall k :: 0 <= k < |defs| ==> IsTarget(defs[k].op, apiPrefix)
  }

  /** The shape of one fragment, as the merge sees it. */
  lemma FragmentShape(d: Descriptor, options: Options, c: CaseConversions)
    requires IsTarget(d.op, options.apiPrefix)
    ensures var f := DefinitionToConfig(d, options, c);
      && f.service == ServiceName(d.op, options, c)
      && Keys(f.functions) == [ChosenFunctionName(d, options, c)]
      && DistinctKeys(f.functions)
      && HandlersMatchKeys(f.functions)
      && EventsOf(f.functions, ChosenFunctionName(d, options, c)) == [HttpEventOf(d, options)]
  {
    var f := DefinitionToConfig(d, options, c);
    assert f.functions[1..] == [];
  }

  /** The config stage: one single-function config per target descriptor,
      in descriptor order. */
  function Fragments(defs: seq<Descriptor>, options: Options, c: CaseConversions): (r: seq<ServiceConfig>)
    requires AllTargets(defs, options.apiPrefix)
    ensures |r| == |defs|
    ensures AllDistinctKeys(r)
    ensures forall k :: 0 <= k < |defs| ==> r[k] == DefinitionToConfig(defs[k], options, c)
  {
    var r := seq(|defs|, k requires 0 <= k < |defs| => DefinitionToConfig(defs[k], options, c));
    assert AllDistinctKeys(r) by {
      forall k | 0 <= k < |defs|
        ensures DistinctKeys(r[k].functions)
      {
        FragmentShape(defs[k], options, c);
      }
    }
    r
  }

  /** The target descriptors of the documents, in document order. */
  function TargetDefinitions(docs: seq<Document>, options: Options): (r: seq<Descriptor>)
    ensures AllTargets(r, options.apiPrefix)
  {
    Targets(SwaggerToDefinitions(docs, options), options.apiPrefix)
  }

  /** The module's export: documents and options to per-service configs. */
  function ConvertSwagger(docs: seq<Document>, options: Options, c: CaseConversions): seq<ServiceConfig>
  {
    MergeConfigs(Fragments(TargetDefinitions(docs, options), options, c))
  }

  /** The output has one config per service name derived from a target
      descriptor, and no other. */
  lemma ConvertServices(docs: seq<Document>, options: Options, c: CaseConversions, s: string)
    ensures var r := ConvertSwagger(docs, options, c);
      var targets := TargetDefinitions(docs, options);
      (exists i :: 0 <= i < |r| && r[i].service == s)
        <==> exists k :: 0 <= k < |targets| && ServiceName(targets[k].op, options, c) == s
  {
    var targets := TargetDefinitions(docs, options);
    assert ConvertSwagger(docs, options, c) == MergeConfigs(Fragments(targets, options, c));
    FragmentServices(targets, options, c, s);
  }

  /** `ConvertServices` for any list of target descriptors. */
  lemma FragmentServices(targets: seq<Descriptor>, options: Options, c: CaseConversions, s: string)
    requires AllTargets(targets, options.apiPrefix)
    ensures var r := MergeConfigs(Fragments(targets, options, c));
      (exists i :: 0 <= i < |r| && r[i].service == s)
        <==> exists k :: 0 <= k < |targets| && ServiceName(targets[k].op, options, c) == s
  {
    MergeConfigsCover(Fragments(targets, options, c));
  }

  /** Each function key of a service's config is the name chosen for some
      target descriptor of that service, and each such name is a key. */
  lemma {:induction false} ConvertFunctionKeys(docs: seq<Document>, options: Options, c: CaseConversions, i: nat, n: string)
    requires i < |ConvertSwagger(docs, options, c)|
    ensures var r := ConvertSwagger(docs, options, c);
      var targets := TargetDefinitions(docs, options);
      n in Keys(r[i].functions) <==>
        exists k :: 0 <= k < |targets| && ServiceName(targets[k].op, options, c) == r[i].service
                    && ChosenFunctionName(targets[k], options, c) == n
  {
    FragmentsFunctionKeys(TargetDefinitions(docs, options), options, c, i, n);
  }

  lemma {:induction false} FragmentsFunctionKeys(targets: seq<Descriptor>, options: Options, c: CaseConversions, i: nat, n: string)
    requires AllTargets(targets, options.apiPrefix)
    requires i < |MergeConfigs(Fragments(targets, options, c))|
    ensures var entry := MergeConfigs(Fragments(targets, options, c))[i];
      n in Keys(entry.functions) <==>
        exists k :: 0 <= k < |targets| && ServiceName(targets[k].op, options, c) == entry.service
                    && ChosenFunctionName(targets[k], options, c) == n
  {
    var frags := Fragments(targets, options, c);
    var entry := MergeConfigs(frags)[i];
    assert entry.functions == ServiceFunctions(frags, entry.service);
    ServiceFunctionsKeys(frags, entry.service, n);
    FragmentsKeys(targets, options, c);
  }

  /** The service and the one key of every fragment. */
  lemma FragmentsKeys(targets: seq<Descriptor>, options: Options, c: CaseConversions)
    requires AllTargets(targets, options.apiPrefix)
    ensures var frags := Fragments(targets, options, c);
      forall k :: 0 <= k < |frags| ==>
        && frags[k].service == ServiceName(targets[k].op, options, c)
        && Keys(frags[k].functions) == [ChosenFunctionName(targets[k], options, c)]
  {
    var frags := Fragments(targets, options, c);
    forall k | 0 <= k < |frags|
      ensures frags[k].service == ServiceName(targets[k].op, options, c)
      ensures Keys(frags[k].functions) == [ChosenFunctionName(targets[k], options, c)]
    {
      FragmentKey(targets[k], options, c, frags[k]);
    }
  }

  /** The service and the one key of a fragment. */
  lemma FragmentKey(d: Descriptor, options: Options, c: CaseConversions, f: ServiceConfig)
    requires IsTarget(d.op, options.apiPrefix)
    requires f == DefinitionToConfig(d, options, c)
    ensures f.service == ServiceName(d.op, options, c)
    ensures Keys(f.functions) == [ChosenFunctionName(d, options, c)]
  {
    assert f.functions[1..] == [];
  }

  /** The events of the target descriptors of service `s`, in order. */
  function ServiceEvents(targets: seq<Descriptor>, options: Options, c: CaseConversions, s: string): seq<HttpEvent>
    requires AllTargets(targets, options.apiPrefix)
  {
    if |targets| == 0 then []
    else (if ServiceName(targets[0].op, options, c) == s then [HttpEventOf(targets[0], options)] else [])
         + ServiceEvents(targets[1..], options, c, s)
  }

  lemma {:induction false} OverrideEventsFor(targets: seq<Descriptor>, options: Options, c: CaseConversions, s: string)
    requires AllTargets(targets, options.apiPrefix)
    requires |options.functionName| > 0
    ensures EventsFor(Fragments(targets, options, c), s, options.functionName) == ServiceEvents(targets, options, c, s)
    decreases |targets|
  {
    if |targets| > 0 {
      var frags := Fragments(targets, options, c);
      assert Fragments(targets[1..], options, c) == frags[1..];
      OverrideEventsFor(targets[1..], options, c, s);
    }
  }

  /** A map whose keys are exactly `[n]` has the one entry `n`. */
  lemma OneKeyOneEntry(m: FunctionMap, n: string)
    requires Keys(m) == [n]
    ensures |m| == 1 && m[0].0 == n
  {
    assert |m| > 0;
    assert |Keys(m[1..])| == 0;
  }

  /** Merging a map keyed `[n]` into one keyed `[]` or `[n]` leaves it
      keyed `[n]`. */
  lemma OverrideMergeStep(acc: FunctionMap, src: FunctionMap, n: string)
    requires DistinctKeys(acc)
    requires Keys(acc) == [] || Keys(acc) == [n]
    requires Keys(src) == [n]
    ensures Keys(DeepMerge(acc, src)) == [n]
  {
    OneKeyOneEntry(src, n);
    assert src[1..] == [];
    var next := MergeEntry(acc, n, src[0].1);
    assert DeepMerge(acc, src) == DeepMerge(next, []);
  }

  /** When every fragment has the single key `n`, so has any non-empty
      merge of them. */
  lemma {:induction false} OverrideServiceKeys(configs: seq<ServiceConfig>, name: string, n: string)
    requires AllDistinctKeys(configs)
    requires forall k :: 0 <= k < |configs| ==> Keys(configs[k].functions) == [n]
    ensures Keys(ServiceFunctions(configs, name)) == [] || Keys(ServiceFunctions(configs, name)) == [n]
    decreases |configs|
  {
    if |configs| > 0 {
      var prefix := configs[..|configs| - 1];
      var last := configs[|configs| - 1];
      assert forall k :: 0 <= k < |prefix| ==> prefix[k] == configs[k];
      OverrideServiceKeys(prefix, name, n);
      if last.service == name {
        OverrideMergeStep(ServiceFunctions(prefix, name), last.functions, n);
      }
    }
  }

  /** Under the `functionName` override, every fragment has that one key
      and a matching handler. */
  lemma {:induction false} OverrideFragments(targets: seq<Descriptor>, options: Options, c: CaseConversions)
    requires AllTargets(targets, options.apiPrefix)
    requires |options.functionName| > 0
    ensures var frags := Fragments(targets, options, c);
      forall j :: 0 <= j < |frags| ==>
        Keys(frags[j].functions) == [options.functionName] && HandlersMatchKeys(frags[j].functions)
  {
    var frags := Fragments(targets, options, c);
    forall j | 0 <= j < |frags|
      ensures Keys(frags[j].functions) == [options.functionName]
      ensures HandlersMatchKeys(frags[j].functions)
    {
      assert frags[j].functions[1..] == [];
    }
  }

  /** A key every fragment has is a key of every merged service config. */
  lemma {:induction false} SharedKeyMerged(configs: seq<ServiceConfig>, i: nat, n: string)
    requires AllDistinctKeys(configs)
    requires forall j :: 0 <= j < |configs| ==> n in Keys(configs[j].functions)
    requires i < |MergeConfigs(configs)|
    ensures n in Keys(ServiceFunctions(configs, MergeConfigs(configs)[i].service))
  {
    var s := MergeConfigs(configs)[i].service;
    MergeConfigsCover(configs);
    var k :| 0 <= k < |configs| && configs[k].service == s;
    ServiceFunctionsKeys(configs, s, n);
  }

  /** Merging fragments that all have the one key `n` gives each service
      that one key, with its handler. */
  lemma {:induction false} SingleKeyMerged(configs: seq<ServiceConfig>, i: nat, n: string)
    requires AllDistinctKeys(configs)
    requires forall j :: 0 <= j < |configs| ==>
      Keys(configs[j].functions) == [n] && HandlersMatchKeys(configs[j].functions)
    requires i < |MergeConfigs(configs)|
    ensures var entry := MergeConfigs(configs)[i];
      Keys(entry.functions) == [n] && entry.functions[0].1.handler == Handler(n)
  {
    var entry := MergeConfigs(configs)[i];
    var merged := ServiceFunctions(configs, entry.service);
    assert entry.functions == merged;
    SharedKeyMerged(configs, i, n);
    assert Keys(merged) == [n] by {
      OverrideServiceKeys(configs, entry.service, n);
    }
    assert HandlersMatchKeys(merged) by {
      ServiceFunctionsHandlers(configs, entry.service);
    }
    OneKeyOneEntry(merged, n);
  }

  /** With the `functionName` option set, every service has exactly that
      one function, and it carries the events of every target descriptor
      of the service, in input order. */
  lemma {:induction false} FunctionNameOverrideCollapses(docs: seq<Document>, options: Options, c: CaseConversions, i: nat)
    requires |options.functionName| > 0
    requires i < |ConvertSwagger(docs, options, c)|
    ensures var entry := ConvertSwagger(docs, options, c)[i];
      && Keys(entry.functions) == [options.functionName]
      && EventsOf(entry.functions, options.functionName)
           == ServiceEvents(TargetDefinitions(docs, options), options, c, entry.service)
      && entry.functions[0].1.handler == Handler(options.functionName)
  {
    var targets := TargetDefinitions(docs, options);
    var frags := Fragments(targets, options, c);
    var entry := MergeConfigs(frags)[i];
    OverrideFragments(targets, options, c);
    SingleKeyMerged(frags, i, options.functionName);
    ServiceFunctionsEvents(frags, entry.service, options.functionName);
    OverrideEventsFor(targets, options, c, entry.service);
  }
}
