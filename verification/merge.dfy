/** Grouping fragments by service and merging their function maps
    (`mergeConfigs`), with `deepmerge` restricted to the shapes the
    converter builds: keys are unioned, `events` lists are concatenated and
    the `handler` string is overwritten by the later value. */
module Merge {
  import opened Seqs
  import opened Swagger

  /** The keys of a function map, in key order. */
  function Keys(m: FunctionMap): seq<string>
  {
    if |m| == 0 then [] else [m[0].0] + Keys(m[1..])
  }

  /** No key occurs twice, as in any JavaScript object. */
  predicate DistinctKeys(m: FunctionMap)
  {
    |m| == 0 || (m[0].0 !in Keys(m[1..]) && DistinctKeys(m[1..]))
  }

  /** `m[n]`, or `None` when `n` is not a key. */
  function Lookup(m: FunctionMap, n: string): (r: Option<FunctionDef>)
    ensures r.Some? <==> n in Keys(m)
  {
    if |m| == 0 then None
    else if m[0].0 == n then Some(m[0].1)
    else Lookup(m[1..], n)
  }

  /** The events of function `n`, none when it is absent. */
  function EventsOf(m: FunctionMap, n: string): seq<HttpEvent>
  {
    match Lookup(m, n)
    case Some(f) => f.events
    case None => []
  }

  /** Every function's handler is `handler.<its key>`. */
  predicate HandlersMatchKeys(m: FunctionMap)
  {
    forall k :: 0 <= k < |m| ==> m[k].1.handler == Handler(m[k].0)
  }

  /** Deep-merging one function `name: def` into `acc`: a new key is
      appended; an existing one keeps its place, takes the new handler and
      gets the new events after its own. */
  function MergeEntry(acc: FunctionMap, name: string, def: FunctionDef): (r: FunctionMap)
    requires DistinctKeys(acc)
    ensures DistinctKeys(r)
    ensures name in Keys(acc) ==> Keys(r) == Keys(acc)
    ensures name !in Keys(acc) ==> Keys(r) == Keys(acc) + [name]
    ensures EventsOf(r, name) == EventsOf(acc, name) + def.events
    ensures Lookup(r, name).Some? && Lookup(r, name).value.handler == def.handler
    ensures forall n :: n != name ==> Lookup(r, n) == Lookup(acc, n)
    ensures HandlersMatchKeys(acc) && def.handler == Handler(name) ==> HandlersMatchKeys(r)
  {
    if |acc| == 0 then [(name, def)]
    else if acc[0].0 == name then
      [(name, FunctionDef(def.handler, acc[0].1.events + def.events))] + acc[1..]
    else
      var rest := MergeEntry(acc[1..], name, def);
      assert HandlersMatchKeys(acc) ==> HandlersMatchKeys(acc[1..]) by {
        if HandlersMatchKeys(acc) {
          forall k | 0 <= k < |acc[1..]|
            ensures acc[1..][k].1.handler == Handler(acc[1..][k].0)
          {
            assert acc[1..][k] == acc[k + 1];
          }
        }
      }
      [acc[0]] + rest
  }

  /** The first entry of a map and the lookups in the rest. */
  lemma LookupCons(m: FunctionMap, n: string)
    requires |m| > 0
    ensures n in Keys(m) <==> n == m[0].0 || n in Keys(m[1..])
    ensures EventsOf(m, n) == if n == m[0].0 then m[0].1.events else EventsOf(m[1..], n)
    ensures n == m[0].0 ==> Lookup(m, n) == Some(m[0].1)
    ensures n != m[0].0 ==> Lookup(m, n) == Lookup(m[1..], n)
  {
  }

  lemma HandlersTail(m: FunctionMap)
    requires |m| > 0 && HandlersMatchKeys(m)
    ensures m[0].1.handler == Handler(m[0].0) && HandlersMatchKeys(m[1..])
  {
    forall k | 0 <= k < |m[1..]|
      ensures m[1..][k].1.handler == Handler(m[1..][k].0)
    {
      assert m[1..][k] == m[k + 1];
    }
  }

  /** `deepmerge(acc, src)` on function maps: the entries of `src` merged
      into `acc` one by one, in key order. */
  function DeepMerge(acc: FunctionMap, src: FunctionMap): (r: FunctionMap)
    requires DistinctKeys(acc)
    ensures DistinctKeys(r)
    ensures Keys(acc) <= Keys(r)
    decreases |src|
  {
    if |src| == 0 then acc
    else DeepMerge(MergeEntry(acc, src[0].0, src[0].1), src[1..])
  }

  /** Merging unions the keys. */
  lemma {:induction false} DeepMergeKeys(acc: FunctionMap, src: FunctionMap, n: string)
    requires DistinctKeys(acc)
    ensures n in Keys(DeepMerge(acc, src)) <==> n in Keys(acc) || n in Keys(src)
    decreases |src|
  {
    if |src| > 0 {
      var next := MergeEntry(acc, src[0].0, src[0].1);
      DeepMergeKeys(next, src[1..], n);
      LookupCons(src, n);
      assert n in Keys(next) <==> n in Keys(acc) || n == src[0].0 by {
        if n != src[0].0 {
          assert Lookup(next, n) == Lookup(acc, n);
        }
      }
    }
  }

  /** Merging appends each function's events from `src` after those in
      `acc`, and leaves functions that `src` lacks untouched. */
  lemma {:induction false} DeepMergeEvents(acc: FunctionMap, src: FunctionMap, n: string)
    requires DistinctKeys(acc) && DistinctKeys(src)
    ensures EventsOf(DeepMerge(acc, src), n) == EventsOf(acc, n) + EventsOf(src, n)
    ensures n !in Keys(src) ==> Lookup(DeepMerge(acc, src), n) == Lookup(acc, n)
    decreases |src|
  {
    if |src| > 0 {
      var name, def := src[0].0, src[0].1;
      var next := MergeEntry(acc, name, def);
      DeepMergeEvents(next, src[1..], n);
      LookupCons(src, n);
      if n == name {
        assert EventsOf(src[1..], n) == [];
      } else {
        assert Lookup(next, n) == Lookup(acc, n);
      }
    }
  }

  /** Merging keeps every handler equal to `handler.<key>`. */
  lemma {:induction false} DeepMergeHandlers(acc: FunctionMap, src: FunctionMap)
    requires DistinctKeys(acc)
    requires HandlersMatchKeys(acc) && HandlersMatchKeys(src)
    ensures HandlersMatchKeys(DeepMerge(acc, src))
    decreases |src|
  {
    if |src| > 0 {
      HandlersTail(src);
      DeepMergeHandlers(MergeEntry(acc, src[0].0, src[0].1), src[1..]);
    }
  }

  /** Reference: the events that function `n` of service `name` should
      carry, the events of every fragment of that service, in input order. */
  function EventsFor(configs: seq<ServiceConfig>, name: string, n: string): seq<HttpEvent>
  {
    if |configs| == 0 then []
    else (if configs[0].service == name then EventsOf(configs[0].functions, n) else [])
         + EventsFor(configs[1..], name, n)
  }

  lemma {:induction false} EventsForSnoc(configs: seq<ServiceConfig>, name: string, n: string)
    requires |configs| > 0
    ensures var last := configs[|configs| - 1];
      EventsFor(configs, name, n)
        == EventsFor(configs[..|configs| - 1], name, n)
           + (if last.service == name then EventsOf(last.functions, n) else [])
    decreases |configs|
  {
    if |configs| > 1 {
      assert configs[1..][..|configs[1..]| - 1] == configs[..|configs| - 1][1..];
      EventsForSnoc(configs[1..], name, n);
    }
  }

  predicate AllDistinctKeys(configs: seq<ServiceConfig>)
  {
    forall k :: 0 <= k < |configs| ==> DistinctKeys(configs[k].functions)
  }

  /** The merged function map of service `name`: every fragment of that
      service deep-merged into `{}`, in input order. */
  function ServiceFunctions(configs: seq<ServiceConfig>, name: string): (r: FunctionMap)
    requires AllDistinctKeys(configs)
    ensures DistinctKeys(r)
  {
    if |configs| == 0 then []
    else
      var prefix := configs[..|configs| - 1];
      var last := configs[|configs| - 1];
      assert AllDistinctKeys(prefix) by {
        assert forall k :: 0 <= k < |prefix| ==> prefix[k] == configs[k];
      }
      var acc := ServiceFunctions(prefix, name);
      if last.service == name then DeepMerge(acc, last.functions) else acc
  }

  /** A service's merged keys are the union of its fragments' keys. */
  lemma {:induction false} ServiceFunctionsKeys(configs: seq<ServiceConfig>, name: string, n: string)
    requires AllDistinctKeys(configs)
    ensures n in Keys(ServiceFunctions(configs, name)) <==>
              exists k :: 0 <= k < |configs| && configs[k].service == name && n in Keys(configs[k].functions)
    decreases |configs|
  {
    if |configs| > 0 {
      var prefix := configs[..|configs| - 1];
      var last := configs[|configs| - 1];
      assert forall k :: 0 <= k < |prefix| ==> prefix[k] == configs[k];
      ServiceFunctionsKeys(prefix, name, n);
      if last.service == name {
        DeepMergeKeys(ServiceFunctions(prefix, name), last.functions, n);
      }
    }
  }

  /** A function's merged events are the events of every fragment of the
      service under that name, concatenated in input order. */
  lemma {:induction false} ServiceFunctionsEvents(configs: seq<ServiceConfig>, name: string, n: string)
    requires AllDistinctKeys(configs)
    ensures EventsOf(ServiceFunctions(configs, name), n) == EventsFor(configs, name, n)
    decreases |configs|
  {
    if |configs| > 0 {
      var prefix := configs[..|configs| - 1];
      var last := configs[|configs| - 1];
      assert forall k :: 0 <= k < |prefix| ==> prefix[k] == configs[k];
      ServiceFunctionsEvents(prefix, name, n);
      EventsForSnoc(configs, name, n);
      if last.service == name {
        DeepMergeEvents(ServiceFunctions(prefix, name), last.functions, n);
      }
    }
  }

  /** Merging keeps every handler equal to `handler.<key>`. */
  lemma {:induction false} ServiceFunctionsHandlers(configs: seq<ServiceConfig>, name: string)
    requires AllDistinctKeys(configs)
    requires forall k :: 0 <= k < |configs| ==> HandlersMatchKeys(configs[k].functions)
    ensures HandlersMatchKeys(ServiceFunctions(configs, name))
    decreases |configs|
  {
    if |configs| > 0 {
      var prefix := configs[..|configs| - 1];
      var last := configs[|configs| - 1];
      assert forall k :: 0 <= k < |prefix| ==> prefix[k] == configs[k];
      ServiceFunctionsHandlers(prefix, name);
      if last.service == name {
        DeepMergeHandlers(ServiceFunctions(prefix, name), last.functions);
      }
    }
  }

  predicate HasService(configs: seq<ServiceConfig>, s: string)
  {
    exists k :: 0 <= k < |configs| && configs[k].service == s
  }

  /** The position of the first fragment of service `s`. */
  function FirstIndex(configs: seq<ServiceConfig>, s: string): (r: nat)
    requires HasService(configs, s)
    ensures r < |configs| && configs[r].service == s
    ensures forall k :: 0 <= k < r ==> configs[k].service != s
  {
    if configs[0].service == s then 0
    else
      var k :| 0 <= k < |configs| && configs[k].service == s;
      assert configs[1..][k - 1] == configs[k];
      1 + FirstIndex(configs[1..], s)
  }

  lemma FirstIndexInPrefix(configs: seq<ServiceConfig>, s: string)
    requires |configs| > 0 && HasService(configs[..|configs| - 1], s)
    ensures HasService(configs, s)
    ensures FirstIndex(configs[..|configs| - 1], s) == FirstIndex(configs, s)
  {
    var prefix := configs[..|configs| - 1];
    var a := FirstIndex(prefix, s);
    assert configs[a] == prefix[a];
    assert HasService(configs, s);
    var b := FirstIndex(configs, s);
    assert b <= a;
    assert prefix[b] == configs[b];
  }

  /** The services of a list are those of its prefix and that of its last
      element. */
  lemma HasServiceSnoc(configs: seq<ServiceConfig>)
    requires |configs| > 0
    ensures forall x :: (HasService(configs, x)
              <==> HasService(configs[..|configs| - 1], x) || x == configs[|configs| - 1].service)
  {
    var prefix := configs[..|configs| - 1];
    assert forall k :: 0 <= k < |prefix| ==> prefix[k] == configs[k];
    forall x | HasService(configs, x) && x != configs[|configs| - 1].service
      ensures HasService(prefix, x)
    {
      var k :| 0 <= k < |configs| && configs[k].service == x;
      assert prefix[k] == configs[k];
    }
  }

  /** A name list that is distinct, holds exactly the services of
      `configs`, and is ordered by first occurrence. */
  ghost predicate FirstSeenNames(configs: seq<ServiceConfig>, r: seq<string>)
  {
    && Distinct(r)
    && (forall s :: s in r <==> HasService(configs, s))
    && (forall i, j :: 0 <= i < j < |r| ==> FirstIndex(configs, r[i]) < FirstIndex(configs, r[j]))
  }

  /** Names seen in a prefix keep their first index in the whole list. */
  lemma FirstIndicesInPrefix(configs: seq<ServiceConfig>, acc: seq<string>)
    requires |configs| > 0
    requires forall i :: 0 <= i < |acc| ==> HasService(configs[..|configs| - 1], acc[i])
    ensures forall i :: 0 <= i < |acc| ==> HasService(configs, acc[i])
    ensures forall i :: 0 <= i < |acc| ==>
              FirstIndex(configs[..|configs| - 1], acc[i]) == FirstIndex(configs, acc[i])
  {
    forall i | 0 <= i < |acc|
      ensures HasService(configs, acc[i])
      ensures FirstIndex(configs[..|configs| - 1], acc[i]) == FirstIndex(configs, acc[i])
    {
      FirstIndexInPrefix(configs, acc[i]);
    }
  }

  /** A service first seen in the last element has that element's index. */
  lemma FirstIndexOfNewcomer(configs: seq<ServiceConfig>)
    requires |configs| > 0
    requires !HasService(configs[..|configs| - 1], configs[|configs| - 1].service)
    ensures HasService(configs, configs[|configs| - 1].service)
    ensures FirstIndex(configs, configs[|configs| - 1].service) == |configs| - 1
  {
    var prefix := configs[..|configs| - 1];
    var s := configs[|configs| - 1].service;
    assert HasService(configs, s);
    assert forall k :: 0 <= k < |prefix| ==> prefix[k] == configs[k];
  }

  /** One step of filling the `Set`: add the last fragment's service unless
      it was already seen. */
  lemma ServiceNamesStep(configs: seq<ServiceConfig>, acc: seq<string>)
    requires |configs| > 0
    requires FirstSeenNames(configs[..|configs| - 1], acc)
    ensures var s := configs[|configs| - 1].service;
      FirstSeenNames(configs, if s in acc then acc else acc + [s])
  {
    var prefix := configs[..|configs| - 1];
    var s := configs[|configs| - 1].service;
    HasServiceSnoc(configs);
    assert forall i :: 0 <= i < |acc| ==> acc[i] in acc;
    FirstIndicesInPrefix(configs, acc);
    if s !in acc {
      FirstIndexOfNewcomer(configs);
      var r := acc + [s];
      forall i, j | 0 <= i < j < |r|
        ensures FirstIndex(configs, r[i]) < FirstIndex(configs, r[j])
      {
        if j < |acc| {
          assert FirstIndex(prefix, acc[i]) < FirstIndex(prefix, acc[j]);
        } else {
          assert FirstIndex(prefix, acc[i]) < |prefix|;
        }
      }
    }
  }

  /** The distinct service names in first-seen order: a JavaScript `Set`
      filled in input order. */
  function ServiceNames(configs: seq<ServiceConfig>): (r: seq<string>)
    ensures Distinct(r)
    ensures forall s :: s in r <==> HasService(configs, s)
    ensures forall i, j :: 0 <= i < j < |r| ==> FirstIndex(configs, r[i]) < FirstIndex(configs, r[j])
  {
    if |configs| == 0 then []
    else
      var s := configs[|configs| - 1].service;
      var acc := ServiceNames(configs[..|configs| - 1]);
      ServiceNamesStep(configs, acc);
      if s in acc then acc else acc + [s]
  }

  /** `mergeConfigs`: one config per distinct service name, in first-seen
      order, whose functions are that service's fragments merged. */
  function MergeConfigs(configs: seq<ServiceConfig>): (r: seq<ServiceConfig>)
    requires AllDistinctKeys(configs)
    ensures |r| == |ServiceNames(configs)|
    ensures forall i :: 0 <= i < |r| ==> r[i].service == ServiceNames(configs)[i]
    ensures forall i :: 0 <= i < |r| ==> r[i].functions == ServiceFunctions(configs, r[i].service)
  {
    var names := ServiceNames(configs);
    seq(|names|, i requires 0 <= i < |names| => ServiceConfig(names[i], ServiceFunctions(configs, names[i])))
  }

  /** No service appears twice among the merged configs. */
  lemma MergeConfigsDistinct(configs: seq<ServiceConfig>)
    requires AllDistinctKeys(configs)
    ensures var r := MergeConfigs(configs);
      forall i, j :: 0 <= i < j < |r| ==> r[i].service != r[j].service
  {
    var names := ServiceNames(configs);
    assert Distinct(names);
  }

  /** The merged configs cover exactly the services of the input. */
  lemma MergeConfigsCover(configs: seq<ServiceConfig>)
    requires AllDistinctKeys(configs)
    ensures var r := MergeConfigs(configs);
      && (forall k :: 0 <= k < |configs| ==> exists i :: 0 <= i < |r| && r[i].service == configs[k].service)
      && (forall i :: 0 <= i < |r| ==> exists k :: 0 <= k < |configs| && configs[k].service == r[i].service)
  {
    var r := MergeConfigs(configs);
    var names := ServiceNames(configs);
    forall k | 0 <= k < |configs|
      ensures exists i :: 0 <= i < |r| && r[i].service == configs[k].service
    {
      var s := configs[k].service;
      assert s in names;
      var i :| 0 <= i < |names| && names[i] == s;
      assert r[i].service == s;
    }
    forall i | 0 <= i < |r|
      ensures exists k :: 0 <= k < |configs| && configs[k].service == r[i].service
    {
      assert r[i].service == names[i];
      assert names[i] in names;
      var k :| 0 <= k < |configs| && configs[k].service == names[i];
    }
  }

  /** The merged configs come in the order their services are first seen. */
  lemma MergeConfigsOrder(configs: seq<ServiceConfig>)
    requires AllDistinctKeys(configs)
    ensures var r := MergeConfigs(configs);
      forall i, j :: 0 <= i < j < |r| ==>
        HasService(configs, r[i].service) && HasService(configs, r[j].service)
        && FirstIndex(configs, r[i].service) < FirstIndex(configs, r[j].service)
  {
    var names := ServiceNames(configs);
    assert forall i :: 0 <= i < |names| ==> names[i] in names;
  }

  /** Each merged service config: distinct function keys, the union of its
      fragments' keys, each function's events those of all its fragments in
      input order, and handlers still named after their keys. */
  lemma MergedServiceFunctions(configs: seq<ServiceConfig>, i: nat, n: string)
    requires AllDistinctKeys(configs)
    requires i < |MergeConfigs(configs)|
    ensures var entry := MergeConfigs(configs)[i];
      && DistinctKeys(entry.functions)
      && (n in Keys(entry.functions) <==>
            exists k :: 0 <= k < |configs| && configs[k].service == entry.service && n in Keys(configs[k].functions))
      && EventsOf(entry.functions, n) == EventsFor(configs, entry.service, n)
      && ((forall k :: 0 <= k < |configs| ==> HandlersMatchKeys(configs[k].functions)) ==> HandlersMatchKeys(entry.functions))
  {
    var entry := MergeConfigs(configs)[i];
    ServiceFunctionsKeys(configs, entry.service, n);
    ServiceFunctionsEvents(configs, entry.service, n);
    if forall k :: 0 <= k < |configs| ==> HandlersMatchKeys(configs[k].functions) {
      ServiceFunctionsHandlers(configs, entry.service);
    }
  }
}
