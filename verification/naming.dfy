/** Name derivation: the service name from the first matching tag
    (`extractServiceName`) and the function name from the HTTP method and
    the path template (`extractFunctionName`). */
module Naming {
  import opened Seqs
  import opened JsStrings
  import opened Swagger
  import opened Definitions

  /** A non-empty path segment: literal text, or a `{name}` parameter. */
  datatype Segment = Literal(text: string) | Param(name: string)

  /** The characters JavaScript's `.` does not match in a regular expression. */
  predicate IsLineTerminator(ch: char)
  {
    ch == '\n' || ch == '\r' || ch == '\U{2028}' || ch == '\U{2029}'
  }

  /** The parameter pattern of `extractFunctionName`: an opening brace, any
      characters other than line terminators, a closing brace, and nothing
      else. */
  predicate IsParamText(w: string)
  {
    && |w| >= 2
    && w[0] == '{'
    && w[|w| - 1] == '}'
    && forall k :: 1 <= k < |w| - 1 ==> !IsLineTerminator(w[k])
  }

  /** A segment's text: a literal keeps it, a parameter is named by what
      lies between the braces. */
  function Classify(w: string): (s: Segment)
    ensures s.Literal? <==> !IsParamText(w)
    ensures s.Literal? ==> s.text == w
    ensures s.Param? ==> w == "{" + s.name + "}"
  {
    if IsParamText(w) then Param(w[1..|w| - 1]) else Literal(w)
  }

  /** Every literal segment is text that the parameter pattern rejects. */
  predicate Classified(segs: seq<Segment>)
  {
    forall k :: 0 <= k < |segs| && segs[k].Literal? ==> !IsParamText(segs[k].text)
  }

  /** The non-empty pieces of the path between slashes, each classified. */
  function PathSegments(path: string): (segs: seq<Segment>)
    ensures Classified(segs)
  {
    Map(Classify, Filter((w: string) => |w| > 0, Split(path, '/')))
  }

  /** Under the `basePath` option the first segment is dropped. */
  function DropBasePath(segs: seq<Segment>, basePath: bool): seq<Segment>
  {
    if basePath && |segs| > 0 then segs[1..] else segs
  }

  // ---------------------------------------------------------------------
  // Resources: the `reduce` over the segments, and what it computes.
  // ---------------------------------------------------------------------

  /** One step of the reduction: a parameter leaves the accumulator alone;
      a literal right after a parameter restarts it; any other literal is
      appended. */
  function ResourceStep(acc: seq<string>, segs: seq<Segment>, i: nat): seq<string>
    requires i < |segs|
  {
    match segs[i]
    case Param(_) => acc
    case Literal(w) => if i > 0 && segs[i - 1].Param? then [w] else acc + [w]
  }

  /** The left-to-right reduction from position `i` with accumulator `acc`. */
  function ReduceResources(segs: seq<Segment>, i: nat, acc: seq<string>): seq<string>
    requires i <= |segs|
    decreases |segs| - i
  {
    if i == |segs| then acc
    else ReduceResources(segs, i + 1, ResourceStep(acc, segs, i))
  }

  /** The resource list as `extractFunctionName` reduces it, starting from
      the empty list. */
  function Resources(segs: seq<Segment>): seq<string>
  {
    ReduceResources(segs, 0, [])
  }

  /** The texts of the literal segments, parameters skipped. */
  function LiteralTexts(segs: seq<Segment>): seq<string>
  {
    if |segs| == 0 then []
    else match segs[|segs| - 1]
      case Param(_) => LiteralTexts(segs[..|segs| - 1])
      case Literal(w) => LiteralTexts(segs[..|segs| - 1]) + [w]
  }

  /** The texts of the literals that end the list, after its last parameter. */
  function TrailingLiterals(segs: seq<Segment>): seq<string>
  {
    if |segs| == 0 then []
    else match segs[|segs| - 1]
      case Param(_) => []
      case Literal(w) => TrailingLiterals(segs[..|segs| - 1]) + [w]
  }

  /** Reference definition of the resources: the texts of the last maximal
      run of consecutive literal segments. */
  function LastLiteralRun(segs: seq<Segment>): seq<string>
  {
    if |segs| == 0 then []
    else match segs[|segs| - 1]
      case Param(_) => LastLiteralRun(segs[..|segs| - 1])
      case Literal(_) => TrailingLiterals(segs)
  }

  /** Appending one segment to a prefix is one reduction step. */
  lemma StepExtendsLastRun(segs: seq<Segment>, i: nat)
    requires i < |segs|
    ensures LastLiteralRun(segs[..i + 1]) == ResourceStep(LastLiteralRun(segs[..i]), segs, i)
  {
    var p, q := segs[..i], segs[..i + 1];
    assert q[..|q| - 1] == p;
    assert q[|q| - 1] == segs[i];
    if segs[i].Literal? {
      assert LastLiteralRun(q) == TrailingLiterals(p) + [segs[i].text];
      if i > 0 {
        assert p[|p| - 1] == segs[i - 1];
        if segs[i - 1].Literal? {
          assert LastLiteralRun(p) == TrailingLiterals(p);
        }
      }
    }
  }

  lemma {:induction false} ReduceFromPrefix(segs: seq<Segment>, i: nat)
    requires i <= |segs|
    ensures ReduceResources(segs, i, LastLiteralRun(segs[..i])) == LastLiteralRun(segs)
    decreases |segs| - i
  {
    if i == |segs| {
      assert segs[..i] == segs;
    } else {
      StepExtendsLastRun(segs, i);
      ReduceFromPrefix(segs, i + 1);
    }
  }

  /** The reduction in `extractFunctionName` computes the last maximal run
      of literals. */
  lemma ResourcesIsLastLiteralRun(segs: seq<Segment>)
    ensures Resources(segs) == LastLiteralRun(segs)
  {
    assert segs[..0] == [];
    ReduceFromPrefix(segs, 0);
  }

  /** `segs[i..]` is the maximal run of literals that ends the list. */
  predicate IsTrailingRun(segs: seq<Segment>, i: nat)
  {
    && i <= |segs|
    && (forall k :: i <= k < |segs| ==> segs[k].Literal?)
    && (0 < i ==> segs[i - 1].Param?)
  }

  /** `segs[i..j]` is the last maximal run of literals: preceded by a
      parameter or the start, and followed only by parameters. */
  predicate IsLastRun(segs: seq<Segment>, i: nat, j: nat)
  {
    && i <= j <= |segs|
    && (forall k :: i <= k < j ==> segs[k].Literal?)
    && (0 < i ==> segs[i - 1].Param?)
    && (forall k :: j <= k < |segs| ==> segs[k].Param?)
    && (i == j ==> forall k :: 0 <= k < |segs| ==> segs[k].Param?)
  }

  lemma {:induction false} TrailingLiteralsSpec(segs: seq<Segment>)
    ensures exists i: nat :: IsTrailingRun(segs, i) && TrailingLiterals(segs) == LiteralTexts(segs[i..])
    decreases |segs|
  {
    if |segs| == 0 {
      assert IsTrailingRun(segs, 0) && TrailingLiterals(segs) == LiteralTexts(segs[0..]);
    } else {
      var p := segs[..|segs| - 1];
      if segs[|segs| - 1].Param? {
        assert segs[|segs|..] == [];
        assert IsTrailingRun(segs, |segs|);
      } else {
        TrailingLiteralsSpec(p);
        var i: nat :| IsTrailingRun(p, i) && TrailingLiterals(p) == LiteralTexts(p[i..]);
        var run := segs[i..];
        assert run[..|run| - 1] == p[i..];
        assert IsTrailingRun(segs, i);
      }
    }
  }

  /** A trailing parameter does not move the last run of literals. */
  lemma IsLastRunAfterParam(segs: seq<Segment>, i: nat, j: nat)
    requires |segs| > 0 && segs[|segs| - 1].Param?
    requires IsLastRun(segs[..|segs| - 1], i, j)
    ensures IsLastRun(segs, i, j)
  {
    var p := segs[..|segs| - 1];
    forall k | j <= k < |segs|
      ensures segs[k].Param?
    {
      if k < |p| {
        assert segs[k] == p[k];
      }
    }
    forall k | i <= k < j
      ensures segs[k].Literal?
    {
      assert segs[k] == p[k];
    }
    if 0 < i {
      assert segs[i - 1] == p[i - 1];
    }
  }

  lemma LastRunAfterParam(segs: seq<Segment>, i: nat, j: nat)
    requires |segs| > 0 && segs[|segs| - 1].Param?
    requires IsLastRun(segs[..|segs| - 1], i, j)
    requires LastLiteralRun(segs[..|segs| - 1]) == LiteralTexts(segs[..|segs| - 1][i..j])
    ensures IsLastRun(segs, i, j) && LastLiteralRun(segs) == LiteralTexts(segs[i..j])
  {
    var p := segs[..|segs| - 1];
    IsLastRunAfterParam(segs, i, j);
    assert i <= j <= |p|;
    assert forall k :: 0 <= k < j - i ==> p[i..j][k] == segs[i..j][k];
    assert segs[i..j] == p[i..j];
    assert LastLiteralRun(segs) == LastLiteralRun(p);
  }

  lemma {:induction false} LastLiteralRunSpec(segs: seq<Segment>)
    ensures exists i: nat, j: nat :: IsLastRun(segs, i, j) && LastLiteralRun(segs) == LiteralTexts(segs[i..j])
    decreases |segs|
  {
    if |segs| == 0 {
      assert IsLastRun(segs, 0, 0) && LastLiteralRun(segs) == LiteralTexts(segs[0..0]);
    } else if segs[|segs| - 1].Param? {
      var p := segs[..|segs| - 1];
      LastLiteralRunSpec(p);
      var i: nat, j: nat :| IsLastRun(p, i, j) && LastLiteralRun(p) == LiteralTexts(p[i..j]);
      LastRunAfterParam(segs, i, j);
    } else {
      TrailingLiteralsSpec(segs);
      var i: nat :| IsTrailingRun(segs, i) && TrailingLiterals(segs) == LiteralTexts(segs[i..]);
      assert segs[i..|segs|] == segs[i..];
      assert IsLastRun(segs, i, |segs|);
    }
  }

  /** Every text in `LiteralTexts` is the text of a literal segment. */
  lemma {:induction false} LiteralTextsFromLiterals(segs: seq<Segment>)
    ensures forall x :: x in LiteralTexts(segs) ==> Literal(x) in segs
    decreases |segs|
  {
    if |segs| > 0 {
      var p := segs[..|segs| - 1];
      LiteralTextsFromLiterals(p);
      assert forall s :: s in p ==> s in segs;
    }
  }

  /** No parameter ever appears among the resources: each one is the text
      of a literal segment of the path. */
  lemma ResourcesAreLiterals(segs: seq<Segment>)
    ensures forall x :: x in Resources(segs) ==> Literal(x) in segs
  {
    ResourcesIsLastLiteralRun(segs);
    LastLiteralRunSpec(segs);
    var i: nat, j: nat :| IsLastRun(segs, i, j) && LastLiteralRun(segs) == LiteralTexts(segs[i..j]);
    LiteralTextsFromLiterals(segs[i..j]);
    assert forall s :: s in segs[i..j] ==> s in segs;
  }

  /** The second parameter-pattern filter, applied after the reduction,
      removes nothing from classified segments. */
  lemma ParamFilterKeepsResources(segs: seq<Segment>)
    requires Classified(segs)
    ensures Filter((w: string) => !IsParamText(w), Resources(segs)) == Resources(segs)
  {
    ResourcesAreLiterals(segs);
    var rs := Resources(segs);
    forall k | 0 <= k < |rs|
      ensures !IsParamText(rs[k])
    {
      assert rs[k] in rs;
      var m :| 0 <= m < |segs| && segs[m] == Literal(rs[k]);
    }
    FilterKeepsAll((w: string) => !IsParamText(w), rs);
  }

  // ---------------------------------------------------------------------
  // Conditions.
  // ---------------------------------------------------------------------

  /** The names inside the braces of the parameter segments, in order. */
  function ParamNames(segs: seq<Segment>): seq<string>
  {
    if |segs| == 0 then []
    else match segs[0]
      case Param(n) => [n] + ParamNames(segs[1..])
      case Literal(_) => ParamNames(segs[1..])
  }

  /** The parameter names are the parameter segments, in path order. */
  lemma {:induction false} ParamNamesAreParamSegments(segs: seq<Segment>)
    ensures var params := Filter((s: Segment) => s.Param?, segs);
      && |ParamNames(segs)| == |params|
      && forall k :: 0 <= k < |params| ==> params[k] == Param(ParamNames(segs)[k])
    decreases |segs|
  {
    if |segs| > 0 {
      var isParam := (s: Segment) => s.Param?;
      var rest := Filter(isParam, segs[1..]);
      ParamNamesAreParamSegments(segs[1..]);
      if segs[0].Param? {
        var params := [segs[0]] + rest;
        assert Filter(isParam, segs) == params;
        assert ParamNames(segs) == [segs[0].name] + ParamNames(segs[1..]);
        forall k | 1 <= k < |params|
          ensures params[k] == Param(ParamNames(segs)[k])
        {
          assert params[k] == rest[k - 1];
        }
      } else {
        assert Filter(isParam, segs) == rest;
      }
    }
  }

  /** One condition token: each dot-case piece of the parameter name cut to
      its first three characters and pascal-cased, concatenated. */
  function Abbreviate(c: CaseConversions, name: string): string
  {
    Concat(Map((piece: string) => c.pascalCase(Take(piece, 3)), Split(c.dotCase(name), '.')))
  }

  /** The condition tokens: one per parameter, only the first with `With`. */
  function Conditions(c: CaseConversions, segs: seq<Segment>): seq<string>
  {
    var names := ParamNames(segs);
    seq(|names|, k requires 0 <= k < |names| => (if k == 0 then "With" else "") + Abbreviate(c, names[k]))
  }

  /** One condition token per parameter segment of the path, in order,
      built from the name inside the braces; only the first starts with
      `With`. */
  lemma ConditionsPerParamSegment(c: CaseConversions, segs: seq<Segment>)
    ensures var params := Filter((s: Segment) => s.Param?, segs);
      var conds := Conditions(c, segs);
      && |conds| == |params|
      && forall k :: 0 <= k < |params| ==>
           conds[k] == (if k == 0 then "With" else "") + Abbreviate(c, params[k].name)
  {
    ParamNamesAreParamSegments(segs);
  }

  // ---------------------------------------------------------------------
  // Function name.
  // ---------------------------------------------------------------------

  predicate UsesOperationId(d: Descriptor, options: Options)
  {
    options.operationId && d.op.operationId.Some?
  }

  /** `extractFunctionName`. With `operationId` set and a string
      `operationId` on the operation, that id; otherwise the method, then
      the pascal-cased last run of literal segments (after dropping the base
      path segment when asked), then one condition token per parameter of
      the whole path. */
  function FunctionName(d: Descriptor, options: Options, c: CaseConversions): (name: string)
    ensures UsesOperationId(d, options) ==> name == d.op.operationId.value
    ensures !UsesOperationId(d, options) ==>
              name == d.httpMethod
                      + Concat(Map(c.pascalCase, LastLiteralRun(DropBasePath(PathSegments(d.path), options.basePath))))
                      + Concat(Conditions(c, PathSegments(d.path)))
  {
    if UsesOperationId(d, options) then d.op.operationId.value
    else
      var segs := PathSegments(d.path);
      var kept := DropBasePath(segs, options.basePath);
      var reduced := Resources(kept);
      var resources := Map(c.pascalCase, Filter((w: string) => !IsParamText(w), reduced));
      var conditions := Conditions(c, segs);
      ParamFilterKeepsResources(kept);
      ResourcesIsLastLiteralRun(kept);
      ConcatAppend([d.httpMethod] + resources, conditions);
      ConcatAppend([d.httpMethod], resources);
      Concat([d.httpMethod] + resources + conditions)
  }

  // ---------------------------------------------------------------------
  // Service name.
  // ---------------------------------------------------------------------

  function MatchingTags(tags: seq<string>, apiPrefix: string): seq<string>
  {
    Filter((t: string) => TagMatches(t, apiPrefix), tags)
  }

  lemma TargetHasMatchingTag(op: Operation, apiPrefix: string)
    requires IsTarget(op, apiPrefix)
    ensures |MatchingTags(op.tags.value, apiPrefix)| > 0
  {
    var tags := op.tags.value;
    AnyIsExists((t: string) => TagMatches(t, apiPrefix), tags);
    var k :| 0 <= k < |tags| && TagMatches(tags[k], apiPrefix);
    assert tags[k] in MatchingTags(tags, apiPrefix);
  }

  /** `servicePrefix + "-"` when the prefix is set, else nothing. */
  function ServicePrefixPart(servicePrefix: string): string
  {
    if |servicePrefix| > 0 then servicePrefix + "-" else ""
  }

  /** `extractServiceName`: the first tag with the API prefix, minus the
      prefix and one separator character, param-cased, behind the service
      prefix when one is set. It fails without a matching tag, so callers
      filter with `IsTarget` first. */
  function ServiceName(op: Operation, options: Options, c: CaseConversions): (name: string)
    requires IsTarget(op, options.apiPrefix)
    ensures var tags := op.tags.value;
      exists i :: 0 <= i < |tags|
        && options.apiPrefix <= tags[i]
        && (forall j :: 0 <= j < i ==> !(options.apiPrefix <= tags[j]))
        && name == ServicePrefixPart(options.servicePrefix)
                   + c.paramCase(Drop(tags[i], |options.apiPrefix| + 1))
  {
    TargetHasMatchingTag(op, options.apiPrefix);
    var tags := op.tags.value;
    var extracted := MatchingTags(tags, options.apiPrefix)[0];
    var caseChanged := c.paramCase(Drop(extracted, |options.apiPrefix| + 1));
    FilterHead((t: string) => TagMatches(t, options.apiPrefix), tags);
    forall k | 0 <= k < |tags|
      ensures TagMatches(tags[k], options.apiPrefix) <==> options.apiPrefix <= tags[k]
    {
      IndexOfZeroIsPrefix(tags[k], options.apiPrefix);
    }
    if |options.servicePrefix| > 0 then options.servicePrefix + "-" + caseChanged else caseChanged
  }

  /** Tags appended after a matching one do not move the first match. */
  lemma MatchingTagsKeepFirst(tags: seq<string>, more: seq<string>, apiPrefix: string)
    requires |MatchingTags(tags, apiPrefix)| > 0
    ensures |MatchingTags(tags + more, apiPrefix)| > 0
    ensures MatchingTags(tags + more, apiPrefix)[0] == MatchingTags(tags, apiPrefix)[0]
  {
    FilterAppend((t: string) => TagMatches(t, apiPrefix), tags, more);
  }

  /** Tags after the first matching one never change the service name. */
  lemma ServiceNameIgnoresLaterTags(op: Operation, more: seq<string>, options: Options, c: CaseConversions)
    requires IsTarget(op, options.apiPrefix)
    ensures IsTarget(op.(tags := Some(op.tags.value + more)), options.apiPrefix)
    ensures ServiceName(op.(tags := Some(op.tags.value + more)), options, c) == ServiceName(op, options, c)
  {
    var p := (t: string) => TagMatches(t, options.apiPrefix);
    var tags := op.tags.value;
    TargetHasMatchingTag(op, options.apiPrefix);
    MatchingTagsKeepFirst(tags, more, options.apiPrefix);
    var t0 := MatchingTags(tags, options.apiPrefix)[0];
    assert t0 in tags + more && p(t0);
    AnyIsExists(p, tags + more);
    var k :| 0 <= k < |tags + more| && (tags + more)[k] == t0;
  }

  /** Non-matching tags in front are filtered out. */
  lemma MatchingTagsSkipFront(before: seq<string>, tags: seq<string>, apiPrefix: string)
    requires forall k :: 0 <= k < |before| ==> !(apiPrefix <= before[k])
    ensures MatchingTags(before + tags, apiPrefix) == MatchingTags(tags, apiPrefix)
  {
    var p := (t: string) => TagMatches(t, apiPrefix);
    forall k | 0 <= k < |before|
      ensures !p(before[k])
    {
      IndexOfZeroIsPrefix(before[k], apiPrefix);
    }
    FilterDropsAll(p, before);
    FilterAppend(p, before, tags);
  }

  /** Tags that do not match, placed in front, never change the service
      name either. */
  lemma ServiceNameSkipsUnmatchedTags(op: Operation, before: seq<string>, options: Options, c: CaseConversions)
    requires IsTarget(op, options.apiPrefix)
    requires forall k :: 0 <= k < |before| ==> !(options.apiPrefix <= before[k])
    ensures IsTarget(op.(tags := Some(before + op.tags.value)), options.apiPrefix)
    ensures ServiceName(op.(tags := Some(before + op.tags.value)), options, c) == ServiceName(op, options, c)
  {
    var p := (t: string) => TagMatches(t, options.apiPrefix);
    var tags := op.tags.value;
    TargetHasMatchingTag(op, options.apiPrefix);
    MatchingTagsSkipFront(before, tags, options.apiPrefix);
    var t0 := MatchingTags(tags, options.apiPrefix)[0];
    assert t0 in before + tags && p(t0);
    AnyIsExists(p, before + tags);
    var k :| 0 <= k < |before + tags| && (before + tags)[k] == t0;
  }
}
