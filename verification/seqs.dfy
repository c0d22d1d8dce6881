/** Generic sequence helpers used by every stage of the conversion: the
    JavaScript `Array.prototype.filter`, `some` and `join('')` on the
    shapes the converter applies them to. */
module Seqs {

  /** `s.filter(p)`: the elements of `s` satisfying `p`, in their original order. */
  function Filter<T(==)>(p: T -> bool, s: seq<T>): (r: seq<T>)
    ensures |r| <= |s|
    ensures forall k :: 0 <= k < |r| ==> r[k] in s && p(r[k])
    ensures forall k :: 0 <= k < |s| && p(s[k]) ==> s[k] in r
  {
    if |s| == 0 then []
    else (if p(s[0]) then [s[0]] else []) + Filter(p, s[1..])
  }

  /** `s.some(p)`. */
  predicate Any<T>(p: T -> bool, s: seq<T>)
  {
    |s| > 0 && (p(s[0]) || Any(p, s[1..]))
  }

  /** `Any` is the existential it abbreviates. */
  lemma {:induction false} AnyIsExists<T>(p: T -> bool, s: seq<T>)
    ensures Any(p, s) <==> exists k :: 0 <= k < |s| && p(s[k])
    decreases |s|
  {
    if |s| > 0 {
      AnyIsExists(p, s[1..]);
      if exists k :: 0 <= k < |s| && p(s[k]) {
        var k :| 0 <= k < |s| && p(s[k]);
        if k > 0 {
          assert p(s[1..][k - 1]);
        }
      }
      if exists k :: 0 <= k < |s[1..]| && p(s[1..][k]) {
        var k :| 0 <= k < |s[1..]| && p(s[1..][k]);
        assert p(s[k + 1]);
      }
    }
  }

  /** Filtering distributes over concatenation: order is preserved. */
  lemma {:induction false} FilterAppend<T>(p: T -> bool, a: seq<T>, b: seq<T>)
    ensures Filter(p, a + b) == Filter(p, a) + Filter(p, b)
    decreases |a|
  {
    if |a| > 0 {
      assert (a + b)[1..] == a[1..] + b;
      FilterAppend(p, a[1..], b);
    } else {
      assert a + b == b;
    }
  }

  /** A filter that every element passes keeps the sequence as it is. */
  lemma {:induction false} FilterKeepsAll<T>(p: T -> bool, s: seq<T>)
    requires forall k :: 0 <= k < |s| ==> p(s[k])
    ensures Filter(p, s) == s
    decreases |s|
  {
    if |s| > 0 {
      FilterKeepsAll(p, s[1..]);
    }
  }

  /** A filter that no element passes leaves nothing. */
  lemma {:induction false} FilterDropsAll<T>(p: T -> bool, s: seq<T>)
    requires forall k :: 0 <= k < |s| ==> !p(s[k])
    ensures Filter(p, s) == []
    decreases |s|
  {
    if |s| > 0 {
      FilterDropsAll(p, s[1..]);
    }
  }

  /** The first element that survives a filter is the first element of the
      input satisfying the predicate. */
  lemma {:induction false} FilterHead<T>(p: T -> bool, s: seq<T>)
    requires |Filter(p, s)| > 0
    ensures exists i :: 0 <= i < |s| && s[i] == Filter(p, s)[0] && p(s[i])
                        && forall j :: 0 <= j < i ==> !p(s[j])
    decreases |s|
  {
    if !p(s[0]) {
      FilterHead(p, s[1..]);
      var i :| 0 <= i < |s[1..]| && s[1..][i] == Filter(p, s[1..])[0] && p(s[1..][i])
               && forall j :: 0 <= j < i ==> !p(s[1..][j]);
      assert s[i + 1] == Filter(p, s)[0];
      forall j | 0 <= j < i + 1
        ensures !p(s[j])
      {
        if j > 0 {
          assert s[j] == s[1..][j - 1];
        }
      }
    } else {
      assert s[0] == Filter(p, s)[0];
    }
  }

  /** `parts.join('')`: the concatenation of a list of strings. */
  function Concat(parts: seq<string>): (r: string)
    ensures |parts| == 1 ==> r == parts[0]
  {
    if |parts| == 0 then "" else parts[0] + Concat(parts[1..])
  }

  lemma {:induction false} ConcatAppend(a: seq<string>, b: seq<string>)
    ensures Concat(a + b) == Concat(a) + Concat(b)
    decreases |a|
  {
    if |a| == 0 {
      assert a + b == b;
    } else {
      assert (a + b)[1..] == a[1..] + b;
      ConcatAppend(a[1..], b);
    }
  }

  /** `xs.map(f)`. */
  function Map<T, U>(f: T -> U, xs: seq<T>): (r: seq<U>)
    ensures |r| == |xs|
    ensures forall k :: 0 <= k < |xs| ==> r[k] == f(xs[k])
  {
    seq(|xs|, k requires 0 <= k < |xs| => f(xs[k]))
  }

  /** No element occurs twice. */
  predicate Distinct<T(==)>(s: seq<T>)
  {
    forall i, j :: 0 <= i < j < |s| ==> s[i] != s[j]
  }
}
