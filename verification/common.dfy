/** Optional values, results, and the array operations the client uses on its tables
    (`filter`, `map` with an id test, `find`). */
module Common {

  datatype Option<+T> = None | Some(value: T)

  /** A remote call either yields a value or fails with an error the caller sees. */
  datatype Result<+T, +E> = Ok(value: T) | Err(error: E)

  /** JavaScript truthiness of an optional string: `null`, `undefined` and `""` are all falsy. */
  predicate Truthy(o: Option<string>) {
    o.Some? && o.value != ""
  }

  /** `r` is `xs` with some elements left out: the ones it keeps appear in their original order. */
  predicate IsSubsequence<T(==)>(r: seq<T>, xs: seq<T>)
    decreases |xs|
  {
    if |r| == 0 then true
    else if |xs| == 0 then false
    else (r[0] == xs[0] && IsSubsequence(r[1..], xs[1..])) || IsSubsequence(r, xs[1..])
  }

  /** `r` keeps, in their original order and as often as they occur, exactly the elements of
      `xs` passing `p`. */
  ghost predicate Selects<T(!new)>(r: seq<T>, xs: seq<T>, p: T -> bool) {
    && IsSubsequence(r, xs)
    && forall x :: multiset(r)[x] == if p(x) then multiset(xs)[x] else 0
  }

  /** `xs.filter(p)`: keeps, in their original order, exactly the elements satisfying `p`. */
  function Filter<T(!new)>(xs: seq<T>, p: T -> bool): (r: seq<T>)
    ensures |r| <= |xs|
    ensures forall i :: 0 <= i < |r| ==> p(r[i])
    ensures forall x :: x in r <==> x in xs && p(x)
    ensures Selects(r, xs, p)
    decreases |xs|
  {
    if |xs| == 0 then []
    else
      assert xs == [xs[0]] + xs[1..];
      if p(xs[0]) then
        var r := [xs[0]] + Filter(xs[1..], p);
        assert r[1..] == Filter(xs[1..], p);
        r
      else Filter(xs[1..], p)
  }

  /** A subsequence holds no element more often than the sequence it is taken from. */
  lemma {:induction false} SubsequenceCounts<T>(r: seq<T>, xs: seq<T>, x: T)
    requires IsSubsequence(r, xs)
    ensures multiset(r)[x] <= multiset(xs)[x]
    decreases |xs|
  {
    if |r| > 0 {
      assert xs == [xs[0]] + xs[1..];
      if r[0] == xs[0] && IsSubsequence(r[1..], xs[1..]) {
        assert r == [r[0]] + r[1..];
        SubsequenceCounts(r[1..], xs[1..], x);
      } else {
        SubsequenceCounts(r, xs[1..], x);
      }
    }
  }

  /** The selection contract pins the result down: any sequence that keeps exactly the passing
      elements, in order and with their counts, is the filter. */
  lemma {:induction false} SelectsIsFilter<T(!new)>(r: seq<T>, xs: seq<T>, p: T -> bool)
    requires Selects(r, xs, p)
    ensures r == Filter(xs, p)
    decreases |xs|
  {
    if |xs| == 0 {
    } else {
      var x0 := xs[0];
      assert xs == [x0] + xs[1..];
      assert multiset(xs)[x0] == multiset(xs[1..])[x0] + 1;
      if |r| > 0 && r[0] == x0 && IsSubsequence(r[1..], xs[1..]) {
        assert r == [x0] + r[1..];
        forall x ensures multiset(r[1..])[x] == if p(x) then multiset(xs[1..])[x] else 0 {
          assert multiset(r)[x] == multiset(r[1..])[x] + (if x == x0 then 1 else 0);
        }
        SelectsIsFilter(r[1..], xs[1..], p);
      } else {
        assert IsSubsequence(r, xs[1..]);
        SubsequenceCounts(r, xs[1..], x0);
        assert !p(x0);
        forall x ensures multiset(r)[x] == if p(x) then multiset(xs[1..])[x] else 0 {
          assert multiset(xs)[x] == multiset(xs[1..])[x] + (if x == x0 then 1 else 0);
        }
        SelectsIsFilter(r, xs[1..], p);
      }
    }
  }

  /** Filtering distributes over concatenation, so the survivors keep their relative order. */
  lemma {:induction false} FilterAppend<T(!new)>(a: seq<T>, b: seq<T>, p: T -> bool)
    ensures Filter(a + b, p) == Filter(a, p) + Filter(b, p)
    decreases |a|
  {
    if |a| == 0 {
      assert a + b == b;
    } else {
      assert (a + b)[1..] == a[1..] + b;
      FilterAppend(a[1..], b, p);
    }
  }

  /** A filter that every element passes is the identity. */
  lemma {:induction false} FilterKeepsAll<T(!new)>(xs: seq<T>, p: T -> bool)
    requires forall i :: 0 <= i < |xs| ==> p(xs[i])
    ensures Filter(xs, p) == xs
    decreases |xs|
  {
    if |xs| > 0 {
      FilterKeepsAll(xs[1..], p);
    }
  }

  /** Filtering twice by the same test changes nothing the second time. */
  lemma FilterIdempotent<T(!new)>(xs: seq<T>, p: T -> bool)
    ensures Filter(Filter(xs, p), p) == Filter(xs, p)
  {
    var r := Filter(xs, p);
    FilterKeepsAll(r, p);
  }

  /** `xs.map(x => p(x) ? y : x)`: every element passing `p` is replaced by `y`, in place. */
  function ReplaceWhere<T>(xs: seq<T>, p: T -> bool, y: T): (r: seq<T>)
    ensures |r| == |xs|
    ensures forall i :: 0 <= i < |xs| ==> r[i] == if p(xs[i]) then y else xs[i]
  {
    if |xs| == 0 then [] else [if p(xs[0]) then y else xs[0]] + ReplaceWhere(xs[1..], p, y)
  }

  /** The index `xs.findIndex(p)` reports, as an option. */
  function FirstIndex<T>(xs: seq<T>, p: T -> bool): (r: Option<nat>)
    ensures r.Some? ==> r.value < |xs| && p(xs[r.value])
    ensures r.Some? ==> forall j :: 0 <= j < r.value ==> !p(xs[j])
    ensures r.None? <==> forall j :: 0 <= j < |xs| ==> !p(xs[j])
  {
    if |xs| == 0 then None
    else if p(xs[0]) then Some(0)
    else
      match FirstIndex(xs[1..], p)
      case None => None
      case Some(k) => Some(k + 1)
  }

  /** `xs.find(p)`: the first element passing `p`, if any. */
  function Find<T>(xs: seq<T>, p: T -> bool): (r: Option<T>)
    ensures r.Some? ==> r.value in xs && p(r.value)
    ensures r.Some? ==> exists i :: 0 <= i < |xs| && xs[i] == r.value && forall j :: 0 <= j < i ==> !p(xs[j])
    ensures r.None? <==> forall j :: 0 <= j < |xs| ==> !p(xs[j])
  {
    match FirstIndex(xs, p)
    case None => None
    case Some(k) => Some(xs[k])
  }

  /** `xs.some(p)`. */
  predicate Any<T>(xs: seq<T>, p: T -> bool) {
    exists i :: 0 <= i < |xs| && p(xs[i])
  }

  /** `xs.map(f)` where `f` may throw: every result, or the first error raised. */
  function MapAll<A, B, E>(xs: seq<A>, f: A -> Result<B, E>): (r: Result<seq<B>, E>)
    ensures r.Ok? ==> |r.value| == |xs| && forall i :: 0 <= i < |xs| ==> f(xs[i]) == Ok(r.value[i])
    ensures r.Err? ==>
      exists i :: 0 <= i < |xs| && f(xs[i]) == Err(r.error) && (forall j :: 0 <= j < i ==> f(xs[j]).Ok?)
    decreases |xs|
  {
    if xs == [] then Ok([])
    else match f(xs[0])
      case Err(e) => Err(e)
      case Ok(y) =>
        match MapAll(xs[1..], f)
        case Err(e) =>
          ghost var i :| 0 <= i < |xs[1..]| && f(xs[1..][i]) == Err(e) && (forall j :: 0 <= j < i ==> f(xs[1..][j]).Ok?);
          assert f(xs[i + 1]) == Err(e);
          assert forall j :: 1 <= j < i + 1 ==> xs[j] == xs[1..][j - 1];
          Err(e)
        case Ok(ys) => Ok([y] + ys)
  }

  /** When `f` succeeds on every element, so does `MapAll`, with each element's result in place. */
  lemma MapAllSucceeds<A, B, E>(xs: seq<A>, f: A -> Result<B, E>)
    requires forall i :: 0 <= i < |xs| ==> f(xs[i]).Ok?
    ensures MapAll(xs, f).Ok?
    ensures forall i :: 0 <= i < |xs| ==> MapAll(xs, f).value[i] == f(xs[i]).value
  {
  }
}
