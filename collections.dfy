/**
 * The JavaScript array built-ins the core relies on: `findIndex`, `find`
 * and `filter`, as functions over sequences with a predicate argument.
 */
module Collections {
  import opened Wrappers

  /** `Array.prototype.findIndex`: the index of the first element satisfying `p`. */
  function FindIndex<T>(s: seq<T>, p: T -> bool): (r: Option<nat>)
    ensures r.Some? ==> r.value < |s| && p(s[r.value])
    ensures r.Some? ==> forall j :: 0 <= j < r.value ==> !p(s[j])
    ensures r.None? <==> forall j :: 0 <= j < |s| ==> !p(s[j])
  {
    if |s| == 0 then None
    else if p(s[0]) then Some(0)
    else match FindIndex(s[1..], p)
      case None => None
      case Some(k) => Some(k + 1)
  }

  /** `Array.prototype.find`: the first element satisfying `p`. */
  function Find<T>(s: seq<T>, p: T -> bool): (r: Option<T>)
    ensures r == match FindIndex(s, p)
                 case None => None
                 case Some(i) => Some(s[i])
  {
    if |s| == 0 then None
    else if p(s[0]) then Some(s[0])
    else Find(s[1..], p)
  }

  /** `Array.prototype.filter`: the elements satisfying `p`, in their original order. */
  function Filter<T>(s: seq<T>, p: T -> bool): (r: seq<T>)
    ensures |r| <= |s|
    ensures forall j :: 0 <= j < |r| ==> r[j] in s && p(r[j])
    ensures forall j :: 0 <= j < |s| && p(s[j]) ==> s[j] in r
  {
    if |s| == 0 then [] else (if p(s[0]) then [s[0]] else []) + Filter(s[1..], p)
  }

  /** An index that is the first one satisfying `p` is the one `FindIndex` returns. */
  lemma FindIndexIsFirst<T>(s: seq<T>, p: T -> bool, k: nat)
    requires k < |s| && p(s[k])
    requires forall j :: 0 <= j < k ==> !p(s[j])
    ensures FindIndex(s, p) == Some(k)
  {
    assert !(forall j :: 0 <= j < |s| ==> !p(s[j]));
  }

  /** Appending an element after a satisfying one does not change `Find`. */
  lemma {:induction false} FindAppend<T>(s: seq<T>, t: seq<T>, p: T -> bool)
    ensures Find(s + t, p) == if Find(s, p).Some? then Find(s, p) else Find(t, p)
  {
    if |s| > 0 {
      assert (s + t)[0] == s[0];
      assert (s + t)[1..] == s[1..] + t;
      FindAppend(s[1..], t, p);
    } else {
      assert s + t == t;
    }
  }

  /** Replacing an element that does not satisfy `p` by another that does not either leaves `Find` unchanged. */
  lemma {:induction false} FindUpdateElsewhere<T>(s: seq<T>, i: nat, x: T, p: T -> bool)
    requires i < |s| && !p(s[i]) && !p(x)
    ensures Find(s[i := x], p) == Find(s, p)
  {
    if i > 0 {
      assert s[i := x][1..] == s[1..][i - 1 := x];
      FindUpdateElsewhere(s[1..], i - 1, x, p);
    }
  }

  /** Filtering by a predicate implied by `p` does not change the first element satisfying `p`. */
  lemma {:induction false} FindAfterFilter<T>(s: seq<T>, p: T -> bool, q: T -> bool)
    requires forall x :: p(x) ==> q(x)
    ensures Find(Filter(s, q), p) == Find(s, p)
  {
    if |s| > 0 {
      FindAfterFilter(s[1..], p, q);
      if q(s[0]) {
        var f := [s[0]] + Filter(s[1..], q);
        assert f[0] == s[0] && f[1..] == Filter(s[1..], q);
      } else {
        assert Filter(s, q) == Filter(s[1..], q);
      }
    }
  }

  /** Replacing an element that the filter drops by another it drops does not change the result. */
  lemma {:induction false} FilterUpdateDropped<T>(s: seq<T>, i: nat, x: T, p: T -> bool)
    requires i < |s| && !p(s[i]) && !p(x)
    ensures Filter(s[i := x], p) == Filter(s, p)
  {
    if i > 0 {
      assert s[i := x][1..] == s[1..][i - 1 := x];
      FilterUpdateDropped(s[1..], i - 1, x, p);
    }
  }

  /** `filter` distributes over concatenation: it keeps the original order. */
  lemma {:induction false} FilterAppend<T>(s: seq<T>, t: seq<T>, p: T -> bool)
    ensures Filter(s + t, p) == Filter(s, p) + Filter(t, p)
  {
    if |s| == 0 {
      assert s + t == t;
    } else {
      assert (s + t)[0] == s[0];
      assert (s + t)[1..] == s[1..] + t;
      FilterAppend(s[1..], t, p);
    }
  }

  /** Filtering twice by the same predicate is the same as filtering once. */
  lemma {:induction false} FilterIdempotent<T>(s: seq<T>, p: T -> bool)
    ensures Filter(Filter(s, p), p) == Filter(s, p)
  {
    if |s| > 0 {
      FilterIdempotent(s[1..], p);
      if p(s[0]) {
        var f := [s[0]] + Filter(s[1..], p);
        assert Filter(s, p) == f;
        assert f[0] == s[0] && f[1..] == Filter(s[1..], p);
        assert Filter(f, p) == [s[0]] + Filter(f[1..], p);
      } else {
        assert Filter(s, p) == Filter(s[1..], p);
      }
    }
  }
}
