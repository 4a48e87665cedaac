/**
 * The LINQ operators the controllers use over a table (`Where`, `FirstOrDefault`,
 * `Count`, `Take`, removal of one element), as functions on sequences.
 * Recursion runs on the last element, the order in which a `foreach` loop
 * accumulates.
 */
module Seqs {
  import opened Wrappers

  /** `Where`: the elements that satisfy `keep`, in their original order and multiplicity. */
  function Filter<T(!new)>(s: seq<T>, keep: T -> bool): (r: seq<T>)
    ensures |r| <= |s|
    ensures forall i :: 0 <= i < |r| ==> keep(r[i])
    ensures forall x :: x in r <==> x in s && keep(x)
  {
    if s == [] then []
    else
      var init, last := s[..|s| - 1], s[|s| - 1];
      assert s == init + [last];
      Filter(init, keep) + (if keep(last) then [last] else [])
  }

  /** One more element at the end: `Where` keeps it exactly when it passes. */
  lemma FilterSnoc<T(!new)>(s: seq<T>, x: T, keep: T -> bool)
    ensures Filter(s + [x], keep) == Filter(s, keep) + (if keep(x) then [x] else [])
  {
    assert (s + [x])[..|s|] == s;
  }

  /** `Where` keeps every passing element as often as it occurs, and drops every other. */
  lemma {:induction false} FilterMultiset<T(!new)>(s: seq<T>, keep: T -> bool)
    ensures forall x :: multiset(Filter(s, keep))[x] == if keep(x) then multiset(s)[x] else 0
  {
    if s != [] {
      var init, last := s[..|s| - 1], s[|s| - 1];
      assert s == init + [last];
      FilterMultiset(init, keep);
      FilterSnoc(init, last, keep);
    }
  }

  /** `Count(predicate)`. */
  function Count<T(!new)>(s: seq<T>, keep: T -> bool): nat
  {
    |Filter(s, keep)|
  }

  /** `FirstOrDefault(predicate)`: the index of the first element satisfying `found`, if any. */
  function FindFirst<T>(s: seq<T>, found: T -> bool): (r: Option<nat>)
    ensures r.Some? ==> r.value < |s| && found(s[r.value])
    ensures r.Some? ==> forall k :: 0 <= k < r.value ==> !found(s[k])
    ensures r.None? <==> forall k :: 0 <= k < |s| ==> !found(s[k])
  {
    if s == [] then None
    else
      match FindFirst(s[..|s| - 1], found)
      case Some(i) => Some(i)
      case None => if found(s[|s| - 1]) then Some(|s| - 1) else None
  }

  /** `Take(n)`: the first `n` elements, or all of them when there are fewer. */
  function Take<T>(s: seq<T>, n: nat): (r: seq<T>)
    ensures |r| == if |s| < n then |s| else n
    ensures r == s[..|r|]
  {
    if |s| <= n then s else s[..n]
  }

  /** Removal of the element at index `i`, the others keeping their order. */
  function RemoveAt<T>(s: seq<T>, i: nat): (r: seq<T>)
    requires i < |s|
    ensures |r| == |s| - 1
    ensures forall k :: 0 <= k < i ==> r[k] == s[k]
    ensures forall k :: i <= k < |r| ==> r[k] == s[k + 1]
  {
    s[..i] + s[i + 1..]
  }

  /** Filtering twice by a weaker and then a stronger test is filtering once by the stronger. */
  lemma {:induction false} FilterOfFilter<T(!new)>(s: seq<T>, weak: T -> bool, strong: T -> bool)
    requires forall x :: strong(x) ==> weak(x)
    ensures Filter(Filter(s, weak), strong) == Filter(s, strong)
  {
    if s != [] {
      var init, last := s[..|s| - 1], s[|s| - 1];
      FilterOfFilter(init, weak, strong);
      FilterAppend(Filter(init, weak), if weak(last) then [last] else [], strong);
    }
  }

  /** Filtering by a test that nothing passing the first test can pass leaves nothing. */
  lemma {:induction false} FilterOfFilterDisjoint<T(!new)>(s: seq<T>, first: T -> bool, second: T -> bool)
    requires forall x :: first(x) ==> !second(x)
    ensures Filter(Filter(s, first), second) == []
  {
    if s != [] {
      var init, last := s[..|s| - 1], s[|s| - 1];
      FilterOfFilterDisjoint(init, first, second);
      FilterAppend(Filter(init, first), if first(last) then [last] else [], second);
    }
  }

  /** `Where` distributes over concatenation. */
  lemma {:induction false} FilterAppend<T(!new)>(a: seq<T>, b: seq<T>, keep: T -> bool)
    ensures Filter(a + b, keep) == Filter(a, keep) + Filter(b, keep)
  {
    if b == [] {
      assert a + b == a;
    } else {
      var init, last := b[..|b| - 1], b[|b| - 1];
      var tail := if keep(last) then [last] else [];
      assert (a + b)[..|a + b| - 1] == a + init;
      assert (a + b)[|a + b| - 1] == last;
      calc {
        Filter(a + b, keep);
        Filter(a + init, keep) + tail;
        { FilterAppend(a, init, keep); }
        Filter(a, keep) + Filter(init, keep) + tail;
        Filter(a, keep) + (Filter(init, keep) + tail);
        Filter(a, keep) + Filter(b, keep);
      }
    }
  }
}
