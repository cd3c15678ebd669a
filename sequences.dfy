/** Order-preserving selection from a sequence, as `Array.prototype.filter` performs it. */
module Sequences {

  /** `a` can be obtained from `b` by deleting elements, keeping the order of the rest. */
  predicate IsSubsequence<T(==)>(a: seq<T>, b: seq<T>) {
    if b == [] then a == []
    else (a != [] && a[0] == b[0] && IsSubsequence(a[1..], b[1..])) || IsSubsequence(a, b[1..])
  }

  /**
   * `items.filter(keep)`: keeps, in order, every occurrence of every element
   * that satisfies `keep`, and nothing else.
   */
  function Select<T(==,!new)>(items: seq<T>, keep: T -> bool): (kept: seq<T>)
    ensures IsSubsequence(kept, items)
    ensures |kept| <= |items|
    ensures forall x :: x in kept <==> x in items && keep(x)
    ensures forall x :: multiset(kept)[x] == if keep(x) then multiset(items)[x] else 0
  {
    if items == [] then []
    else
      var rest := Select(items[1..], keep);
      assert items == [items[0]] + items[1..];
      if keep(items[0]) then [items[0]] + rest else rest
  }
}
