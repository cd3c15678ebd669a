/**
 * The duplicate filter both chat processors apply to the vocabulary an LLM
 * reply proposes: an item is new unless its lower-cased word is among the
 * lower-cased words of the stored rows the lookup returned.
 */
module Dedup {
  import opened Text
  import opened Sequences

  /** `new Set(existing.map(w => w.toLowerCase()))`. */
  function KnownWords(existing: seq<string>): (known: set<string>)
    ensures forall s :: s in existing ==> Lower(s) in known
    ensures forall w :: w in known ==> exists s :: s in existing && Lower(s) == w
  {
    set s | s in existing :: Lower(s)
  }

  /** `items.filter(v => !known.has(key(v).toLowerCase()))`. */
  function FilterNew<T(==,!new)>(items: seq<T>, key: T -> string, known: set<string>): (kept: seq<T>)
    ensures IsSubsequence(kept, items)
    ensures forall x :: x in kept <==> x in items && Lower(key(x)) !in known
    ensures forall x :: multiset(kept)[x] == if Lower(key(x)) in known then 0 else multiset(items)[x]
  {
    Select(items, x => Lower(key(x)) !in known)
  }
}
