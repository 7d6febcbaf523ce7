/**
 * An insertion sort by a string key under an abstract collation order: the model
 * of `Array.prototype.sort((a, b) => a.key.localeCompare(b.key))`, whose
 * locale-dependent collation is left abstract as a total preorder.
 */
module Sorting {

  /** `le(a, b)` plays `a.localeCompare(b) <= 0`: total and transitive. */
  ghost predicate TotalPreorder(le: (string, string) -> bool) {
    && (forall a, b :: le(a, b) || le(b, a))
    && (forall a, b, c :: le(a, b) && le(b, c) ==> le(a, c))
  }

  predicate SortedBy<T>(xs: seq<T>, key: T -> string, le: (string, string) -> bool) {
    forall i, j :: 0 <= i < j < |xs| ==> le(key(xs[i]), key(xs[j]))
  }

  /** Inserts `x` before the first element it does not follow. */
  function InsertBy<T>(x: T, xs: seq<T>, key: T -> string, le: (string, string) -> bool): (r: seq<T>)
    ensures multiset(r) == multiset(xs) + multiset{x}
    decreases |xs|
  {
    if |xs| == 0 then [x]
    else if le(key(x), key(xs[0])) then [x] + xs
    else
      assert [xs[0]] + xs[1..] == xs;
      [xs[0]] + InsertBy(x, xs[1..], key, le)
  }

  /** Inserting into a sorted list keeps it sorted. */
  lemma {:induction false} InsertBySorted<T>(x: T, xs: seq<T>, key: T -> string, le: (string, string) -> bool)
    requires TotalPreorder(le)
    requires SortedBy(xs, key, le)
    ensures SortedBy(InsertBy(x, xs, key, le), key, le)
    decreases |xs|
  {
    if |xs| > 0 && !le(key(x), key(xs[0])) {
      InsertBySorted(x, xs[1..], key, le);
      var rest := InsertBy(x, xs[1..], key, le);
      forall j | 0 <= j < |rest| ensures le(key(xs[0]), key(rest[j])) {
        assert rest[j] in multiset(xs[1..]) + multiset{x};
        if rest[j] != x {
          assert rest[j] in xs[1..];
        }
      }
    }
  }

  /** Insertion sort: sorted by key, and a permutation of the input. */
  function SortBy<T>(xs: seq<T>, key: T -> string, le: (string, string) -> bool): (r: seq<T>)
    requires TotalPreorder(le)
    ensures SortedBy(r, key, le)
    ensures multiset(r) == multiset(xs)
    decreases |xs|
  {
    if |xs| == 0 then []
    else
      assert [xs[0]] + xs[1..] == xs;
      var sortedTail := SortBy(xs[1..], key, le);
      InsertBySorted(xs[0], sortedTail, key, le);
      InsertBy(xs[0], sortedTail, key, le)
  }
}
