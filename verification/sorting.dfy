/**
 * The ordering keys the scripts sort FIT file names by, and Python's stable
 * `list.sort(key=...)` on them.
 *
 * `extract_order_key` gives `(day, part)` or `(inf, inf)`; `extract_day_number`
 * gives `day` or `inf`, which orders exactly like `(day, 0)` against `(inf, inf)`.
 */
module Sorting {

  datatype Key = Finite(day: nat, part: nat) | Infinite

  /** Python's `<` on the key tuples: lexicographic, with every finite key before infinity. */
  predicate Below(a: Key, b: Key) {
    match (a, b)
    case (Finite(d1, p1), Finite(d2, p2)) => d1 < d2 || (d1 == d2 && p1 < p2)
    case (Finite(_, _), Infinite) => true
    case (Infinite, _) => false
  }

  /** `Below` is a strict total order on keys. */
  lemma BelowIsStrictTotal(a: Key, b: Key, c: Key)
    ensures !Below(a, a)
    ensures Below(a, b) && Below(b, c) ==> Below(a, c)
    ensures a == b || Below(a, b) || Below(b, a)
  {
  }

  /** No element is out of order: a later element never has a key below an earlier one's. */
  predicate SortedBy<T>(s: seq<T>, key: T -> Key) {
    forall i, j :: 0 <= i < j < |s| ==> !Below(key(s[j]), key(s[i]))
  }

  /** The elements of `s` whose key is `k`, in order. */
  function WithKey<T>(s: seq<T>, key: T -> Key, k: Key): seq<T> {
    if s == [] then []
    else WithKey(s[..|s| - 1], key, k) + (if key(s[|s| - 1]) == k then [s[|s| - 1]] else [])
  }

  /** Puts `x` after every element of `s` whose key is not above its own (so after its equals). */
  function Insert<T>(x: T, s: seq<T>, key: T -> Key): seq<T> {
    if s == [] || !Below(key(x), key(s[|s| - 1])) then s + [x]
    else Insert(x, s[..|s| - 1], key) + [s[|s| - 1]]
  }

  /** `s.sort(key=key)`: a stable sort, here by insertion of each element in turn. */
  function SortByKey<T>(s: seq<T>, key: T -> Key): seq<T> {
    if s == [] then [] else Insert(s[|s| - 1], SortByKey(s[..|s| - 1], key), key)
  }

  lemma {:induction false} InsertPermutes<T>(x: T, s: seq<T>, key: T -> Key)
    ensures multiset(Insert(x, s, key)) == multiset(s) + multiset{x}
    decreases |s|
  {
    if s != [] && Below(key(x), key(s[|s| - 1])) {
      InsertPermutes(x, s[..|s| - 1], key);
      assert s == s[..|s| - 1] + [s[|s| - 1]];
    }
  }

  lemma {:induction false} InsertKeys<T>(x: T, s: seq<T>, key: T -> Key, k: Key)
    ensures WithKey(Insert(x, s, key), key, k) == WithKey(s, key, k) + (if key(x) == k then [x] else [])
    decreases |s|
  {
    if s != [] && Below(key(x), key(s[|s| - 1])) {
      var init, last := s[..|s| - 1], s[|s| - 1];
      InsertKeys(x, init, key, k);
      var ins := Insert(x, init, key);
      assert (ins + [last])[..|ins + [last]| - 1] == ins;
      BelowIsStrictTotal(key(x), key(last), key(last));
      // `last` has a key above x's, so at most one of the two belongs to the class of `k`.
      assert s[..|s| - 1] == init;
    } else {
      assert (s + [x])[..|s + [x]| - 1] == s;
    }
  }

  lemma {:induction false} InsertSorted<T>(x: T, s: seq<T>, key: T -> Key)
    requires SortedBy(s, key)
    ensures SortedBy(Insert(x, s, key), key)
    decreases |s|
  {
    if s == [] || !Below(key(x), key(s[|s| - 1])) {
      forall i | 0 <= i < |s|
        ensures !Below(key(x), key(s[i]))
      {
        if s != [] {
          BelowIsStrictTotal(key(x), key(s[i]), key(s[|s| - 1]));
          BelowIsStrictTotal(key(s[i]), key(s[|s| - 1]), key(x));
          if i < |s| - 1 {
            assert !Below(key(s[|s| - 1]), key(s[i]));
          }
        }
      }
    } else {
      var init, last := s[..|s| - 1], s[|s| - 1];
      InsertSorted(x, init, key);
      InsertPermutes(x, init, key);
      var ins := Insert(x, init, key);
      forall i | 0 <= i < |ins|
        ensures !Below(key(last), key(ins[i]))
      {
        assert ins[i] in multiset(ins);
        if ins[i] == x {
          BelowIsStrictTotal(key(x), key(last), key(x));
        } else {
          assert ins[i] in multiset(init);
          var j :| 0 <= j < |init| && init[j] == ins[i];
          assert s[j] == init[j];
        }
      }
    }
  }

  /** The sort returns the input's elements, each as often as it occurs there. */
  lemma {:induction false} SortPermutes<T>(s: seq<T>, key: T -> Key)
    ensures multiset(SortByKey(s, key)) == multiset(s)
    decreases |s|
  {
    if s != [] {
      SortPermutes(s[..|s| - 1], key);
      InsertPermutes(s[|s| - 1], SortByKey(s[..|s| - 1], key), key);
      assert s == s[..|s| - 1] + [s[|s| - 1]];
    }
  }

  /** The sort's output is ordered by key. */
  lemma {:induction false} SortSorts<T>(s: seq<T>, key: T -> Key)
    ensures SortedBy(SortByKey(s, key), key)
    decreases |s|
  {
    if s != [] {
      SortSorts(s[..|s| - 1], key);
      InsertSorted(s[|s| - 1], SortByKey(s[..|s| - 1], key), key);
    }
  }

  /** Stability: the elements sharing any one key keep their input order. */
  lemma {:induction false} SortIsStable<T>(s: seq<T>, key: T -> Key, k: Key)
    ensures WithKey(SortByKey(s, key), key, k) == WithKey(s, key, k)
    decreases |s|
  {
    if s != [] {
      SortIsStable(s[..|s| - 1], key, k);
      InsertKeys(s[|s| - 1], SortByKey(s[..|s| - 1], key), key, k);
    }
  }
}
