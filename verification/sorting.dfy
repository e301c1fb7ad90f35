/** The stable sort behind `Array.prototype.sort` with a comparator. JavaScript
    sorts stably, so for a given comparator the result is fully determined: it
    is ordered, it is a permutation of the input, and elements the comparator
    ranks equal keep their relative order. The model is an insertion sort
    parameterised by `before(x, y)`, "x may be placed ahead of y". */
module Sorting {

  import opened Seqs
  import Text

  /** Inserts `x` ahead of the first element it may precede. */
  function Insert<T>(x: T, t: seq<T>, before: (T, T) -> bool): (r: seq<T>)
    ensures multiset(r) == multiset(t) + multiset{x}
    ensures |r| == |t| + 1
  {
    if |t| == 0 then [x]
    else if before(x, t[0]) then [x] + t
    else
      assert t == [t[0]] + t[1..];
      [t[0]] + Insert(x, t[1..], before)
  }

  /** Insertion sort: the earlier element is inserted last, ahead of equals. */
  function Sort<T>(s: seq<T>, before: (T, T) -> bool): (r: seq<T>)
    ensures multiset(r) == multiset(s)
    ensures |r| == |s|
  {
    if |s| == 0 then []
    else
      assert s == [s[0]] + s[1..];
      Insert(s[0], Sort(s[1..], before), before)
  }

  ghost predicate Total<T(!new)>(before: (T, T) -> bool)
  {
    forall x, y :: before(x, y) || before(y, x)
  }

  ghost predicate Transitive<T(!new)>(before: (T, T) -> bool)
  {
    forall x, y, z :: before(x, y) && before(y, z) ==> before(x, z)
  }

  /** Every element is allowed ahead of every later one. */
  ghost predicate Ordered<T>(s: seq<T>, before: (T, T) -> bool)
  {
    forall i, j :: 0 <= i < j < |s| ==> before(s[i], s[j])
  }

  lemma {:induction false} InsertOrdered<T(!new)>(x: T, t: seq<T>, before: (T, T) -> bool)
    requires Total(before) && Transitive(before)
    requires Ordered(t, before)
    ensures Ordered(Insert(x, t, before), before)
    decreases |t|
  {
    if |t| > 0 && !before(x, t[0]) {
      var tail := Insert(x, t[1..], before);
      InsertOrdered(x, t[1..], before);
      forall j | 0 <= j < |tail| ensures before(t[0], tail[j]) {
        assert tail[j] in multiset(tail);
        if tail[j] != x {
          assert tail[j] in multiset(t[1..]);
          var k :| 0 <= k < |t[1..]| && t[1..][k] == tail[j];
          assert t[k + 1] == tail[j];
        }
      }
    }
  }

  /** Under a total preorder the sort is ordered. */
  lemma {:induction false} SortOrdered<T(!new)>(s: seq<T>, before: (T, T) -> bool)
    requires Total(before) && Transitive(before)
    ensures Ordered(Sort(s, before), before)
    decreases |s|
  {
    if |s| > 0 {
      SortOrdered(s[1..], before);
      InsertOrdered(s[0], Sort(s[1..], before), before);
    }
  }

  /** Stability for one class `p` of mutually equal elements: the class
      appears in the output exactly as in the input. */
  lemma {:induction false} InsertStable<T>(x: T, t: seq<T>, before: (T, T) -> bool, p: T -> bool)
    requires forall a, b :: p(a) && p(b) ==> before(a, b)
    ensures Filter(Insert(x, t, before), p) == (if p(x) then [x] else []) + Filter(t, p)
    decreases |t|
  {
    if |t| > 0 && !before(x, t[0]) {
      InsertStable(x, t[1..], before, p);
      assert !(p(x) && p(t[0]));
    }
  }

  lemma {:induction false} SortStable<T>(s: seq<T>, before: (T, T) -> bool, p: T -> bool)
    requires forall a, b :: p(a) && p(b) ==> before(a, b)
    ensures Filter(Sort(s, before), p) == Filter(s, p)
    decreases |s|
  {
    if |s| > 0 {
      SortStable(s[1..], before, p);
      InsertStable(s[0], Sort(s[1..], before), before, p);
    }
  }

  // ------------------------------------------------ numeric keys, descending

  /** `sort((a, b) => key(b) - key(a))`: largest key first. */
  function SortDesc<T>(s: seq<T>, key: T -> int): seq<T>
  {
    Sort(s, (x, y) => key(x) >= key(y))
  }

  /** The elements of `s` whose key is `k`, in order. */
  function KeyClass<T>(s: seq<T>, key: T -> int, k: int): seq<T>
  {
    Filter(s, x => key(x) == k)
  }

  /** The descending sort is a permutation, non-increasing in the key, and
      stable: each group of equal keys keeps its original order. */
  lemma SortDescSpec<T(!new)>(s: seq<T>, key: T -> int)
    ensures multiset(SortDesc(s, key)) == multiset(s)
    ensures forall i, j :: 0 <= i < j < |SortDesc(s, key)| ==> key(SortDesc(s, key)[i]) >= key(SortDesc(s, key)[j])
    ensures forall k :: KeyClass(SortDesc(s, key), key, k) == KeyClass(s, key, k)
  {
    var before := (x, y) => key(x) >= key(y);
    SortOrdered(s, before);
    forall k ensures KeyClass(SortDesc(s, key), key, k) == KeyClass(s, key, k) {
      SortStable(s, before, x => key(x) == k);
    }
  }

  /** Filtering and then sorting descending, as the list pages do: exactly
      the selected elements with their multiplicities, non-increasing in the
      key, and each group of equal keys in the order of the original list. */
  lemma FilterSortDesc<T(!new)>(s: seq<T>, p: T -> bool, key: T -> int)
    ensures forall x :: multiset(SortDesc(Filter(s, p), key))[x] == if p(x) then multiset(s)[x] else 0
    ensures forall i, j :: 0 <= i < j < |SortDesc(Filter(s, p), key)| ==>
              key(SortDesc(Filter(s, p), key)[i]) >= key(SortDesc(Filter(s, p), key)[j])
    ensures forall k :: IsSubseq(KeyClass(SortDesc(Filter(s, p), key), key, k), s)
  {
    var kept := Filter(s, p);
    FilterSpec(s, p);
    SortDescSpec(kept, key);
    forall k ensures IsSubseq(KeyClass(SortDesc(kept, key), key, k), s) {
      FilterSpec(kept, x => key(x) == k);
      SubseqTrans(KeyClass(kept, key, k), kept, s);
    }
  }

  // ------------------------------------------------ names, ascending

  /** `sort((a, b) => name(a).localeCompare(name(b)))`, with character-code
      order standing in for the locale's collation. */
  function SortByName<T>(s: seq<T>, name: T -> string): seq<T>
  {
    Sort(s, (x, y) => Text.LexLe(name(x), name(y)))
  }

  /** The elements of `s` named `n`, in order. */
  function NameClass<T>(s: seq<T>, name: T -> string, n: string): seq<T>
  {
    Filter(s, x => name(x) == n)
  }

  /** The name sort is a permutation, ascending in the name, and stable:
      elements with the same name keep their original order. */
  lemma SortByNameSpec<T(!new)>(s: seq<T>, name: T -> string)
    ensures multiset(SortByName(s, name)) == multiset(s)
    ensures forall i, j :: 0 <= i < j < |SortByName(s, name)| ==>
              Text.LexLe(name(SortByName(s, name)[i]), name(SortByName(s, name)[j]))
    ensures forall n :: NameClass(SortByName(s, name), name, n) == NameClass(s, name, n)
  {
    var before := (x, y) => Text.LexLe(name(x), name(y));
    forall x, y ensures before(x, y) || before(y, x) {
      Text.LexTotal(name(x), name(y));
    }
    forall x, y, z | before(x, y) && before(y, z) ensures before(x, z) {
      Text.LexTrans(name(x), name(y), name(z));
    }
    SortOrdered(s, before);
    forall n ensures NameClass(SortByName(s, name), name, n) == NameClass(s, name, n) {
      SortStable(s, before, x => name(x) == n);
    }
  }

  /** Filtering and then sorting by name: exactly the selected elements with
      their multiplicities, ascending in the name, and each group of equal
      names in the order of the original list. */
  lemma FilterSortByName<T(!new)>(s: seq<T>, p: T -> bool, name: T -> string)
    ensures forall x :: multiset(SortByName(Filter(s, p), name))[x] == if p(x) then multiset(s)[x] else 0
    ensures forall i, j :: 0 <= i < j < |SortByName(Filter(s, p), name)| ==>
              Text.LexLe(name(SortByName(Filter(s, p), name)[i]), name(SortByName(Filter(s, p), name)[j]))
    ensures forall n :: IsSubseq(NameClass(SortByName(Filter(s, p), name), name, n), s)
  {
    var kept := Filter(s, p);
    FilterSpec(s, p);
    SortByNameSpec(kept, name);
    forall n ensures IsSubseq(NameClass(SortByName(kept, name), name, n), s) {
      FilterSpec(kept, x => name(x) == n);
      SubseqTrans(NameClass(kept, name, n), kept, s);
    }
  }
}
