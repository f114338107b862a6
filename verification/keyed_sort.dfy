/** `Vec::sort_by_key` over a natural-number key: a stable sort, written as
    insertion of each element after every element whose key is not larger. */
module KeyedSort {

  ghost predicate SortedBy<T>(s: seq<T>, key: T -> nat)
  {
    forall i, j :: 0 <= i < j < |s| ==> key(s[i]) <= key(s[j])
  }

  function Insert<T>(sorted: seq<T>, x: T, key: T -> nat): (r: seq<T>)
    ensures |r| == |sorted| + 1
    decreases |sorted|
  {
    if sorted == [] then [x]
    else if key(sorted[|sorted| - 1]) <= key(x) then sorted + [x]
    else Insert(sorted[..|sorted| - 1], x, key) + [sorted[|sorted| - 1]]
  }

  function SortByKey<T>(s: seq<T>, key: T -> nat): (r: seq<T>)
    ensures |r| == |s|
    decreases |s|
  {
    if s == [] then [] else Insert(SortByKey(s[..|s| - 1], key), s[|s| - 1], key)
  }

  lemma {:induction false} InsertPermutes<T>(sorted: seq<T>, x: T, key: T -> nat)
    ensures multiset(Insert(sorted, x, key)) == multiset(sorted) + multiset{x}
    decreases |sorted|
  {
    if sorted != [] && key(sorted[|sorted| - 1]) > key(x) {
      var init, last := sorted[..|sorted| - 1], sorted[|sorted| - 1];
      InsertPermutes(init, x, key);
      assert sorted == init + [last];
    }
  }

  lemma {:induction false} InsertKeepsSorted<T>(sorted: seq<T>, x: T, key: T -> nat)
    requires SortedBy(sorted, key)
    ensures SortedBy(Insert(sorted, x, key), key)
    decreases |sorted|
  {
    if sorted != [] && key(sorted[|sorted| - 1]) > key(x) {
      var init, last := sorted[..|sorted| - 1], sorted[|sorted| - 1];
      InsertKeepsSorted(init, x, key);
      InsertPermutes(init, x, key);
      var ins := Insert(init, x, key);
      forall i | 0 <= i < |ins|
        ensures key(ins[i]) <= key(last)
      {
        assert ins[i] in multiset(ins);
        assert ins[i] in multiset(init) || ins[i] == x;
        if ins[i] != x {
          var j :| 0 <= j < |init| && init[j] == ins[i];
          assert sorted[j] == init[j];
        }
      }
    }
  }

  /** The sorted sequence is ordered by key and is a permutation of the input. */
  lemma {:induction false} SortByKeyCorrect<T>(s: seq<T>, key: T -> nat)
    ensures SortedBy(SortByKey(s, key), key)
    ensures multiset(SortByKey(s, key)) == multiset(s)
    decreases |s|
  {
    if s != [] {
      var init, last := s[..|s| - 1], s[|s| - 1];
      SortByKeyCorrect(init, key);
      InsertKeepsSorted(SortByKey(init, key), last, key);
      InsertPermutes(SortByKey(init, key), last, key);
      assert s == init + [last];
    }
  }
}
