/** Small vocabulary shared by the models: optional values and duplicate-free listings. */
module Basics {

  datatype Option<+T> = None | Some(value: T)

  /** No element occurs twice. */
  ghost predicate NoDup<T>(s: seq<T>) {
    forall i, j :: 0 <= i < j < |s| ==> s[i] != s[j]
  }

  ghost function Elements<T>(s: seq<T>): set<T> {
    set x | x in s
  }

  /** `s` lists every member of `whole` exactly once. */
  ghost predicate Lists<T>(s: seq<T>, whole: set<T>) {
    NoDup(s) && Elements(s) == whole
  }

  lemma {:induction false} ListSize<T>(s: seq<T>, whole: set<T>)
    requires Lists(s, whole)
    ensures |s| == |whole|
  {
    if s == [] {
      assert whole == {};
    } else {
      var last := s[|s| - 1];
      var front := s[..|s| - 1];
      assert s == front + [last];
      assert Elements(front) == whole - {last};
      ListSize(front, whole - {last});
    }
  }

  /** A duplicate-free listing of a subset is no longer than the set. */
  lemma {:induction false} NoDupBound<T>(s: seq<T>, whole: set<T>)
    requires NoDup(s) && Elements(s) <= whole
    ensures |s| <= |whole|
  {
    ListSize(s, Elements(s));
    SubsetSize(Elements(s), whole);
  }

  lemma {:induction false} SubsetSize<T>(a: set<T>, b: set<T>)
    requires a <= b
    ensures |a| <= |b|
  {
    assert b == a + (b - a);
    assert a !! (b - a);
    assert |b| == |a| + |b - a|;
  }
}
