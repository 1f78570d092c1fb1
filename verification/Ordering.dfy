/** The lexicographic order of strings, and sorting by any order. */
module Ordering {

  predicate Less(a: string, b: string) {
    if b == "" then false
    else if a == "" then true
    else a[0] < b[0] || (a[0] == b[0] && Less(a[1..], b[1..]))
  }

  lemma {:induction false} LessIsTotal(a: string, b: string)
    ensures Less(a, b) || a == b || Less(b, a)
  {
    if a != "" && b != "" && a[0] == b[0] {
      LessIsTotal(a[1..], b[1..]);
      assert a == [a[0]] + a[1..] && b == [b[0]] + b[1..];
    }
  }

  lemma {:induction false} LessIsStrict(a: string, b: string)
    requires Less(a, b)
    ensures a != b && !Less(b, a)
  {
    if a != "" && a[0] == b[0] { LessIsStrict(a[1..], b[1..]); }
  }

  lemma {:induction false} LessIsTransitive(a: string, b: string, c: string)
    requires Less(a, b) && Less(b, c)
    ensures Less(a, c)
  {
    if a != "" && a[0] == b[0] == c[0] { LessIsTransitive(a[1..], b[1..], c[1..]); }
  }

  // ------------------------------------------------------------------ sorting

  /** What sorting needs of a comparison: elements may tie. */
  ghost predicate WeakOrder<T(!new)>(less: (T, T) -> bool) {
    && (forall a, b :: less(a, b) ==> !less(b, a))
    && (forall a, b, c :: !less(b, a) && !less(c, b) ==> !less(c, a))
  }

  /** Only equal elements tie. */
  ghost predicate TotalOrder<T(!new)>(less: (T, T) -> bool) {
    WeakOrder(less) && forall a, b :: less(a, b) || a == b || less(b, a)
  }

  lemma LessIsOrder()
    ensures TotalOrder(Less)
  {
    forall a, b ensures Less(a, b) ==> !Less(b, a) {
      if Less(a, b) { LessIsStrict(a, b); }
    }
    forall a, b ensures Less(a, b) || a == b || Less(b, a) {
      LessIsTotal(a, b);
    }
    forall a, b, c | !Less(b, a) && !Less(c, b) ensures !Less(c, a) {
      LessIsTotal(a, b);
      LessIsTotal(b, c);
      if Less(a, b) && Less(b, c) {
        LessIsTransitive(a, b, c);
        LessIsStrict(a, c);
      }
    }
  }

  ghost predicate SortedWith<T(!new)>(s: seq<T>, less: (T, T) -> bool) {
    forall i, j | 0 <= i < j < |s| :: !less(s[j], s[i])
  }

  ghost predicate StrictlySortedWith<T(!new)>(s: seq<T>, less: (T, T) -> bool) {
    forall i, j | 0 <= i < j < |s| :: less(s[i], s[j])
  }

  function Insert<T>(x: T, s: seq<T>, less: (T, T) -> bool): seq<T> {
    if s == [] then [x]
    else if less(s[0], x) then [s[0]] + Insert(x, s[1..], less)
    else [x] + s
  }

  function SortWith<T>(s: seq<T>, less: (T, T) -> bool): seq<T> {
    if s == [] then [] else Insert(s[0], SortWith(s[1..], less), less)
  }

  lemma {:induction false} InsertAdds<T(!new)>(x: T, s: seq<T>, less: (T, T) -> bool)
    ensures multiset(Insert(x, s, less)) == multiset(s) + multiset{x}
  {
    if s != [] && less(s[0], x) {
      InsertAdds(x, s[1..], less);
      assert s == [s[0]] + s[1..];
    }
  }

  lemma InsertMembers<T(!new)>(x: T, s: seq<T>, less: (T, T) -> bool, y: T)
    ensures y in Insert(x, s, less) <==> y == x || y in s
  {
    InsertAdds(x, s, less);
    assert y in Insert(x, s, less) <==> y in multiset(Insert(x, s, less));
  }

  lemma SortedCons<T(!new)>(x: T, s: seq<T>, less: (T, T) -> bool)
    requires SortedWith(s, less) && forall y | y in s :: !less(y, x)
    ensures SortedWith([x] + s, less)
  {
  }

  lemma {:induction false} InsertKeepsSorted<T(!new)>(x: T, s: seq<T>, less: (T, T) -> bool)
    requires WeakOrder(less) && SortedWith(s, less)
    ensures SortedWith(Insert(x, s, less), less)
  {
    if s == [] {
    } else if less(s[0], x) {
      var rest := Insert(x, s[1..], less);
      InsertKeepsSorted(x, s[1..], less);
      forall y | y in rest ensures !less(y, s[0]) {
        InsertMembers(x, s[1..], less, y);
      }
      SortedCons(s[0], rest, less);
    } else {
      forall j | 0 <= j < |s| ensures !less(s[j], x) {
        assert j > 0 ==> !less(s[j], s[0]);
      }
      SortedCons(x, s, less);
    }
  }

  lemma {:induction false} SortWithSorts<T(!new)>(s: seq<T>, less: (T, T) -> bool)
    requires WeakOrder(less)
    ensures SortedWith(SortWith(s, less), less) && multiset(SortWith(s, less)) == multiset(s)
  {
    if s != [] {
      SortWithSorts(s[1..], less);
      InsertKeepsSorted(s[0], SortWith(s[1..], less), less);
      InsertAdds(s[0], SortWith(s[1..], less), less);
      assert s == [s[0]] + s[1..];
    }
  }

  lemma SortWithMembers<T(!new)>(s: seq<T>, less: (T, T) -> bool)
    requires WeakOrder(less)
    ensures forall x :: x in SortWith(s, less) <==> x in s
    ensures |SortWith(s, less)| == |s|
  {
    SortWithSorts(s, less);
    var t := SortWith(s, less);
    assert |multiset(s)| == |s| && |multiset(t)| == |t|;
    forall x ensures x in t <==> x in s {
      assert x in s <==> x in multiset(s);
      assert x in t <==> x in multiset(t);
    }
  }

  lemma RestOf<T(!new)>(s: seq<T>)
    requires s != []
    ensures s[0] in s && multiset(s[1..]) == multiset(s) - multiset{s[0]}
  {
    assert s == [s[0]] + s[1..];
  }

  lemma FirstIsLeast<T(!new)>(s: seq<T>, less: (T, T) -> bool, x: T)
    requires WeakOrder(less) && SortedWith(s, less) && x in s
    ensures !less(x, s[0])
  {
    var i :| 0 <= i < |s| && s[i] == x;
    assert !less(x, x);
  }

  /** In a total order, what is sorted is determined by its multiplicities. */
  lemma {:induction false} SortedIsUnique<T(!new)>(a: seq<T>, b: seq<T>, less: (T, T) -> bool)
    requires TotalOrder(less) && SortedWith(a, less) && SortedWith(b, less) && multiset(a) == multiset(b)
    ensures a == b
    decreases |a|
  {
    assert |a| == |multiset(a)| == |multiset(b)| == |b|;
    if a != [] {
      RestOf(a);
      RestOf(b);
      assert a[0] in multiset(b) && b[0] in multiset(a);
      FirstIsLeast(a, less, b[0]);
      FirstIsLeast(b, less, a[0]);
      SortedIsUnique(a[1..], b[1..], less);
      assert a == [a[0]] + a[1..] && b == [b[0]] + b[1..];
    }
  }

  /** Without repetitions, sorted is strictly sorted. */
  lemma SortedDistinct<T(!new)>(s: seq<T>, less: (T, T) -> bool)
    requires TotalOrder(less) && SortedWith(s, less) && Distinct(s)
    ensures StrictlySortedWith(s, less)
  {
  }

  lemma StrictlyOnce<T(!new)>(s: seq<T>, less: (T, T) -> bool, x: T)
    requires WeakOrder(less) && StrictlySortedWith(s, less) && s != []
    ensures x in s[1..] <==> x in s && x != s[0]
  {
    forall i | 1 <= i < |s| ensures s[i] != s[0] {
      assert less(s[0], s[i]);
    }
    assert s == [s[0]] + s[1..];
  }

  lemma StrictlyFirst<T(!new)>(s: seq<T>, less: (T, T) -> bool, x: T)
    requires WeakOrder(less) && StrictlySortedWith(s, less) && x in s
    ensures x == s[0] || less(s[0], x)
  {
    var i :| 0 <= i < |s| && s[i] == x;
  }

  lemma HasMember<T(!new)>(s: seq<T>)
    requires s != []
    ensures exists x :: x in s
  {
    assert s[0] in s;
  }

  /** A strictly sorted sequence is determined by its members. */
  lemma {:induction false} StrictlySortedIsUnique<T(!new)>(a: seq<T>, b: seq<T>, less: (T, T) -> bool)
    requires WeakOrder(less) && StrictlySortedWith(a, less) && StrictlySortedWith(b, less) && forall x :: x in a <==> x in b
    ensures a == b
    decreases |a|
  {
    if a != [] { HasMember(a); }
    if b != [] { HasMember(b); }
    if a != [] {
      assert a[0] in a && b[0] in b;
      StrictlyFirst(b, less, a[0]);
      StrictlyFirst(a, less, b[0]);
      forall x ensures x in a[1..] <==> x in b[1..] {
        StrictlyOnce(a, less, x);
        StrictlyOnce(b, less, x);
      }
      StrictlySortedIsUnique(a[1..], b[1..], less);
      assert a == [a[0]] + a[1..] && b == [b[0]] + b[1..];
    }
  }

  // ------------------------------------------------------------------ strings

  function SortStrings(s: seq<string>): seq<string> {
    SortWith(s, Less)
  }

  ghost predicate StrictlySorted(s: seq<string>) {
    StrictlySortedWith(s, Less)
  }

  lemma SortStringsMembers(s: seq<string>)
    ensures forall x :: x in SortStrings(s) <==> x in s
  {
    LessIsOrder();
    SortWithMembers(s, Less);
  }

  // ---------------------------------------------------------- no repetitions

  ghost predicate Distinct<T(!new)>(s: seq<T>) {
    forall i, j | 0 <= i < j < |s| :: s[i] != s[j]
  }

  lemma {:induction false} OccursOnce<T(!new)>(s: seq<T>, x: T)
    requires Distinct(s)
    ensures multiset(s)[x] <= 1
  {
    if s != [] {
      OccursOnce(s[1..], x);
      assert s == [s[0]] + s[1..];
      assert x == s[0] ==> x !in s[1..];
    }
  }

  lemma {:induction false} CountedOnce<T(!new)>(s: seq<T>)
    requires forall x :: multiset(s)[x] <= 1
    ensures Distinct(s)
  {
    if s != [] {
      var rest := s[1..];
      assert s == [s[0]] + rest;
      assert forall x :: multiset(s)[x] >= multiset(rest)[x];
      CountedOnce(rest);
      assert multiset(rest)[s[0]] == 0;
      forall j | 1 <= j < |s| ensures s[0] != s[j] {
        assert s[j] == rest[j - 1] && rest[j - 1] in multiset(rest);
      }
    }
  }

  /** A permutation of something without repetitions has none either. */
  lemma DistinctPermutation<T(!new)>(s: seq<T>, t: seq<T>)
    requires Distinct(s) && multiset(s) == multiset(t)
    ensures Distinct(t) && |t| == |s| && forall x :: x in t <==> x in s
  {
    forall x ensures multiset(t)[x] <= 1 {
      OccursOnce(s, x);
    }
    CountedOnce(t);
    assert |multiset(s)| == |s| && |multiset(t)| == |t|;
    forall x ensures x in t <==> x in s {
      assert x in s <==> x in multiset(s);
      assert x in t <==> x in multiset(t);
    }
  }

  /** Sorting what has no repetitions gives the one strictly sorted sequence. */
  lemma DistinctAfterSort<T(!new)>(s: seq<T>, less: (T, T) -> bool)
    requires TotalOrder(less) && Distinct(s)
    ensures StrictlySortedWith(SortWith(s, less), less) && forall x :: x in SortWith(s, less) <==> x in s
  {
    SortWithSorts(s, less);
    DistinctPermutation(s, SortWith(s, less));
    SortedDistinct(SortWith(s, less), less);
  }
}
