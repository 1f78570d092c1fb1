/** Cutting a sequence at a separator, and putting the pieces together again. */
module Splitting {

  function Split<T(==)>(s: seq<T>, sep: T): (parts: seq<seq<T>>)
    ensures |parts| > 0
  {
    if s == [] then [[]]
    else
      var rest := Split(s[1..], sep);
      if s[0] == sep then [[]] + rest else [[s[0]] + rest[0]] + rest[1..]
  }

  function Join<T>(parts: seq<seq<T>>, sep: T): seq<T>
    requires |parts| > 0
  {
    if |parts| == 1 then parts[0] else parts[0] + [sep] + Join(parts[1..], sep)
  }

  function Front<T>(s: seq<T>): seq<T>
    requires |s| > 0
  {
    s[..|s| - 1]
  }

  function Last<T>(s: seq<T>): T
    requires |s| > 0
  {
    s[|s| - 1]
  }

  lemma {:induction false} PartsLackSeparator<T>(s: seq<T>, sep: T)
    ensures forall p | p in Split(s, sep) :: sep !in p
  {
    if s != [] {
      PartsLackSeparator(s[1..], sep);
      var rest := Split(s[1..], sep);
      assert rest[0] in rest;
      forall p | p in Split(s, sep) ensures sep !in p {
        if p != [s[0]] + rest[0] { assert p == [] || p in rest; }
      }
    }
  }

  lemma {:induction false} JoinOfSplit<T>(s: seq<T>, sep: T)
    ensures Join(Split(s, sep), sep) == s
  {
    if s != [] {
      JoinOfSplit(s[1..], sep);
      var rest := Split(s[1..], sep);
      if s[0] == sep {
        assert ([[]] + rest)[1..] == rest;
      } else {
        assert ([[s[0]] + rest[0]] + rest[1..])[1..] == rest[1..];
      }
    }
  }

  lemma {:induction false} SplitWithout<T>(s: seq<T>, sep: T)
    requires sep !in s
    ensures Split(s, sep) == [s]
  {
    if s != [] {
      SplitWithout(s[1..], sep);
      assert [s[0]] + s[1..] == s;
    }
  }

  lemma SplitStep<T>(x: T, s: seq<T>, sep: T)
    ensures var rest := Split(s, sep);
            Split([x] + s, sep) == if x == sep then [[]] + rest else [[x] + rest[0]] + rest[1..]
  {
    assert ([x] + s)[1..] == s;
  }

  lemma Grow<T>(a: seq<seq<T>>, b: seq<seq<T>>, x: T)
    requires |a| > 0
    ensures [[x] + (a + b)[0]] + (a + b)[1..] == [[x] + a[0]] + a[1..] + b
    ensures [[]] + (a + b) == [[]] + a + b
  {
  }

  /** A separator cuts: what stands before it and after it split apart. */
  lemma {:induction false} SplitAtSeparator<T>(a: seq<T>, b: seq<T>, sep: T)
    ensures Split(a + [sep] + b, sep) == Split(a, sep) + Split(b, sep)
  {
    if a == [] {
      assert a + [sep] + b == [sep] + b;
      SplitStep(sep, b, sep);
    } else {
      var x, rest := a[0], a[1..];
      SplitAtSeparator(rest, b, sep);
      assert a == [x] + rest;
      assert a + [sep] + b == [x] + (rest + [sep] + b);
      SplitStep(x, rest + [sep] + b, sep);
      SplitStep(x, rest, sep);
      Grow(Split(rest, sep), Split(b, sep), x);
    }
  }

  lemma {:induction false} SplitOfJoin<T>(parts: seq<seq<T>>, sep: T)
    requires |parts| > 0 && forall p | p in parts :: sep !in p
    ensures Split(Join(parts, sep), sep) == parts
  {
    SplitWithout(parts[0], sep);
    if |parts| > 1 {
      SplitOfJoin(parts[1..], sep);
      SplitAtSeparator(parts[0], Join(parts[1..], sep), sep);
    }
  }

  /** Later input only continues the last part. */
  lemma {:induction false} SplitOfMore<T>(a: seq<T>, b: seq<T>, sep: T)
    ensures Split(a + b, sep) == Front(Split(a, sep)) + Split(Last(Split(a, sep)) + b, sep)
  {
    if a == [] {
      assert a + b == b;
    } else {
      var x, s := a[0], a[1..];
      SplitOfMore(s, b, sep);
      assert a == [x] + s && a + b == [x] + (s + b);
      SplitStep(x, s, sep);
      SplitStep(x, s + b, sep);
      var rest := Split(s, sep);
      if x != sep && |rest| == 1 {
        SplitStep(x, rest[0] + b, sep);
        assert [x] + (rest[0] + b) == [x] + rest[0] + b;
      } else {
        GrowFront(rest, Split(Last(rest) + b, sep), x);
      }
    }
  }

  lemma GrowFront<T>(rest: seq<seq<T>>, more: seq<seq<T>>, x: T)
    requires |rest| > 0 && |more| > 0
    ensures var grown := [[]] + rest;
            Last(grown) == Last(rest) && Front(grown) + more == [[]] + (Front(rest) + more)
    ensures |rest| > 1 ==>
              var grown, sum := [[x] + rest[0]] + rest[1..], Front(rest) + more;
              Last(grown) == Last(rest) && Front(grown) + more == [[x] + sum[0]] + sum[1..]
  {
  }

  lemma EndsOfSum<T>(a: seq<T>, b: seq<T>)
    requires |b| > 0
    ensures Front(a + b) == a + Front(b) && Last(a + b) == Last(b)
  {
  }

  /** What `f` makes of the elements, one after another. */
  function FlatMap<T, U>(f: T -> seq<U>, s: seq<T>): seq<U> {
    if s == [] then [] else f(s[0]) + FlatMap(f, s[1..])
  }

  lemma {:induction false} FlatMapOfSum<T, U>(f: T -> seq<U>, a: seq<T>, b: seq<T>)
    ensures FlatMap(f, a + b) == FlatMap(f, a) + FlatMap(f, b)
  {
    if a == [] {
      assert a + b == b;
    } else {
      FlatMapOfSum(f, a[1..], b);
      assert (a + b)[1..] == a[1..] + b;
    }
  }

  lemma FlatMapOfOne<T, U>(f: T -> seq<U>, x: T)
    ensures FlatMap(f, [x]) == f(x)
  {
    assert [x][1..] == [];
    assert FlatMap(f, [x][1..]) == [];
  }
}
