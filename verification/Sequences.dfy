/** The filter that the modules share. */
module Sequences {
  // Keeps the elements that satisfy the predicate, in their order.
  function Filter<T(!new)>(s: seq<T>, keep: T -> bool): (r: seq<T>)
    ensures |r| <= |s| && forall x :: x in r <==> x in s && keep(x)
  {
    if s == [] then []
    else
      var init, last := s[..|s| - 1], s[|s| - 1];
      assert s == init + [last];
      Filter(init, keep) + if keep(last) then [last] else []
  }

  lemma {:induction false} FilterDepends<T(!new)>(s: seq<T>, a: T -> bool, b: T -> bool)
    requires forall x <- s :: a(x) <==> b(x)
    ensures Filter(s, a) == Filter(s, b)
  {
    if s != [] {
      FilterDepends(s[..|s| - 1], a, b);
    }
  }

  lemma LastIsSame<T>(a: seq<T>, x: T, b: seq<T>, y: T)
    requires a + [x] == b + [y]
    ensures a == b && x == y
  {
    assert |a| == |b|;
    assert a == (a + [x])[..|a|] && b == (b + [y])[..|b|];
    assert x == (a + [x])[|a|] && y == (b + [y])[|b|];
  }

  lemma FilterAppends<T(!new)>(s: seq<T>, x: T, keep: T -> bool)
    ensures Filter(s + [x], keep) == Filter(s, keep) + (if keep(x) then [x] else [])
  {
    assert (s + [x])[..|s|] == s;
  }

  lemma Associates<T>(a: seq<T>, b: seq<T>, c: seq<T>)
    ensures a + b + c == a + (b + c)
  {
  }

  /** Filtering keeps the order: the pieces of a sequence are filtered one after the other. */
  lemma {:induction false} FilterConcatenates<T(!new)>(a: seq<T>, b: seq<T>, keep: T -> bool)
    ensures Filter(a + b, keep) == Filter(a, keep) + Filter(b, keep)
  {
    if b == [] {
      assert a + b == a;
    } else {
      FilterConcatenates(a, b[..|b| - 1], keep);
      ConcatenateOneMore(a, b[..|b| - 1], b[|b| - 1], keep);
      assert b[..|b| - 1] + [b[|b| - 1]] == b;
    }
  }

  lemma ConcatenateOneMore<T(!new)>(a: seq<T>, b: seq<T>, x: T, keep: T -> bool)
    requires Filter(a + b, keep) == Filter(a, keep) + Filter(b, keep)
    ensures Filter(a + (b + [x]), keep) == Filter(a, keep) + Filter(b + [x], keep)
  {
    FilterAppends(a + b, x, keep);
    FilterAppends(b, x, keep);
    Associates(a, b, [x]);
    Associates(Filter(a, keep), Filter(b, keep), if keep(x) then [x] else []);
  }

  lemma {:induction false} FilterTwice<T(!new)>(s: seq<T>, a: T -> bool, b: T -> bool, both: T -> bool)
    requires forall x :: both(x) <==> a(x) && b(x)
    ensures Filter(Filter(s, a), b) == Filter(s, both)
  {
    if s != [] {
      var init, last := s[..|s| - 1], s[|s| - 1];
      FilterTwice(init, a, b, both);
      FilterAppends(Filter(init, a), last, b);
      assert Filter(s, a) == if a(last) then Filter(init, a) + [last] else Filter(init, a);
    }
  }
}
