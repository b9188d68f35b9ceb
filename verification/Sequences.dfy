/** Concatenation, and the subsequence of items that pass a test. */
module Sequences {

  function Filter<T>(test: T -> bool, s: seq<T>): seq<T> {
    if s == [] then []
    else
      var last := s[|s| - 1];
      if test(last) then Filter(test, s[..|s| - 1]) + [last] else Filter(test, s[..|s| - 1])
  }

  lemma {:induction false} FilterConcat<T>(test: T -> bool, s: seq<T>, t: seq<T>)
    ensures Filter(test, s + t) == Filter(test, s) + Filter(test, t)
  {
    if t == [] {
      assert s + t == s;
    } else {
      FilterConcat(test, s, t[..|t| - 1]);
      assert (s + t)[..|s + t| - 1] == s + t[..|t| - 1];
    }
  }

  lemma {:induction false} FilterCommutes<T>(one: T -> bool, two: T -> bool, s: seq<T>)
    ensures Filter(one, Filter(two, s)) == Filter(two, Filter(one, s))
  {
    if s != [] {
      var init, last := s[..|s| - 1], s[|s| - 1];
      FilterCommutes(one, two, init);
      FilterConcat(one, Filter(two, init), [last]);
      FilterConcat(two, Filter(one, init), [last]);
      assert [last][..0] == [];
    }
  }

  /** A filter keeps every copy of what passes, and nothing else. */
  lemma {:induction false} FilterCounts<T>(test: T -> bool, s: seq<T>, x: T)
    ensures multiset(Filter(test, s))[x] == if test(x) then multiset(s)[x] else 0
    ensures x in Filter(test, s) <==> test(x) && x in s
  {
    if s != [] {
      FilterCounts(test, s[..|s| - 1], x);
      assert s == s[..|s| - 1] + [s[|s| - 1]];
    }
  }

  lemma {:induction false} FilterAll<T>(test: T -> bool, s: seq<T>)
    ensures (forall x | x in s :: test(x)) ==> Filter(test, s) == s
    ensures (forall x | x in s :: !test(x)) ==> Filter(test, s) == []
  {
    if s != [] {
      FilterAll(test, s[..|s| - 1]);
      assert s == s[..|s| - 1] + [s[|s| - 1]];
      assert s[|s| - 1] in s;
    }
  }

  lemma ConcatAssociates<T>(xs: seq<T>, ys: seq<T>, zs: seq<T>)
    ensures xs + ys + zs == xs + (ys + zs)
  {
  }

  /** A concatenation ends as its second part does. */
  lemma ConcatLast<T>(xs: seq<T>, ys: seq<T>)
    requires ys != []
    ensures (xs + ys)[..|xs + ys| - 1] == xs + ys[..|ys| - 1]
    ensures (xs + ys)[|xs + ys| - 1] == ys[|ys| - 1]
  {
  }
}
