/** What sort.SliceStable promises of a batch under CompareItems, and that this determines the result. */
module Sorting {
  import opened Frontiers
  import opened Items
  import opened Sequences

  function HasKey(k: Frontier): CheckItem -> bool {
    (item: CheckItem) => Key(item) == k
  }

  predicate Ordered(s: seq<CheckItem>) {
    forall i, j | 0 <= i < j < |s| :: CompareItems(s[i], s[j]) <= 0
  }

  /** The items that compare equal to one another keep their order. */
  ghost predicate SameRuns(s: seq<CheckItem>, t: seq<CheckItem>) {
    forall k :: Filter(HasKey(k), s) == Filter(HasKey(k), t)
  }

  function Insert(s: seq<CheckItem>, x: CheckItem): seq<CheckItem> {
    if s == [] then [x]
    else if CompareItems(s[|s| - 1], x) <= 0 then s + [x]
    else Insert(s[..|s| - 1], x) + [s[|s| - 1]]
  }

  function StableSort(s: seq<CheckItem>): seq<CheckItem> {
    if s == [] then [] else Insert(StableSort(s[..|s| - 1]), s[|s| - 1])
  }

  lemma NotAboveTransitive(a: CheckItem, b: CheckItem, c: CheckItem)
    requires CompareItems(a, b) <= 0 && CompareItems(b, c) <= 0
    ensures CompareItems(a, c) <= 0
  {
    CompareItemsIsKeyOrder(b, a);
    CompareItemsIsKeyOrder(c, b);
    CompareItemsIsKeyOrder(c, a);
    AtMostTransitive(Key(a), Key(b), Key(c));
  }

  lemma {:induction false} InsertMembers(s: seq<CheckItem>, x: CheckItem)
    ensures forall i | 0 <= i < |Insert(s, x)| :: Insert(s, x)[i] == x || Insert(s, x)[i] in s
  {
    if s != [] {
      InsertMembers(s[..|s| - 1], x);
    }
  }

  lemma {:induction false} InsertPermutes(s: seq<CheckItem>, x: CheckItem)
    ensures multiset(Insert(s, x)) == multiset(s) + multiset{x}
  {
    if s != [] {
      InsertPermutes(s[..|s| - 1], x);
      assert s == s[..|s| - 1] + [s[|s| - 1]];
    }
  }

  lemma {:induction false} OrderedAppend(s: seq<CheckItem>, x: CheckItem)
    requires Ordered(s) && forall i | 0 <= i < |s| :: CompareItems(s[i], x) <= 0
    ensures Ordered(s + [x])
  {
  }

  lemma {:induction false} BelowLast(s: seq<CheckItem>, x: CheckItem)
    requires s != [] && Ordered(s) && CompareItems(s[|s| - 1], x) <= 0
    ensures forall i | 0 <= i < |s| :: CompareItems(s[i], x) <= 0
  {
    forall i | 0 <= i < |s| - 1 ensures CompareItems(s[i], x) <= 0 {
      NotAboveTransitive(s[i], s[|s| - 1], x);
    }
  }

  lemma {:induction false} InsertOrders(s: seq<CheckItem>, x: CheckItem)
    requires Ordered(s)
    ensures Ordered(Insert(s, x))
  {
    if s != [] {
      var init, last := s[..|s| - 1], s[|s| - 1];
      if CompareItems(last, x) <= 0 {
        BelowLast(s, x);
        OrderedAppend(s, x);
      } else {
        InsertOrders(init, x);
        InsertMembers(init, x);
        CompareItemsIsKeyOrder(last, x);
        forall i | 0 <= i < |Insert(init, x)| ensures CompareItems(Insert(init, x)[i], last) <= 0 {}
        OrderedAppend(Insert(init, x), last);
      }
    }
  }

  lemma {:induction false} InsertStable(s: seq<CheckItem>, x: CheckItem, k: Frontier)
    requires Ordered(s)
    ensures Filter(HasKey(k), Insert(s, x)) == Filter(HasKey(k), s + [x])
  {
    if s != [] && CompareItems(s[|s| - 1], x) > 0 {
      var init, last := s[..|s| - 1], s[|s| - 1];
      InsertStable(init, x, k);
      CompareItemsIsKeyOrder(last, x);
      assert (s + [x])[..|s|] == s && (init + [x])[..|init|] == init;
      assert (Insert(init, x) + [last])[..|Insert(init, x)|] == Insert(init, x);
    } else {
      assert s == [] ==> s + [x] == [x];
    }
  }

  /** Sorted, a permutation, and stable. */
  lemma {:induction false} StableSortCorrect(s: seq<CheckItem>)
    ensures Ordered(StableSort(s))
    ensures multiset(StableSort(s)) == multiset(s)
    ensures SameRuns(StableSort(s), s)
  {
    if s != [] {
      var init, last := s[..|s| - 1], s[|s| - 1];
      assert s == init + [last];
      StableSortCorrect(init);
      InsertPermutes(StableSort(init), last);
      InsertOrders(StableSort(init), last);
      forall k ensures Filter(HasKey(k), StableSort(s)) == Filter(HasKey(k), s) {
        InsertStable(StableSort(init), last, k);
        FilterConcat(HasKey(k), StableSort(init), [last]);
        FilterConcat(HasKey(k), init, [last]);
      }
    }
  }

  lemma LastOfRun(s: seq<CheckItem>)
    requires s != []
    ensures var run := Filter(HasKey(Key(s[|s| - 1])), s);
            run != [] && run[|run| - 1] == s[|s| - 1]
  {
  }

  lemma OrderedLast(s: seq<CheckItem>, x: CheckItem)
    requires Ordered(s) && x in s
    ensures AtMost(Key(x), Key(s[|s| - 1]))
  {
    BelowTotal(Key(x), Key(x));
    CompareItemsIsKeyOrder(s[|s| - 1], x);
  }

  lemma OrderedRunsEndAlike(s: seq<CheckItem>, t: seq<CheckItem>)
    requires Ordered(s) && Ordered(t) && SameRuns(s, t) && s != []
    ensures t != [] && s[|s| - 1] == t[|t| - 1]
  {
    var x := s[|s| - 1];
    LastOfRun(s);
    assert Filter(HasKey(Key(x)), s) == Filter(HasKey(Key(x)), t);
    FilterCounts(HasKey(Key(x)), t, x);
    OrderedLast(t, x);
    var y := t[|t| - 1];
    LastOfRun(t);
    assert Filter(HasKey(Key(y)), s) == Filter(HasKey(Key(y)), t);
    FilterCounts(HasKey(Key(y)), s, y);
    OrderedLast(s, y);
    BelowTotal(Key(x), Key(y));
  }

  /** Two ordered sequences with the same runs are the same sequence. */
  lemma {:induction false} OrderedRunsDetermine(s: seq<CheckItem>, t: seq<CheckItem>)
    requires Ordered(s) && Ordered(t) && SameRuns(s, t)
    ensures s == t
  {
    if s != [] {
      OrderedRunsEndAlike(s, t);
      forall k ensures Filter(HasKey(k), s[..|s| - 1]) == Filter(HasKey(k), t[..|t| - 1]) {
        var u, v := Filter(HasKey(k), s[..|s| - 1]), Filter(HasKey(k), t[..|t| - 1]);
        assert Filter(HasKey(k), s) == Filter(HasKey(k), t);
        assert u == (u + [s[|s| - 1]])[..|u|] && v == (v + [t[|t| - 1]])[..|v|];
      }
      OrderedRunsDetermine(s[..|s| - 1], t[..|t| - 1]);
      assert s == s[..|s| - 1] + [s[|s| - 1]] && t == t[..|t| - 1] + [t[|t| - 1]];
    } else if t != [] {
      OrderedRunsEndAlike(t, s);
    }
  }

  /** Any stable sort of a batch is this one, so the library's algorithm does not matter. */
  lemma StableSortIsDetermined(s: seq<CheckItem>, t: seq<CheckItem>)
    requires Ordered(t) && SameRuns(t, s)
    ensures t == StableSort(s)
  {
    StableSortCorrect(s);
    forall k ensures Filter(HasKey(k), t) == Filter(HasKey(k), StableSort(s)) {
      assert Filter(HasKey(k), t) == Filter(HasKey(k), s);
      assert Filter(HasKey(k), StableSort(s)) == Filter(HasKey(k), s);
    }
    OrderedRunsDetermine(t, StableSort(s));
  }

  /** No two different items of the batch compare equal. */
  predicate Antisymmetric(s: seq<CheckItem>) {
    forall a, b | a in s && b in s && CompareItems(a, b) == 0 :: a == b
  }

  lemma {:induction false} FilterOfEqualItems(s: seq<CheckItem>, t: seq<CheckItem>, x: CheckItem)
    requires forall y | y in s || y in t :: y == x
    requires multiset(s)[x] == multiset(t)[x]
    ensures s == t
  {
    forall i | 0 <= i < |s| ensures s[i] == x { assert s[i] in s; }
    forall i | 0 <= i < |t| ensures t[i] == x { assert t[i] in t; }
    OneItemRepeated(s, x);
    OneItemRepeated(t, x);
  }

  lemma {:induction false} OneItemRepeated(s: seq<CheckItem>, x: CheckItem)
    requires forall i | 0 <= i < |s| :: s[i] == x
    ensures multiset(s)[x] == |s|
  {
    if s != [] {
      OneItemRepeated(s[..|s| - 1], x);
      assert s == s[..|s| - 1] + [s[|s| - 1]];
    }
  }

  lemma {:induction false} PermutedRunCounts(s: seq<CheckItem>, t: seq<CheckItem>, k: Frontier, y: CheckItem)
    requires multiset(s) == multiset(t)
    ensures var a, b := Filter(HasKey(k), s), Filter(HasKey(k), t);
            && (y in a <==> y in s && Key(y) == k) && (y in b <==> y in s && Key(y) == k)
            && multiset(a)[y] == multiset(b)[y]
  {
    FilterCounts(HasKey(k), s, y);
    FilterCounts(HasKey(k), t, y);
    assert y in s <==> y in multiset(s);
    assert y in t <==> y in multiset(t);
  }

  lemma {:induction false} PermutedRunsAreEqual(s: seq<CheckItem>, t: seq<CheckItem>, k: Frontier)
    requires multiset(s) == multiset(t) && Antisymmetric(s)
    ensures Filter(HasKey(k), s) == Filter(HasKey(k), t)
  {
    var a, b := Filter(HasKey(k), s), Filter(HasKey(k), t);
    if a + b != [] {
      var x := (a + b)[0];
      assert x in a || x in b;
      PermutedRunCounts(s, t, k, x);
      forall y | y in a || y in b ensures y == x {
        PermutedRunCounts(s, t, k, y);
        CompareItemsIsKeyOrder(y, x);
      }
      FilterOfEqualItems(a, b, x);
    }
  }

  /** Permutations of such a batch sort alike. */
  lemma PermutationsSortAlike(s: seq<CheckItem>, t: seq<CheckItem>)
    requires multiset(s) == multiset(t) && Antisymmetric(s)
    ensures StableSort(s) == StableSort(t)
  {
    StableSortCorrect(t);
    forall k ensures Filter(HasKey(k), StableSort(t)) == Filter(HasKey(k), s) {
      PermutedRunsAreEqual(s, t, k);
      assert Filter(HasKey(k), StableSort(t)) == Filter(HasKey(k), t);
    }
    StableSortIsDetermined(s, StableSort(t));
  }
}
