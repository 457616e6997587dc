/** The stable sort of the host language, by a comparison function. */
module StableSort {

  // The sign of a comparison orders its arguments: antisymmetric, transitive,
  // and every two compare.
  ghost predicate Preorder<T(!new)>(compare: (T, T) -> int) {
    && (forall a, b :: compare(a, b) < 0 <==> compare(b, a) > 0)
    && (forall a, b, c :: compare(a, b) <= 0 && compare(b, c) <= 0 ==> compare(a, c) <= 0)
  }

  // An element goes after those it does not precede.
  function Insert<T>(compare: (T, T) -> int, sorted: seq<T>, x: T): seq<T> {
    if sorted == [] then [x]
    else if compare(sorted[|sorted|-1], x) <= 0 then sorted + [x]
    else Insert(compare, sorted[..|sorted|-1], x) + [sorted[|sorted|-1]]
  }

  function Sort<T>(compare: (T, T) -> int, s: seq<T>): seq<T> {
    if s == [] then [] else Insert(compare, Sort(compare, s[..|s|-1]), s[|s|-1])
  }

  ghost predicate Ordered<T>(compare: (T, T) -> int, s: seq<T>) {
    forall i, j :: 0 <= i < j < |s| ==> compare(s[i], s[j]) <= 0
  }

  // Those that compare equal to x, in their order.
  function Ties<T>(compare: (T, T) -> int, s: seq<T>, x: T): seq<T> {
    if s == [] then []
    else Ties(compare, s[..|s|-1], x) + if compare(s[|s|-1], x) == 0 then [s[|s|-1]] else []
  }

  lemma {:induction false} InsertPermutes<T>(compare: (T, T) -> int, sorted: seq<T>, x: T)
    ensures var r := Insert(compare, sorted, x); multiset(r) == multiset(sorted) + multiset{x} && |r| == |sorted| + 1
    decreases |sorted|
  {
    if sorted != [] {
      assert sorted == sorted[..|sorted|-1] + [sorted[|sorted|-1]];
      InsertPermutes(compare, sorted[..|sorted|-1], x);
    }
  }

  ghost predicate AllAtMost<T>(compare: (T, T) -> int, s: seq<T>, bound: T) {
    forall i :: 0 <= i < |s| ==> compare(s[i], bound) <= 0
  }

  lemma LastIsGreatest<T(!new)>(compare: (T, T) -> int, sorted: seq<T>, bound: T)
    requires Preorder(compare) && Ordered(compare, sorted) && sorted != [] && compare(sorted[|sorted|-1], bound) <= 0
    ensures AllAtMost(compare, sorted, bound)
  {
    forall i | 0 <= i < |sorted|
      ensures compare(sorted[i], bound) <= 0
    {
      assert i < |sorted| - 1 ==> compare(sorted[i], sorted[|sorted|-1]) <= 0;
    }
  }

  lemma {:induction false} InsertOrders<T(!new)>(compare: (T, T) -> int, sorted: seq<T>, x: T)
    requires Preorder(compare) && Ordered(compare, sorted)
    ensures Ordered(compare, Insert(compare, sorted, x))
    ensures forall y :: AllAtMost(compare, sorted, y) && compare(x, y) <= 0 ==>
              AllAtMost(compare, Insert(compare, sorted, x), y)
    decreases |sorted|
  {
    if sorted != [] {
      var front, last := sorted[..|sorted|-1], sorted[|sorted|-1];
      if compare(last, x) <= 0 {
        LastIsGreatest(compare, sorted, x);
        hide Preorder;
      } else {
        InsertOrders(compare, front, x);
        assert compare(x, last) <= 0;
        hide Preorder, Insert;
        assert AllAtMost(compare, front, last);
        InsertedLast(compare, Insert(compare, front, x), last);
        forall y | AllAtMost(compare, sorted, y) && compare(x, y) <= 0
          ensures AllAtMost(compare, Insert(compare, front, x) + [last], y)
        {
          assert AllAtMost(compare, front, y) && compare(sorted[|sorted|-1], y) <= 0;
        }
      }
    }
  }

  lemma InsertedLast<T>(compare: (T, T) -> int, r: seq<T>, last: T)
    requires Ordered(compare, r) && AllAtMost(compare, r, last)
    ensures Ordered(compare, r + [last])
  {}

  lemma TiesSnoc<T>(compare: (T, T) -> int, s: seq<T>, last: T, y: T)
    ensures Ties(compare, s + [last], y) == Ties(compare, s, y) + if compare(last, y) == 0 then [last] else []
  {
    assert (s + [last])[..|s|] == s;
  }

  // What does not precede x ties with nothing that x ties with, unless equal.
  lemma {:induction false} InsertKeepsTies<T(!new)>(compare: (T, T) -> int, sorted: seq<T>, x: T, y: T)
    requires Preorder(compare)
    ensures Ties(compare, Insert(compare, sorted, x), y)
            == Ties(compare, sorted, y) + if compare(x, y) == 0 then [x] else []
    decreases |sorted|
  {
    TiesSnoc(compare, sorted, x, y);
    if sorted == [] {
      assert sorted + [x] == [x];
    } else {
      var front, last := sorted[..|sorted|-1], sorted[|sorted|-1];
      if compare(last, x) > 0 {
        InsertKeepsTies(compare, front, x, y);
        TiesSnoc(compare, Insert(compare, front, x), last, y);
        TiesAgree(compare, last, x, y);
        hide Preorder;
        assert Insert(compare, sorted, x) == Insert(compare, front, x) + [last];
      }
    }
  }

  lemma TiesAgree<T(!new)>(compare: (T, T) -> int, a: T, b: T, x: T)
    requires Preorder(compare)
    ensures compare(a, x) == 0 && compare(b, x) == 0 ==> compare(a, b) == 0
  {
    assert compare(a, x) == 0 ==> compare(x, a) == 0;
    assert compare(b, x) == 0 ==> compare(x, b) == 0;
  }

  // Sorting permutes a list into order, ties staying in their order.
  lemma {:induction false} SortSorts<T(!new)>(compare: (T, T) -> int, s: seq<T>)
    requires Preorder(compare)
    ensures Ordered(compare, Sort(compare, s)) && multiset(Sort(compare, s)) == multiset(s) && |Sort(compare, s)| == |s|
    ensures forall x :: Ties(compare, Sort(compare, s), x) == Ties(compare, s, x)
    decreases |s|
  {
    hide Preorder;
    if s != [] {
      var front, last := s[..|s|-1], s[|s|-1];
      assert s == front + [last];
      SortSorts(compare, front);
      InsertOrders(compare, Sort(compare, front), last);
      InsertPermutes(compare, Sort(compare, front), last);
      forall x
        ensures Ties(compare, Sort(compare, s), x) == Ties(compare, s, x)
      {
        InsertKeepsTies(compare, Sort(compare, front), last, x);
      }
    }
  }
}
