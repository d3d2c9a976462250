/** Sorting operand lists by the expression order. The source hands this to
    the runtime's array sort; because the order is total and answers 0 only
    for equal expressions, every correct sort produces the same list
    (SortedUnique), so one reference sort stands for all of them. */
module Sorting {
  import opened Expressions
  import opened Ordering

  /** Each element is at most every later one. */
  predicate Sorted(s: seq<Expr>) {
    forall i, j :: 0 <= i < j < |s| ==> Compare(s[i], s[j]) <= 0
  }

  lemma TailSorted(s: seq<Expr>)
    requires Sorted(s) && |s| > 0
    ensures Sorted(s[1..])
  {
  }

  /** An element at most every element of an ordered list may lead it. */
  lemma ConsSorted(a: Expr, t: seq<Expr>)
    requires Sorted(t)
    requires forall k :: 0 <= k < |t| ==> Compare(a, t[k]) <= 0
    ensures Sorted([a] + t)
  {
    var r := [a] + t;
    forall i, j | 0 <= i < j < |r|
      ensures Compare(r[i], r[j]) <= 0
    {
      if i > 0 {
        assert r[i] == t[i - 1] && r[j] == t[j - 1];
      } else {
        assert r[j] == t[j - 1];
      }
    }
  }

  /** An element at most the head of an ordered list is at most all of it. */
  lemma LeadBound(x: Expr, s: seq<Expr>)
    requires Sorted(s) && |s| > 0 && Compare(x, s[0]) <= 0
    ensures forall k :: 0 <= k < |s| ==> Compare(x, s[k]) <= 0
  {
    forall k | 0 < k < |s|
      ensures Compare(x, s[k]) <= 0
    {
      CompareLeTrans(x, s[0], s[k]);
    }
  }

  /** Insert x before the first element it is at most; the new head is the
      inserted element or the old head. */
  function Insert(x: Expr, s: seq<Expr>): (r: seq<Expr>)
    ensures |r| == |s| + 1
    ensures r[0] == x || (|s| > 0 && r[0] == s[0])
  {
    if s == [] then [x]
    else if Compare(x, s[0]) <= 0 then [x] + s
    else [s[0]] + Insert(x, s[1..])
  }

  /** Inserting into an ordered list keeps it ordered. */
  lemma {:induction false} InsertSorted(x: Expr, s: seq<Expr>)
    requires Sorted(s)
    ensures Sorted(Insert(x, s))
  {
    if s == [] {
      assert Insert(x, s) == [x];
    } else if Compare(x, s[0]) <= 0 {
      LeadBound(x, s);
      ConsSorted(x, s);
    } else {
      CompareAntisym(x, s[0]);
      TailSorted(s);
      var t := Insert(x, s[1..]);
      InsertSorted(x, s[1..]);
      assert Compare(s[0], t[0]) <= 0 by {
        if t[0] != x {
          assert t[0] == s[1];
        }
      }
      LeadBound(s[0], t);
      ConsSorted(s[0], t);
    }
  }

  /** Insertion adds exactly the inserted element. */
  lemma {:induction false} InsertPerm(x: Expr, s: seq<Expr>)
    ensures multiset(Insert(x, s)) == multiset(s) + multiset{x}
  {
    if s != [] && Compare(x, s[0]) > 0 {
      InsertPerm(x, s[1..]);
      assert s == [s[0]] + s[1..];
    }
  }

  /** Insertion sort; SortSorted shows its result is ordered and SortPerm
      that it permutes its input. */
  function SortTerms(s: seq<Expr>): (r: seq<Expr>)
    ensures |r| == |s|
  {
    if s == [] then []
    else Insert(s[0], SortTerms(s[1..]))
  }

  /** The sort's result is ordered. */
  lemma {:induction false} SortSorted(s: seq<Expr>)
    ensures Sorted(SortTerms(s))
  {
    if s != [] {
      SortSorted(s[1..]);
      InsertSorted(s[0], SortTerms(s[1..]));
    }
  }

  /** The sort keeps exactly the elements of its input. */
  lemma {:induction false} SortPerm(s: seq<Expr>)
    ensures multiset(SortTerms(s)) == multiset(s)
  {
    if s != [] {
      SortPerm(s[1..]);
      InsertPerm(s[0], SortTerms(s[1..]));
      assert s == [s[0]] + s[1..];
    }
  }

  /** Two ordered non-empty lists with the same elements start alike. */
  lemma SortedSameHead(x: seq<Expr>, y: seq<Expr>)
    requires Sorted(x) && Sorted(y) && multiset(x) == multiset(y) && |x| > 0
    ensures |y| > 0 && x[0] == y[0]
  {
    assert |y| == |multiset(y)| == |x|;
    assert x[0] in multiset(y);
    var j :| 0 <= j < |y| && y[j] == x[0];
    if j > 0 {
      assert Compare(y[0], y[j]) <= 0;
    } else {
      CompareRefl(y[0]);
    }
    assert y[0] in multiset(x);
    var k :| 0 <= k < |x| && x[k] == y[0];
    if k > 0 {
      assert Compare(x[0], x[k]) <= 0;
    } else {
      CompareRefl(x[0]);
    }
    CompareAntisym(x[0], y[0]);
    CompareZero(x[0], y[0]);
  }

  lemma TailMultiset(x: seq<Expr>)
    requires |x| > 0
    ensures multiset(x[1..]) == multiset(x) - multiset{x[0]}
  {
    assert x == [x[0]] + x[1..];
  }

  /** Two ordered lists with the same elements are the same list. */
  lemma {:induction false} SortedUnique(x: seq<Expr>, y: seq<Expr>)
    requires Sorted(x) && Sorted(y) && multiset(x) == multiset(y)
    ensures x == y
  {
    if x == [] {
      assert |y| == |multiset(y)| == 0;
    } else {
      SortedSameHead(x, y);
      TailMultiset(x);
      TailMultiset(y);
      TailSorted(x);
      TailSorted(y);
      SortedUnique(x[1..], y[1..]);
      assert x == [x[0]] + x[1..] && y == [y[0]] + y[1..];
    }
  }

  /** The reference sort agrees with any other ordered permutation. */
  lemma SortTermsCanonical(s: seq<Expr>, t: seq<Expr>)
    requires Sorted(t) && multiset(t) == multiset(s)
    ensures SortTerms(s) == t
  {
    SortSorted(s);
    SortPerm(s);
    SortedUnique(SortTerms(s), t);
  }

  lemma SortSingle(x: Expr)
    ensures SortTerms([x]) == [x]
  {
    assert [x][1..] == [];
  }

  lemma InsertBefore(a: Expr, b: Expr)
    requires Compare(a, b) <= 0
    ensures Insert(a, [b]) == [a, b]
  {
  }

  lemma InsertAfter(a: Expr, b: Expr)
    requires Compare(a, b) <= 0
    ensures Insert(b, [a]) == [a, b]
  {
    if Compare(b, a) <= 0 {
      CompareAntisym(a, b);
      CompareZero(a, b);
    }
  }

  lemma SortUnfold(x: Expr, s: seq<Expr>)
    ensures SortTerms([x] + s) == Insert(x, SortTerms(s))
  {
    assert ([x] + s)[1..] == s;
  }

  /** Two operands sort into ascending order whichever way they are given. */
  lemma SortPair(a: Expr, b: Expr)
    requires Compare(a, b) <= 0
    ensures SortTerms([a, b]) == [a, b]
    ensures SortTerms([b, a]) == [a, b]
  {
    SortSingle(a);
    SortSingle(b);
    InsertBefore(a, b);
    InsertAfter(a, b);
    SortUnfold(a, [b]);
    SortUnfold(b, [a]);
    assert [a] + [b] == [a, b] && [b] + [a] == [b, a];
  }

  /** Three operands already in ascending order sort to themselves. */
  lemma SortTriple(a: Expr, b: Expr, c: Expr)
    requires Compare(a, b) <= 0 && Compare(b, c) <= 0
    ensures SortTerms([a, b, c]) == [a, b, c]
  {
    SortPair(b, c);
    SortUnfold(a, [b, c]);
    assert [a] + [b, c] == [a, b, c];
    InsertLead(a, SortTerms([b, c]));
  }

  /** The list literal [a, b, c] as its head consed onto its tail. */
  lemma ConsThree(a: Expr, b: Expr, c: Expr)
    ensures [a] + [b, c] == [a, b, c]
  {
  }

  lemma InsertLead(x: Expr, s: seq<Expr>)
    requires |s| > 0 && Compare(x, s[0]) <= 0
    ensures Insert(x, s) == [x] + s
  {
  }
}
