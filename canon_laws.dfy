/** What the canonicaliser promises, proved about the functions of module
    Canon: the flatten step, numeric folding, the identity and zero laws,
    like terms and like factors, inverses, factorial and choose. Statements
    about concrete leaves hold for every fuel above a small bound. */
module CanonLaws {
  import opened Expressions
  import opened Ordering
  import opened Sorting
  import opened Canon
  import opened Substitution

  // ---------------------------------------------------------------- flatten

  /** Flattening one more operand appends its splice. */
  lemma FlattenSnoc(op: Op, init: seq<Expr>, last: Expr)
    ensures Flatten(op, init + [last]) == Flatten(op, init) + Splice(op, last)
  {
    assert (init + [last])[..|init|] == init;
  }

  /** A list with no operand carrying the operator's head is left as it is. */
  lemma {:induction false} FlattenKeeps(op: Op, xs: seq<Expr>)
    requires forall k :: 0 <= k < |xs| ==> !IsApply(xs[k], OpHead(op))
    ensures Flatten(op, xs) == xs
  {
    if xs != [] {
      var init, last := xs[..|xs| - 1], xs[|xs| - 1];
      assert xs == init + [last];
      FlattenKeeps(op, init);
      FlattenSnoc(op, init, last);
    }
  }

  /** An element of the flattened list is an operand without the operator's
      head, or an argument of an operand with it; and every such element
      is there. */
  lemma {:induction false} FlattenMembers(op: Op, xs: seq<Expr>, y: Expr)
    ensures y in Flatten(op, xs) <==> exists k :: 0 <= k < |xs| && y in Splice(op, xs[k])
  {
    if xs != [] {
      var init := xs[..|xs| - 1];
      FlattenMembers(op, init, y);
      if y in Flatten(op, xs) && y !in Splice(op, xs[|xs| - 1]) {
        var k :| 0 <= k < |init| && y in Splice(op, init[k]);
        assert xs[k] == init[k];
      }
      if exists k :: 0 <= k < |xs| && y in Splice(op, xs[k]) {
        var k :| 0 <= k < |xs| && y in Splice(op, xs[k]);
        if k < |xs| - 1 {
          assert init[k] == xs[k];
        }
      }
    }
  }

  /** The sorted flattened list is an ordered permutation of the flattened
      list. */
  lemma SortedFlatten(op: Op, xs: seq<Expr>)
    ensures Sorted(SortTerms(Flatten(op, xs)))
    ensures multiset(SortTerms(Flatten(op, xs))) == multiset(Flatten(op, xs))
  {
    SortSorted(Flatten(op, xs));
    SortPerm(Flatten(op, xs));
  }

  // ------------------------------------------------------ unfolding steps

  /** The pairwise combiner of the operator. */
  function Combine(fuel: nat, op: Op, a: Expr, b: Expr): Result<Merged> {
    if op == Sum then AddAdjacent(fuel, a, b) else MultiplyAdjacent(fuel, a, b)
  }

  /** One turn of the merge loop. */
  lemma MergeCons(fuel: nat, op: Op, acc: seq<Expr>, rest: seq<Expr>, m: Merged)
    requires |acc| > 0 && |rest| > 0
    requires Combine(fuel, op, acc[|acc| - 1], rest[0]) == Ok(m)
    ensures Merge(fuel, op, acc, rest) == Merge(fuel, op, MergeStep(acc, rest[0], m), rest[1..])
  {
  }

  /** The merge of a single remaining operand. */
  lemma MergeLast(fuel: nat, op: Op, acc: seq<Expr>, b: Expr, m: Merged)
    requires |acc| > 0
    requires Combine(fuel, op, acc[|acc| - 1], b) == Ok(m)
    ensures Merge(fuel, op, acc, [b]) == Ok(MergeStep(acc, b, m))
  {
    MergeCons(fuel, op, acc, [b], m);
    assert [b][1..] == [];
  }

  /** The pipeline from its intermediate results. */
  lemma CanonicalSteps(fuel: nat, op: Op, terms: seq<Expr>, run: seq<Expr>,
                       sorted: seq<Expr>, merged: seq<Expr>)
    requires fuel > 0 && RunAll(fuel - 1, terms) == Ok(run)
    requires SortTerms(Flatten(op, run)) == sorted && |sorted| > 0
    requires Merge(fuel - 1, op, [sorted[0]], sorted[1..]) == Ok(merged)
    ensures Canonical(fuel, op, terms) == Ok(Collapse(op, merged))
  {
  }

  // ---------------------------------------------------------- commutativity

  lemma RunAllTwo(fuel: nat, u: Expr, v: Expr, ru: Expr, rv: Expr)
    requires Run(fuel, u) == Ok(ru) && Run(fuel, v) == Ok(rv)
    ensures RunAll(fuel, [u, v]) == Ok([ru, rv])
  {
    assert [u, v][1..] == [v] && [v][1..] == [];
    assert [rv] + [] == [rv] && [ru] + [rv] == [ru, rv];
    assert RunAll(fuel, [v]) == Ok([rv]);
  }

  /** The pipeline depends on its operands only through the sorted list. */
  lemma CanonicalBySorted(fuel: nat, op: Op, t1: seq<Expr>, t2: seq<Expr>, r1: seq<Expr>, r2: seq<Expr>)
    requires fuel > 0 && RunAll(fuel - 1, t1) == Ok(r1) && RunAll(fuel - 1, t2) == Ok(r2)
    requires SortTerms(Flatten(op, r1)) == SortTerms(Flatten(op, r2))
    ensures Canonical(fuel, op, t1) == Canonical(fuel, op, t2)
  {
  }

  // ---------------------------------------------------------- numeric folds

  predicate AllNums(xs: seq<Expr>) {
    forall k :: 0 <= k < |xs| ==> xs[k].Num?
  }

  function SumOf(xs: seq<Expr>): int
    requires AllNums(xs)
  {
    if xs == [] then 0 else xs[0].n + SumOf(xs[1..])
  }

  function ProductOf(xs: seq<Expr>): int
    requires AllNums(xs)
  {
    if xs == [] then 1 else xs[0].n * ProductOf(xs[1..])
  }

  /** The fold of the operator's numeric combiner over a list of numbers. */
  function FoldOf(op: Op, xs: seq<Expr>): int
    requires AllNums(xs)
  {
    if op == Sum then SumOf(xs) else ProductOf(xs)
  }

  lemma {:induction false} InsertNums(x: Expr, s: seq<Expr>)
    requires x.Num? && AllNums(s)
    ensures AllNums(Insert(x, s))
    ensures SumOf(Insert(x, s)) == x.n + SumOf(s)
    ensures ProductOf(Insert(x, s)) == x.n * ProductOf(s)
  {
    if s == [] {
      assert Insert(x, s) == [x];
      assert [x][1..] == [];
    } else if Compare(x, s[0]) <= 0 {
      assert Insert(x, s) == [x] + s;
      assert ([x] + s)[1..] == s;
    } else {
      var t := Insert(x, s[1..]);
      assert Insert(x, s) == [s[0]] + t;
      InsertNums(x, s[1..]);
      assert ([s[0]] + t)[1..] == t;
      assert s[0].n * (x.n * ProductOf(s[1..])) == x.n * (s[0].n * ProductOf(s[1..]));
    }
  }

  /** Sorting a list of numbers keeps their sum and their product. */
  lemma {:induction false} SortNums(xs: seq<Expr>)
    requires AllNums(xs)
    ensures AllNums(SortTerms(xs))
    ensures SumOf(SortTerms(xs)) == SumOf(xs)
    ensures ProductOf(SortTerms(xs)) == ProductOf(xs)
  {
    if xs != [] {
      SortNums(xs[1..]);
      InsertNums(xs[0], SortTerms(xs[1..]));
    }
  }

  /** The running value of the merge loop over a list of numbers. */
  function RunningFold(op: Op, a: int, rest: seq<Expr>): int
    requires AllNums(rest)
    decreases |rest|
  {
    if rest == [] then a
    else RunningFold(op, if op == Sum then a + rest[0].n else a * rest[0].n, rest[1..])
  }

  /** The running value is the start combined with the fold of the rest. */
  lemma {:induction false} RunningFoldIsFold(op: Op, a: int, rest: seq<Expr>)
    requires AllNums(rest)
    decreases |rest|
    ensures RunningFold(op, a, rest) == if op == Sum then a + SumOf(rest) else a * ProductOf(rest)
  {
    if rest != [] {
      RunningFoldIsFold(op, if op == Sum then a + rest[0].n else a * rest[0].n, rest[1..]);
      FoldNumsStep(op, a, rest);
    }
  }

  /** Merging a list of numbers folds it into one number, the running
      result of the numeric combiner. */
  lemma {:induction false} MergeNums(fuel: nat, op: Op, a: int, rest: seq<Expr>)
    requires AllNums(rest)
    decreases |rest|
    ensures Merge(fuel, op, [Num(a)], rest) == Ok([Num(RunningFold(op, a, rest))])
  {
    if rest != [] {
      var c := if op == Sum then a + rest[0].n else a * rest[0].n;
      CombineNums(fuel, op, a, rest[0]);
      MergeCons(fuel, op, [Num(a)], rest, Into(Num(c)));
      assert MergeStep([Num(a)], rest[0], Into(Num(c))) == [Num(c)];
      MergeNums(fuel, op, c, rest[1..]);
    }
  }

  lemma CombineNums(fuel: nat, op: Op, a: int, y: Expr)
    requires y.Num?
    ensures Combine(fuel, op, Num(a), y) == Ok(Into(Num(if op == Sum then a + y.n else a * y.n)))
  {
  }

  lemma FoldNumsStep(op: Op, a: int, rest: seq<Expr>)
    requires AllNums(rest) && rest != []
    ensures var c := if op == Sum then a + rest[0].n else a * rest[0].n;
            (if op == Sum then c + SumOf(rest[1..]) else c * ProductOf(rest[1..])) ==
            (if op == Sum then a + SumOf(rest) else a * ProductOf(rest))
  {
    var b := rest[0].n;
    if op == Sum {
      assert SumOf(rest) == b + SumOf(rest[1..]);
    } else {
      var p := ProductOf(rest[1..]);
      assert ProductOf(rest) == b * p;
      assert (a * b) * p == a * (b * p);
    }
  }

  lemma RunAllNums(fuel: nat, xs: seq<Expr>)
    requires AllNums(xs)
    ensures RunAll(fuel, xs) == Ok(xs)
  {
    RunAllLeaves(fuel, xs);
  }

  /** Leaves evaluate to themselves, so a list of leaves is kept. */
  lemma RunAllLeaves(fuel: nat, xs: seq<Expr>)
    requires forall i :: 0 <= i < |xs| ==> IsLeaf(xs[i])
    ensures RunAll(fuel, xs) == Ok(xs)
  {
    RunAllKeeps(fuel, xs);
  }

  lemma FlattenNums(op: Op, xs: seq<Expr>)
    requires AllNums(xs)
    ensures Flatten(op, xs) == xs
  {
    FlattenKeeps(op, xs);
  }

  /** A single survivor is returned bare. */
  lemma CollapseOne(op: Op, e: Expr)
    ensures Collapse(op, [e]) == e
  {
  }

  /** A sum or product of numbers evaluates to one number (the identity for
      an empty list). */
  lemma CanonicalNums(fuel: nat, op: Op, xs: seq<Expr>)
    requires fuel > 0 && AllNums(xs)
    ensures Canonical(fuel, op, xs) == Ok(Num(FoldOf(op, xs)))
  {
    RunAllNums(fuel - 1, xs);
    PipelineNums(fuel, op, xs);
    CanonicalOfRun(fuel, op, xs, xs);
  }

  lemma PipelineNums(fuel: nat, op: Op, xs: seq<Expr>)
    requires fuel > 0 && AllNums(xs)
    ensures Pipeline(fuel, op, xs) == Ok(Num(FoldOf(op, xs)))
  {
    if xs == [] {
      assert Pipeline(fuel, op, xs) == Ok(Identity(op));
    } else {
      var v := Num(FoldOf(op, xs));
      FlattenNums(op, xs);
      SortedNumsMerge(fuel - 1, op, xs);
      PipelineSteps(fuel, op, xs, SortTerms(xs), [v]);
      CollapseOne(op, v);
    }
  }

  /** The pipeline from its intermediate results. */
  lemma PipelineSteps(fuel: nat, op: Op, run: seq<Expr>, sorted: seq<Expr>, merged: seq<Expr>)
    requires fuel > 0 && SortTerms(Flatten(op, run)) == sorted && |sorted| > 0
    requires Merge(fuel - 1, op, [sorted[0]], sorted[1..]) == Ok(merged)
    ensures Pipeline(fuel, op, run) == Ok(Collapse(op, merged))
  {
  }

  /** The merge of the sorted numbers is their fold. */
  lemma SortedNumsMerge(fuel: nat, op: Op, xs: seq<Expr>)
    requires AllNums(xs) && xs != []
    ensures |SortTerms(xs)| > 0
    ensures Merge(fuel, op, [SortTerms(xs)[0]], SortTerms(xs)[1..]) == Ok([Num(FoldOf(op, xs))])
  {
    SortNums(xs);
    MergeHeadNums(fuel, op, SortTerms(xs));
  }

  lemma MergeHeadNums(fuel: nat, op: Op, sorted: seq<Expr>)
    requires AllNums(sorted) && sorted != []
    ensures Merge(fuel, op, [sorted[0]], sorted[1..]) == Ok([Num(FoldOf(op, sorted))])
  {
    assert sorted[0] == Num(sorted[0].n);
    MergeNums(fuel, op, sorted[0].n, sorted[1..]);
    RunningFoldIsFold(op, sorted[0].n, sorted[1..]);
  }

  /** `add` of numbers is their sum. */
  lemma AddNums(fuel: nat, xs: seq<Expr>)
    requires fuel > 0 && AllNums(xs)
    ensures Add(fuel, xs) == Ok(Num(SumOf(xs)))
  {
    CanonicalNums(fuel, Sum, xs);
  }

  /** `multiply` of numbers is their product; in particular any zero factor
      gives zero. */
  lemma MultiplyNums(fuel: nat, xs: seq<Expr>)
    requires fuel > 0 && AllNums(xs)
    ensures Multiply(fuel, xs) == Ok(Num(ProductOf(xs)))
  {
    CanonicalNums(fuel, Product, xs);
  }

  lemma FoldPair(a: int, b: int)
    ensures SumOf([Num(a), Num(b)]) == a + b
    ensures ProductOf([Num(a), Num(b)]) == a * b
  {
    assert [Num(a), Num(b)][1..] == [Num(b)];
    assert [Num(b)][1..] == [];
    assert SumOf([Num(b)]) == b;
    assert ProductOf([Num(b)]) == b;
  }

  lemma AddTwoNums(fuel: nat, a: int, b: int)
    requires fuel > 0
    ensures Add(fuel, [Num(a), Num(b)]) == Ok(Num(a + b))
  {
    FoldPair(a, b);
    AddNums(fuel, [Num(a), Num(b)]);
  }

  lemma MultiplyTwoNums(fuel: nat, a: int, b: int)
    requires fuel > 0
    ensures Multiply(fuel, [Num(a), Num(b)]) == Ok(Num(a * b))
  {
    FoldPair(a, b);
    MultiplyNums(fuel, [Num(a), Num(b)]);
  }

  lemma MultiplyOnes(fuel: nat)
    requires fuel > 0
    ensures Multiply(fuel, [ONE, ONE, ONE]) == Ok(ONE)
  {
    assert [ONE, ONE, ONE][1..] == [ONE, ONE];
    FoldPair(1, 1);
    MultiplyNums(fuel, [ONE, ONE, ONE]);
  }

  // ------------------------------------------------------- short operand lists

  /** A string or a symbol: a leaf that is not a number. */
  predicate IsAtom(x: Expr) {
    x.Str? || x.Sym?
  }

  /** Running every operand of a list gives it back, so the list is kept. */
  lemma {:induction false} RunAllKeeps(fuel: nat, xs: seq<Expr>)
    requires forall i :: 0 <= i < |xs| ==> Run(fuel, xs[i]) == Ok(xs[i])
    ensures RunAll(fuel, xs) == Ok(xs)
  {
    if xs != [] {
      RunAllKeeps(fuel, xs[1..]);
      assert [xs[0]] + xs[1..] == xs;
    }
  }

  lemma RunAllOne(fuel: nat, u: Expr)
    requires Run(fuel, u) == Ok(u)
    ensures RunAll(fuel, [u]) == Ok([u])
  {
    RunAllKeeps(fuel, [u]);
  }

  lemma RunAllPair(fuel: nat, u: Expr, v: Expr)
    requires Run(fuel, u) == Ok(u) && Run(fuel, v) == Ok(v)
    ensures RunAll(fuel, [u, v]) == Ok([u, v])
  {
    RunAllKeeps(fuel, [u, v]);
  }

  lemma RunAllTriple(fuel: nat, u: Expr, v: Expr, w: Expr)
    requires Run(fuel, u) == Ok(u) && Run(fuel, v) == Ok(v) && Run(fuel, w) == Ok(w)
    ensures RunAll(fuel, [u, v, w]) == Ok([u, v, w])
  {
    RunAllKeeps(fuel, [u, v, w]);
  }

  lemma FlattenOne(op: Op, u: Expr)
    requires !IsApply(u, OpHead(op))
    ensures Flatten(op, [u]) == [u]
  {
    FlattenKeeps(op, [u]);
  }

  /** The second operand of two is spliced after the first. */
  lemma FlattenPair(op: Op, u: Expr, v: Expr)
    requires !IsApply(u, OpHead(op))
    ensures Flatten(op, [u, v]) == [u] + Splice(op, v)
  {
    assert [u, v][..1] == [u];
    FlattenOne(op, u);
  }

  lemma FlattenTriple(op: Op, u: Expr, v: Expr, w: Expr)
    requires !IsApply(u, OpHead(op)) && !IsApply(v, OpHead(op)) && !IsApply(w, OpHead(op))
    ensures Flatten(op, [u, v, w]) == [u, v, w]
  {
    FlattenKeeps(op, [u, v, w]);
  }

  lemma MergeNil(fuel: nat, op: Op, acc: seq<Expr>)
    requires |acc| > 0
    ensures Merge(fuel, op, acc, []) == Ok(acc)
  {
  }

  /** Two merges in a row: the first two operands combine, then the result
      meets the third. */
  lemma MergeIntoThenLast(fuel: nat, op: Op, a: Expr, b: Expr, c: Expr, e: Expr, m: Merged)
    requires Combine(fuel, op, a, b) == Ok(Into(e))
    requires Combine(fuel, op, e, c) == Ok(m)
    ensures Merge(fuel, op, [a], [b, c]) == Ok(MergeStep([e], c, m))
  {
    assert [b, c][1..] == [c];
    MergeCons(fuel, op, [a], [b, c], Into(e));
    assert MergeStep([a], b, Into(e)) == [e];
    MergeLast(fuel, op, [e], c, m);
  }

  /** The pipeline from its intermediate results, with the sorted list given
      as its head and its tail. */
  lemma CanonicalFrom(fuel: nat, op: Op, terms: seq<Expr>, run: seq<Expr>,
                      first: Expr, rest: seq<Expr>, merged: seq<Expr>)
    requires fuel > 0 && RunAll(fuel - 1, terms) == Ok(run)
    requires SortTerms(Flatten(op, run)) == [first] + rest
    requires Merge(fuel - 1, op, [first], rest) == Ok(merged)
    ensures Canonical(fuel, op, terms) == Ok(Collapse(op, merged))
  {
    var sorted := [first] + rest;
    assert sorted[0] == first && sorted[1..] == rest;
    CanonicalSteps(fuel, op, terms, run, sorted, merged);
  }

  /** One evaluated operand is returned bare. */
  lemma CanonicalOne(fuel: nat, op: Op, u: Expr)
    requires fuel > 0 && Run(fuel - 1, u) == Ok(u) && !IsApply(u, OpHead(op))
    ensures Canonical(fuel, op, [u]) == Ok(u)
  {
    RunAllOne(fuel - 1, u);
    FlattenOne(op, u);
    SortSingle(u);
    MergeNil(fuel - 1, op, [u]);
    CollapseOne(op, u);
    assert [u] + [] == [u];
    CanonicalFrom(fuel, op, [u], [u], u, [], [u]);
  }

  /** Two evaluated operands that sort to [a, b] and combine into m. */
  lemma CanonicalTwo(fuel: nat, op: Op, u: Expr, v: Expr, a: Expr, b: Expr, m: Merged)
    requires fuel > 0 && Run(fuel - 1, u) == Ok(u) && Run(fuel - 1, v) == Ok(v)
    requires !IsApply(u, OpHead(op)) && !IsApply(v, OpHead(op))
    requires Compare(a, b) <= 0 && ((u == a && v == b) || (u == b && v == a))
    requires Combine(fuel - 1, op, a, b) == Ok(m)
    ensures Canonical(fuel, op, [u, v]) == Ok(Collapse(op, MergeStep([a], b, m)))
  {
    CanonicalTwoRun(fuel, op, u, v, u, v, a, b, m);
  }

  /** Two operands whose values sort to [a, b] and combine into m. */
  lemma CanonicalTwoRun(fuel: nat, op: Op, u: Expr, v: Expr, ru: Expr, rv: Expr, a: Expr, b: Expr, m: Merged)
    requires fuel > 0 && Run(fuel - 1, u) == Ok(ru) && Run(fuel - 1, v) == Ok(rv)
    requires !IsApply(ru, OpHead(op)) && !IsApply(rv, OpHead(op))
    requires Compare(a, b) <= 0 && ((ru == a && rv == b) || (ru == b && rv == a))
    requires Combine(fuel - 1, op, a, b) == Ok(m)
    ensures Canonical(fuel, op, [u, v]) == Ok(Collapse(op, MergeStep([a], b, m)))
  {
    RunAllTwo(fuel - 1, u, v, ru, rv);
    PipelinePair(fuel, op, ru, rv, a, b, m);
    CanonicalOfRun(fuel, op, [u, v], [ru, rv]);
  }

  lemma PipelinePair(fuel: nat, op: Op, ru: Expr, rv: Expr, a: Expr, b: Expr, m: Merged)
    requires fuel > 0 && !IsApply(ru, OpHead(op)) && !IsApply(rv, OpHead(op))
    requires Compare(a, b) <= 0 && ((ru == a && rv == b) || (ru == b && rv == a))
    requires Combine(fuel - 1, op, a, b) == Ok(m)
    ensures Pipeline(fuel, op, [ru, rv]) == Ok(Collapse(op, MergeStep([a], b, m)))
  {
    SortOperandPair(op, ru, rv, a, b);
    MergeLast(fuel - 1, op, [a], b, m);
    var sorted := [a] + [b];
    assert sorted[0] == a && sorted[1..] == [b];
    PipelineSteps(fuel, op, [ru, rv], sorted, MergeStep([a], b, m));
  }

  /** `add` and `multiply` are the pipeline applied to the operands' values. */
  lemma CanonicalOfRun(fuel: nat, op: Op, terms: seq<Expr>, run: seq<Expr>)
    requires fuel > 0 && RunAll(fuel - 1, terms) == Ok(run)
    ensures Canonical(fuel, op, terms) == Pipeline(fuel, op, run)
  {
  }

  lemma SortOperandPair(op: Op, u: Expr, v: Expr, a: Expr, b: Expr)
    requires !IsApply(u, OpHead(op)) && !IsApply(v, OpHead(op))
    requires Compare(a, b) <= 0 && ((u == a && v == b) || (u == b && v == a))
    ensures SortTerms(Flatten(op, [u, v])) == [a] + [b]
  {
    FlattenPair(op, u, v);
    assert Splice(op, v) == [v];
    assert [u] + [v] == [u, v];
    SortPair(a, b);
    assert [a] + [b] == [a, b];
  }

  /** Two kept operands collapse to the second when the first is the
      identity, and to the operator applied to both otherwise. */
  lemma CollapseKept(op: Op, a: Expr, b: Expr)
    ensures Collapse(op, MergeStep([a], b, Kept)) ==
      if a == Identity(op) then b else Apply(OpHead(op), [a, b])
  {
    assert MergeStep([a], b, Kept) == [a, b];
  }

  lemma CollapseInto(op: Op, a: Expr, b: Expr, e: Expr)
    ensures Collapse(op, MergeStep([a], b, Into(e))) == e
  {
    assert MergeStep([a], b, Into(e)) == [e];
  }

  /** The like-terms combiner keeps two operands with different terms. */
  lemma AddKept(fuel: nat, a: Expr, b: Expr, ta: Expr, tb: Expr)
    requires fuel > 0 && !(a.Num? && b.Num?)
    requires Term(fuel - 1, a) == Ok(ta) && Term(fuel - 1, b) == Ok(tb) && ta != tb
    ensures AddAdjacent(fuel, a, b) == Ok(Kept)
  {
  }

  /** The like-terms combiner merges two operands with the same term. */
  lemma AddInto(fuel: nat, a: Expr, b: Expr, t: Expr, ca: Expr, cb: Expr, c: Expr, e: Expr)
    requires fuel > 0 && !(a.Num? && b.Num?)
    requires Term(fuel - 1, a) == Ok(t) && Term(fuel - 1, b) == Ok(t)
    requires Coeff(a) == ca && Coeff(b) == cb && Add(fuel - 1, [ca, cb]) == Ok(c)
    requires Multiply(fuel - 1, [c, t]) == Ok(e)
    ensures AddAdjacent(fuel, a, b) == Ok(Into(e))
  {
  }

  /** The like-factors combiner keeps two operands with different bases. */
  lemma MultiplyKept(fuel: nat, a: Expr, b: Expr, ba: Expr, bb: Expr)
    requires fuel > 0 && !(a.Num? && b.Num?) && !IsZero(a)
    requires Base(fuel - 1, a) == Ok(ba) && Base(fuel - 1, b) == Ok(bb) && ba != bb
    ensures MultiplyAdjacent(fuel, a, b) == Ok(Kept)
  {
  }

  /** The like-factors combiner merges two operands with the same base. */
  lemma MultiplyInto(fuel: nat, a: Expr, b: Expr, x: Expr, da: Expr, db: Expr, d: Expr,
                     p: Expr, ca: Expr, cb: Expr, e: Expr)
    requires fuel > 0 && !(a.Num? && b.Num?) && !IsZero(a)
    requires Base(fuel - 1, a) == Ok(x) && Base(fuel - 1, b) == Ok(x)
    requires Degree(fuel - 1, a) == Ok(da) && Degree(fuel - 1, b) == Ok(db)
    requires Add(fuel - 1, [da, db]) == Ok(d)
    requires Power(fuel - 1, x, d) == Ok(p)
    requires Coeff(a) == ca && Coeff(b) == cb && Multiply(fuel - 1, [ca, cb, p]) == Ok(e)
    ensures MultiplyAdjacent(fuel, a, b) == Ok(Into(e))
  {
  }

  // ---------------------------------------------------------- identities

  /** x + 0 = run(x) whenever run(x) is not itself a sum and, unless it is
      a number, its term is not zero: the zero sorts first, is kept apart
      from the value and is then dropped as the leading identity. */
  lemma AddZero(fuel: nat, x: Expr, rx: Expr)
    requires fuel > 2 && Run(fuel - 1, x) == Ok(rx) && !IsApply(rx, "add")
    requires !rx.Num? ==> Term(fuel - 2, rx).Ok? && Term(fuel - 2, rx).value != ZERO
    ensures Add(fuel, [x, ZERO]) == Ok(rx)
  {
    if rx.Num? {
      if Compare(rx, ZERO) <= 0 {
        CanonicalTwoRun(fuel, Sum, x, ZERO, rx, ZERO, rx, ZERO, Into(rx));
      } else {
        CanonicalTwoRun(fuel, Sum, x, ZERO, rx, ZERO, ZERO, rx, Into(rx));
      }
      CollapseInto(Sum, ZERO, rx, rx);
    } else {
      AddKept(fuel - 1, ZERO, rx, ZERO, Term(fuel - 2, rx).value);
      CanonicalTwoRun(fuel, Sum, x, ZERO, rx, ZERO, ZERO, rx, Kept);
      CollapseKept(Sum, ZERO, rx);
    }
  }

  /** x * 1 = run(x) whenever run(x) is not itself a product and, unless it
      is a number, its base is not one. */
  lemma MultiplyOne(fuel: nat, x: Expr, rx: Expr)
    requires fuel > 2 && Run(fuel - 1, x) == Ok(rx) && !IsApply(rx, "multiply")
    requires !rx.Num? ==> Base(fuel - 2, rx).Ok? && Base(fuel - 2, rx).value != ONE
    ensures Multiply(fuel, [x, ONE]) == Ok(rx)
  {
    if rx.Num? {
      if Compare(rx, ONE) <= 0 {
        CanonicalTwoRun(fuel, Product, x, ONE, rx, ONE, rx, ONE, Into(rx));
      } else {
        CanonicalTwoRun(fuel, Product, x, ONE, rx, ONE, ONE, rx, Into(rx));
      }
      CollapseInto(Product, ONE, rx, rx);
    } else {
      MultiplyKept(fuel - 1, ONE, rx, ONE, Base(fuel - 2, rx).value);
      CanonicalTwoRun(fuel, Product, x, ONE, rx, ONE, ONE, rx, Kept);
      CollapseKept(Product, ONE, rx);
    }
  }

  /** An expression whose base, as the like-factors combiner sees it, is not
      a number: not a number, not a product, not a numeric power of a
      number. */
  predicate SymbolicBase(y: Expr) {
    !y.Num? && !IsApply(y, "multiply") && !(IsNumericPower(y) && y.args[0].Num?)
  }

  lemma SymbolicBaseOf(fuel: nat, y: Expr)
    requires SymbolicBase(y)
    ensures Term(fuel, y) == Ok(y)
    ensures Base(fuel, y).Ok? && !Base(fuel, y).value.Num?
  {
  }

  // ------------------------------------------------- like terms and factors

  /** The canonical form of k * x. */
  function Scale(k: int, x: Expr): Expr {
    if k == 0 then ZERO else if k == 1 then x else Apply("multiply", [Num(k), x])
  }

  /** The canonical form of x ^ k. */
  function Pow(k: int, x: Expr): Expr {
    if k == 0 then ONE else if k == 1 then x else Apply("power", [x, Num(k)])
  }

  /** `multiply(k, y)` builds the canonical k * y for every evaluated y
      whose base is not a number: a zero absorbs, a one is dropped, any
      other number is kept in front. */
  lemma ScaleOf(fuel: nat, k: int, y: Expr)
    requires fuel > 1 && SymbolicBase(y) && Run(fuel - 1, y) == Ok(y)
    ensures Multiply(fuel, [Num(k), y]) == Ok(Scale(k, y))
  {
    if k == 0 {
      CanonicalTwo(fuel, Product, Num(k), y, Num(k), y, Into(ZERO));
      CollapseInto(Product, Num(k), y, ZERO);
    } else {
      SymbolicBaseOf(fuel - 2, y);
      MultiplyKept(fuel - 1, Num(k), y, Num(k), Base(fuel - 2, y).value);
      CanonicalTwo(fuel, Product, Num(k), y, Num(k), y, Kept);
      CollapseKept(Product, Num(k), y);
    }
  }

  /** `multiply(k, x)` builds the canonical k * x for an atom. */
  lemma ScaleIsProduct(fuel: nat, k: int, x: Expr)
    requires fuel > 1 && IsAtom(x)
    ensures Multiply(fuel, [Num(k), x]) == Ok(Scale(k, x))
  {
    ScaleOf(fuel, k, x);
  }

  /** The canonical k * x evaluates to itself. */
  lemma RunScale(fuel: nat, k: int, x: Expr)
    requires fuel > 2 && IsAtom(x)
    ensures Run(fuel, Scale(k, x)) == Ok(Scale(k, x))
  {
    if k != 0 && k != 1 {
      ScaleIsProduct(fuel - 1, k, x);
    }
  }

  /** The coefficient and the term of k * x are k and x, and multiplying
      them back gives k * x. */
  lemma TermCoeffSplit(fuel: nat, k: int, x: Expr)
    requires fuel > 1 && k != 0 && IsAtom(x)
    ensures Coeff(Scale(k, x)) == Num(k)
    ensures Term(fuel, Scale(k, x)) == Ok(x)
    ensures Multiply(fuel, [Coeff(Scale(k, x)), x]) == Ok(Scale(k, x))
  {
    if k != 1 {
      CanonicalOne(fuel, Product, x);
      assert Scale(k, x).args[1..] == [x];
    }
    ScaleIsProduct(fuel, k, x);
  }

  /** The base and the degree of x ^ k are x and k, and raising one to the
      other gives x ^ k back. */
  lemma BaseDegreeSplit(fuel: nat, k: int, x: Expr)
    requires fuel > 0 && k != 0 && IsLeaf(x) && x != ONE
    ensures Base(fuel, Pow(k, x)) == Ok(x)
    ensures Degree(fuel, Pow(k, x)) == Ok(Num(k))
    ensures Power(fuel, x, Num(k)) == Ok(Pow(k, x))
  {
    assert !HasCoefficient(Pow(k, x));
  }

  /** The canonical x ^ k evaluates to itself. */
  lemma RunPow(fuel: nat, k: int, x: Expr)
    requires fuel > 1 && k != 0 && IsLeaf(x) && x != ONE
    ensures Run(fuel, Pow(k, x)) == Ok(Pow(k, x))
  {
    BaseDegreeSplit(fuel - 1, k, x);
  }

  /** Like terms merge: c x + d x = (c + d) x. */
  lemma AddLikeTerms(fuel: nat, c: int, d: int, x: Expr)
    requires fuel > 2 && c != 0 && d != 0 && IsAtom(x)
    ensures AddAdjacent(fuel, Scale(c, x), Scale(d, x)) == Ok(Into(Scale(c + d, x)))
  {
    LikeTerms(fuel - 1, c, d, x);
    LikeTermsMerged(fuel - 1, c, d, x);
    AddInto(fuel, Scale(c, x), Scale(d, x), x, Num(c), Num(d), Num(c + d), Scale(c + d, x));
  }

  /** The merged term of c x and d x: the coefficients add. */
  lemma LikeTermsMerged(fuel: nat, c: int, d: int, x: Expr)
    requires fuel > 1 && IsAtom(x)
    ensures Add(fuel, [Num(c), Num(d)]) == Ok(Num(c + d))
    ensures Multiply(fuel, [Num(c + d), x]) == Ok(Scale(c + d, x))
  {
    AddTwoNums(fuel, c, d);
    ScaleIsProduct(fuel, c + d, x);
  }

  /** The terms and coefficients of c x and d x. */
  lemma LikeTerms(fuel: nat, c: int, d: int, x: Expr)
    requires fuel > 1 && c != 0 && d != 0 && IsAtom(x)
    ensures !(Scale(c, x).Num? && Scale(d, x).Num?)
    ensures Term(fuel, Scale(c, x)) == Ok(x) && Term(fuel, Scale(d, x)) == Ok(x)
    ensures Coeff(Scale(c, x)) == Num(c) && Coeff(Scale(d, x)) == Num(d)
  {
    TermCoeffSplit(fuel, c, x);
    TermCoeffSplit(fuel, d, x);
  }

  /** Multiplying 1 * 1 * p gives p back for p = x ^ k. */
  lemma UnitCoefficients(fuel: nat, k: int, x: Expr)
    requires fuel > 2 && IsAtom(x)
    ensures Multiply(fuel, [ONE, ONE, Pow(k, x)]) == Ok(Pow(k, x))
  {
    var p := Pow(k, x);
    if k == 0 {
      MultiplyOnes(fuel);
    } else {
      var xs := [ONE, ONE, p];
      RunPow(fuel - 1, k, x);
      RunAllTriple(fuel - 1, ONE, ONE, p);
      FlattenTriple(Product, ONE, ONE, p);
      SortTriple(ONE, ONE, p);
      assert [ONE] + [ONE, p] == [ONE, ONE, p];
      BaseDegreeSplit(fuel - 2, k, x);
      MultiplyKept(fuel - 1, ONE, p, ONE, x);
      MergeIntoThenLast(fuel - 1, Product, ONE, ONE, p, ONE, Kept);
      CanonicalFrom(fuel, Product, xs, xs, ONE, [ONE, p], MergeStep([ONE], p, Kept));
      CollapseKept(Product, ONE, p);
    }
  }

  /** Like factors merge: x^m * x^n = x^(m + n). */
  lemma MultiplyLikeFactors(fuel: nat, m: int, n: int, x: Expr)
    requires fuel > 3 && m != 0 && n != 0 && IsAtom(x)
    ensures MultiplyAdjacent(fuel, Pow(m, x), Pow(n, x)) == Ok(Into(Pow(m + n, x)))
  {
    LikeFactors(fuel - 1, m, n, x);
    LikeFactorsMerged(fuel - 1, m, n, x);
    MultiplyInto(fuel, Pow(m, x), Pow(n, x), x, Num(m), Num(n), Num(m + n),
                 Pow(m + n, x), ONE, ONE, Pow(m + n, x));
  }

  /** What the like-factors combiner computes on x^m and x^n. */
  lemma LikeFactors(fuel: nat, m: int, n: int, x: Expr)
    requires fuel > 2 && m != 0 && n != 0 && IsAtom(x)
    ensures !(Pow(m, x).Num? && Pow(n, x).Num?) && !IsZero(Pow(m, x))
    ensures Base(fuel, Pow(m, x)) == Ok(x) && Base(fuel, Pow(n, x)) == Ok(x)
    ensures Degree(fuel, Pow(m, x)) == Ok(Num(m)) && Degree(fuel, Pow(n, x)) == Ok(Num(n))
    ensures Coeff(Pow(m, x)) == ONE && Coeff(Pow(n, x)) == ONE
  {
    BaseDegreeSplit(fuel, m, x);
    BaseDegreeSplit(fuel, n, x);
    CoeffPow(m, x);
    CoeffPow(n, x);
  }

  /** The merged factor of x^m and x^n: the degrees add and the unit
      coefficients vanish. */
  lemma LikeFactorsMerged(fuel: nat, m: int, n: int, x: Expr)
    requires fuel > 2 && IsAtom(x)
    ensures Add(fuel, [Num(m), Num(n)]) == Ok(Num(m + n))
    ensures Power(fuel, x, Num(m + n)) == Ok(Pow(m + n, x))
    ensures Multiply(fuel, [ONE, ONE, Pow(m + n, x)]) == Ok(Pow(m + n, x))
  {
    AddTwoNums(fuel, m, n);
    PowerOfAtom(fuel, m + n, x);
    UnitCoefficients(fuel, m + n, x);
  }

  lemma PowerOfAtom(fuel: nat, k: int, x: Expr)
    requires fuel > 0 && IsAtom(x)
    ensures Power(fuel, x, Num(k)) == Ok(Pow(k, x))
  {
    if k != 0 {
      BaseDegreeSplit(fuel, k, x);
    }
  }

  lemma CoeffPow(k: int, x: Expr)
    requires IsAtom(x)
    ensures Coeff(Pow(k, x)) == ONE
  {
    assert !HasCoefficient(Pow(k, x));
  }

  // ------------------------------------------------- inverses and identities

  lemma NegateNum(fuel: nat, a: int)
    requires fuel > 0
    ensures Negate(fuel, Num(a)) == Ok(Num(-a))
  {
    MultiplyTwoNums(fuel, -1, a);
  }

  lemma SubtractNums(fuel: nat, a: int, b: int)
    requires fuel > 0
    ensures Subtract(fuel, Num(a), Num(b)) == Ok(Num(a - b))
  {
    NegateNum(fuel, b);
    AddTwoNums(fuel, a, -b);
  }

  /** The negation of an evaluated value whose base is not a number is
      the product -1 * value. */
  lemma NegateOnce(fuel: nat, x: Expr, rx: Expr)
    requires fuel > 1 && Run(fuel - 1, x) == Ok(rx) && SymbolicBase(rx)
    ensures Negate(fuel, x) == Ok(Apply("multiply", [NEGONE, rx]))
  {
    SymbolicBaseOf(fuel - 2, rx);
    MultiplyKept(fuel - 1, NEGONE, rx, NEGONE, Base(fuel - 2, rx).value);
    CanonicalTwoRun(fuel, Product, NEGONE, x, NEGONE, rx, NEGONE, rx, Kept);
    CollapseKept(Product, NEGONE, rx);
  }

  /** Negating twice gives back the value of x, for every x whose value
      evaluates to itself and has a base that is not a number: the two
      minus ones meet first and multiply to one, which is dropped. */
  lemma NegateTwice(fuel: nat, x: Expr, rx: Expr)
    requires fuel > 3 && Run(fuel - 1, x) == Ok(rx) && Run(fuel - 3, rx) == Ok(rx)
    requires SymbolicBase(rx)
    ensures Negate(fuel, x) == Ok(Apply("multiply", [NEGONE, rx]))
    ensures Negate(fuel, Apply("multiply", [NEGONE, rx])) == Ok(rx)
  {
    var m := Apply("multiply", [NEGONE, rx]);
    NegateOnce(fuel, x, rx);
    NegateOnce(fuel - 2, rx, rx);
    var xs := [NEGONE, m];
    RunAllPair(fuel - 1, NEGONE, m);
    FlattenPair(Product, NEGONE, m);
    assert [NEGONE] + [NEGONE, rx] == [NEGONE, NEGONE, rx];
    SortTriple(NEGONE, NEGONE, rx);
    SymbolicBaseOf(fuel - 2, rx);
    MultiplyKept(fuel - 1, ONE, rx, ONE, Base(fuel - 2, rx).value);
    MergeIntoThenLast(fuel - 1, Product, NEGONE, NEGONE, rx, ONE, Kept);
    CanonicalFrom(fuel, Product, xs, xs, NEGONE, [NEGONE, rx], MergeStep([ONE], rx, Kept));
    CollapseKept(Product, ONE, rx);
  }

  /** x - x = 0 for every x whose value evaluates to itself, is not a sum
      and has a base that is not a number: x and -x have the same term and
      coefficients 1 and -1, which add up to zero. */
  lemma SubtractSelf(fuel: nat, x: Expr, rx: Expr)
    requires fuel > 3 && Run(fuel - 1, x) == Ok(rx) && Run(fuel - 3, rx) == Ok(rx)
    requires SymbolicBase(rx) && !IsApply(rx, "add")
    ensures Subtract(fuel, x, x) == Ok(ZERO)
  {
    NegateOnce(fuel, x, rx);
    var m := Apply("multiply", [NEGONE, rx]);
    if Compare(rx, m) <= 0 {
      AddNegated(fuel, x, rx, rx, m);
    } else {
      CompareAntisym(rx, m);
      AddNegated(fuel, x, rx, m, rx);
    }
  }

  /** The sum of x and its negation -1 * rx, once the two values are put in
      the order a, b, is zero. */
  lemma AddNegated(fuel: nat, x: Expr, rx: Expr, a: Expr, b: Expr)
    requires fuel > 3 && Run(fuel - 1, x) == Ok(rx) && Run(fuel - 3, rx) == Ok(rx)
    requires SymbolicBase(rx) && !IsApply(rx, "add")
    requires {a, b} == {rx, Apply("multiply", [NEGONE, rx])} && Compare(a, b) <= 0
    ensures Add(fuel, [x, Apply("multiply", [NEGONE, rx])]) == Ok(ZERO)
  {
    var m := Apply("multiply", [NEGONE, rx]);
    NegatedTerm(fuel - 2, rx);
    if a == rx {
      AddTwoNums(fuel - 2, 1, -1);
      AddInto(fuel - 1, rx, m, rx, ONE, NEGONE, ZERO, ZERO);
    } else {
      AddTwoNums(fuel - 2, -1, 1);
      AddInto(fuel - 1, m, rx, rx, NEGONE, ONE, ZERO, ZERO);
    }
    CanonicalTwoRun(fuel, Sum, x, m, rx, m, a, b, Into(ZERO));
    CollapseInto(Sum, a, b, ZERO);
  }

  /** The negation -1 * rx of a value that evaluates to itself evaluates
      to itself, has the same term as rx, and a zero coefficient times
      that term is zero. */
  lemma NegatedTerm(fuel: nat, rx: Expr)
    requires fuel > 1 && Run(fuel - 1, rx) == Ok(rx) && SymbolicBase(rx)
    ensures Run(fuel + 1, Apply("multiply", [NEGONE, rx])) == Ok(Apply("multiply", [NEGONE, rx]))
    ensures Term(fuel, Apply("multiply", [NEGONE, rx])) == Ok(rx) && Term(fuel, rx) == Ok(rx)
    ensures Multiply(fuel, [ZERO, rx]) == Ok(ZERO)
  {
    var m := Apply("multiply", [NEGONE, rx]);
    SymbolicBaseOf(fuel, rx);
    NegateOnce(fuel, rx, rx);
    CanonicalOne(fuel, Product, rx);
    assert m.args[1..] == [rx];
    CanonicalTwo(fuel, Product, ZERO, rx, ZERO, rx, Into(ZERO));
    CollapseInto(Product, ZERO, rx, ZERO);
  }

  /** Inverting twice gives back the value of x, for every x other than one
      that is not itself a power: the first inversion builds value^-1, the
      second multiplies the exponents -1 * -1 = 1. */
  lemma InvertTwice(fuel: nat, x: Expr, rx: Expr)
    requires fuel > 1 && x != ONE && !IsApply(x, "power") && Run(fuel - 1, x) == Ok(rx)
    ensures Invert(fuel, x) == Ok(Apply("power", [rx, NEGONE]))
    ensures Invert(fuel, Apply("power", [rx, NEGONE])) == Ok(rx)
  {
    MultiplyTwoNums(fuel - 1, -1, -1);
  }

  /** x / x = 1 for every x other than one that is not a power, whose value
      evaluates to itself and is neither zero, one, a product nor a power:
      the value and its inverse have the same base and degrees 1 and -1. */
  lemma DivideSelf(fuel: nat, x: Expr, rx: Expr)
    requires fuel > 3 && x != ONE && !IsApply(x, "power")
    requires Run(fuel - 1, x) == Ok(rx) && Run(fuel - 3, rx) == Ok(rx)
    requires rx != ZERO && rx != ONE && !IsApply(rx, "multiply") && !IsApply(rx, "power")
    ensures Divide(fuel, x, x) == Ok(ONE)
  {
    var p := Apply("power", [rx, NEGONE]);
    InvertTwice(fuel, x, rx);
    if Compare(rx, p) <= 0 {
      MultiplyInverse(fuel, x, rx, rx, p);
    } else {
      CompareAntisym(rx, p);
      MultiplyInverse(fuel, x, rx, p, rx);
    }
  }

  /** The product of x and its inverse rx^-1, once the two values are put in
      the order a, b, is one. */
  lemma MultiplyInverse(fuel: nat, x: Expr, rx: Expr, a: Expr, b: Expr)
    requires fuel > 3 && Run(fuel - 1, x) == Ok(rx) && Run(fuel - 3, rx) == Ok(rx)
    requires rx != ZERO && rx != ONE && !IsApply(rx, "multiply") && !IsApply(rx, "power")
    requires {a, b} == {rx, Apply("power", [rx, NEGONE])} && Compare(a, b) <= 0
    ensures Multiply(fuel, [x, Apply("power", [rx, NEGONE])]) == Ok(ONE)
  {
    var p := Apply("power", [rx, NEGONE]);
    InverseFactors(fuel - 2, rx);
    if a == rx {
      AddTwoNums(fuel - 2, 1, -1);
      MultiplyInto(fuel - 1, rx, p, rx, ONE, NEGONE, ZERO, ONE, ONE, ONE, ONE);
    } else {
      AddTwoNums(fuel - 2, -1, 1);
      MultiplyInto(fuel - 1, p, rx, rx, NEGONE, ONE, ZERO, ONE, ONE, ONE, ONE);
    }
    CanonicalTwoRun(fuel, Product, x, p, rx, p, a, b, Into(ONE));
    CollapseInto(Product, a, b, ONE);
  }

  /** rx and its inverse rx^-1 evaluate to themselves and have the base rx
      with degrees 1 and -1; rx^0 and 1 * 1 * 1 are one. */
  lemma InverseFactors(fuel: nat, rx: Expr)
    requires fuel > 1 && Run(fuel - 1, rx) == Ok(rx)
    requires rx != ZERO && rx != ONE && !IsApply(rx, "multiply") && !IsApply(rx, "power")
    ensures Run(fuel + 1, Apply("power", [rx, NEGONE])) == Ok(Apply("power", [rx, NEGONE]))
    ensures Base(fuel, rx) == Ok(rx) && Degree(fuel, rx) == Ok(ONE)
    ensures Base(fuel, Apply("power", [rx, NEGONE])) == Ok(rx)
    ensures Degree(fuel, Apply("power", [rx, NEGONE])) == Ok(NEGONE)
    ensures Power(fuel, rx, ZERO) == Ok(ONE) && Multiply(fuel, [ONE, ONE, ONE]) == Ok(ONE)
  {
    InvertTwice(fuel, rx, rx);
    MultiplyOnes(fuel);
  }

  /** HALF is what `divide(ONE, TWO)` evaluates to. */
  lemma HalfIsOneOverTwo(fuel: nat)
    requires fuel > 3
    ensures Divide(fuel, ONE, TWO) == Ok(HALF)
  {
    BaseDegreeSplit(fuel, -1, TWO);
    RunPow(fuel - 1, -1, TWO);
    BaseDegreeSplit(fuel - 2, -1, TWO);
    MultiplyKept(fuel - 1, ONE, HALF, ONE, TWO);
    CanonicalTwo(fuel, Product, ONE, HALF, ONE, HALF, Kept);
    CollapseKept(Product, ONE, HALF);
  }

  /** 2 * 2^-1 = 1: the two factors have the same base and degrees that
      add up to zero. */
  lemma HalfTimesTwo(fuel: nat)
    requires fuel > 2
    ensures Multiply(fuel, [TWO, HALF]) == Ok(ONE)
  {
    RunPow(fuel - 1, -1, TWO);
    BaseDegreeSplit(fuel - 2, -1, TWO);
    AddTwoNums(fuel - 2, 1, -1);
    MultiplyOnes(fuel - 2);
    MultiplyInto(fuel - 1, TWO, HALF, TWO, ONE, NEGONE, ZERO, ONE, ONE, ONE, ONE);
    CanonicalTwo(fuel, Product, TWO, HALF, TWO, HALF, Into(ONE));
    CollapseInto(Product, TWO, HALF, ONE);
  }

  /** The four views of c * x^k: its coefficient is c, its term x^k, its
      base x and its degree k; multiplying the coefficient by the term
      gives c * x^k back. */
  lemma CoefficientPowerSplit(fuel: nat, c: int, k: int, x: Expr)
    requires fuel > 2 && c != 0 && c != 1 && k != 0 && k != 1 && IsAtom(x)
    ensures var a := Apply("multiply", [Num(c), Pow(k, x)]);
      Coeff(a) == Num(c) && Term(fuel, a) == Ok(Pow(k, x)) &&
      Base(fuel, a) == Ok(x) && Degree(fuel, a) == Ok(Num(k)) &&
      Multiply(fuel, [Coeff(a), Pow(k, x)]) == Ok(a)
  {
    var a := Apply("multiply", [Num(c), Pow(k, x)]);
    RunPow(fuel - 1, k, x);
    CanonicalOne(fuel, Product, Pow(k, x));
    assert a.args[1..] == [Pow(k, x)];
    ScaleOf(fuel, c, Pow(k, x));
  }

  // --------------------------------------------------- conjugate, magnitude

  /** Conjugation only evaluates an expression in which i does not occur. */
  lemma ConjugateReal(fuel: nat, x: Expr)
    requires fuel > 1 && !Occurs(I, x)
    ensures Conjugate(fuel, x) == Run(fuel, x)
  {
    NegateOnce(fuel, I, I);
  }

  /** The conjugate of i is -i. */
  lemma ConjugateI(fuel: nat)
    requires fuel > 2
    ensures Conjugate(fuel, I) == Ok(Apply("multiply", [NEGONE, I]))
  {
    NegateOnce(fuel, I, I);
    NegateOnce(fuel - 1, I, I);
  }

  /** |x| = x for every atom other than i: x times its conjugate is x^2,
      and (x^2)^(1/2) multiplies the exponents 2 * 2^-1 back to one. */
  lemma AbsAtom(fuel: nat, x: Expr)
    requires fuel > 4 && IsAtom(x) && x != I
    ensures Abs(fuel, x) == Ok(x)
  {
    ConjugateReal(fuel, x);
    SquareAtom(fuel, x);
    SquareRootAtom(fuel, x);
  }

  /** x * x = x^2 for an atom x. */
  lemma SquareAtom(fuel: nat, x: Expr)
    requires fuel > 4 && IsAtom(x)
    ensures Multiply(fuel, [x, x]) == Ok(Pow(2, x))
  {
    MultiplyLikeFactors(fuel - 1, 1, 1, x);
    CompareRefl(x);
    CanonicalTwo(fuel, Product, x, x, x, x, Into(Pow(2, x)));
    CollapseInto(Product, x, x, Pow(2, x));
  }

  /** (x^2)^(1/2) = x for an atom x: the exponents multiply to one. */
  lemma SquareRootAtom(fuel: nat, x: Expr)
    requires fuel > 4 && IsAtom(x)
    ensures Power(fuel, Pow(2, x), HALF) == Ok(x)
  {
    HalfTimesTwo(fuel - 1);
  }

  // ------------------------------------------------------ factorial, choose

  function Fact(n: nat): nat {
    if n == 0 then 1 else n * Fact(n - 1)
  }

  lemma {:induction false} FactPositive(n: nat)
    ensures Fact(n) >= 1
  {
    if n > 0 {
      FactPositive(n - 1);
    }
  }

  /** factorial(n) = n! for a natural number n, given fuel above n. */
  lemma {:induction false} FactorialNat(fuel: nat, n: nat)
    requires fuel > n + 1
    ensures Factorial(fuel, Num(n)) == Ok(Num(Fact(n)))
  {
    if n > 0 {
      SubtractNums(fuel - 1, n, 1);
      FactorialNat(fuel - 1, n - 1);
      MultiplyTwoNums(fuel - 1, n, Fact(n - 1));
    }
  }

  /** factorial of a negative number never reaches its base case: whatever
      the fuel, the recursion runs out of it. */
  lemma {:induction false} FactorialNegative(fuel: nat, n: int)
    requires n < 0
    ensures Factorial(fuel, Num(n)) == Err(OutOfFuel)
  {
    if fuel > 1 {
      SubtractNums(fuel - 1, n, 1);
      FactorialNegative(fuel - 1, n - 1);
    }
  }

  /** choose(n, n) = 1 for a positive number n. */
  lemma ChooseSelf(fuel: nat, n: nat)
    requires n > 0 && fuel > n + 3
    ensures Choose(fuel, Num(n), Num(n)) == Ok(ONE)
  {
    FactorialNat(fuel, n);
    SubtractNums(fuel, n, n);
    MultiplyTwoNums(fuel, Fact(n), 1);
    FactPositive(n);
    if Fact(n) == 1 {
      assert Num(Fact(n) * 1) == ONE;
      assert Invert(fuel, ONE) == Ok(ONE);
      MultiplyTwoNums(fuel, 1, 1);
    } else {
      DivideSelf(fuel, Num(Fact(n)), Num(Fact(n)));
    }
  }
}
