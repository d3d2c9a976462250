/** Laws of `add` and `multiply` over operand lists of any length: the
    result does not depend on the order of the operands, and a zero operand
    makes a product zero whatever the other operands are. */
module CanonPerm {
  import opened Expressions
  import opened Ordering
  import opened Sorting
  import opened Canon
  import opened CanonLaws

  // ------------------------------------------------------- operand values

  /** The value of x, or x itself when its evaluation fails. */
  function Value(fuel: nat, x: Expr): Expr {
    if Run(fuel, x).Ok? then Run(fuel, x).value else x
  }

  /** The values of a list, position by position. */
  function Values(fuel: nat, xs: seq<Expr>): (r: seq<Expr>)
    ensures |r| == |xs|
    ensures forall i :: 0 <= i < |xs| ==> r[i] == Value(fuel, xs[i])
  {
    seq(|xs|, i requires 0 <= i < |xs| => Value(fuel, xs[i]))
  }

  /** Evaluating an operand list succeeds exactly when every operand
      evaluates, and then gives their values in order. */
  lemma {:induction false} RunAllValues(fuel: nat, xs: seq<Expr>)
    ensures RunAll(fuel, xs).Ok? <==> forall i :: 0 <= i < |xs| ==> Run(fuel, xs[i]).Ok?
    ensures RunAll(fuel, xs).Ok? ==> RunAll(fuel, xs).value == Values(fuel, xs)
  {
    if xs != [] {
      RunAllValues(fuel, xs[1..]);
      assert forall i :: 1 <= i < |xs| ==> xs[1..][i - 1] == xs[i];
      assert Values(fuel, xs) == [Value(fuel, xs[0])] + Values(fuel, xs[1..]);
    }
  }

  /** Removing the first element of a list and the same element from a
      permutation of it leaves permutations of each other. */
  lemma PermSplit(t1: seq<Expr>, t2: seq<Expr>) returns (p: seq<Expr>, q: seq<Expr>)
    requires multiset(t1) == multiset(t2) && t1 != []
    ensures t2 == p + [t1[0]] + q && t1 == [t1[0]] + t1[1..]
    ensures multiset(t1[1..]) == multiset(p + q)
  {
    var x := t1[0];
    assert x in multiset(t2);
    var j :| 0 <= j < |t2| && t2[j] == x;
    p, q := t2[..j], t2[j + 1..];
    assert t2 == p + [x] + q;
    assert t1 == [x] + t1[1..];
    assert multiset(t2) == multiset(p) + multiset{x} + multiset(q);
    assert multiset(t1) == multiset{x} + multiset(t1[1..]);
    assert multiset(p + q) == multiset(p) + multiset(q);
    assert multiset(t1[1..]) == multiset(t1) - multiset{x};
    assert multiset(p + q) == multiset(t2) - multiset{x};
  }

  lemma ValuesAppend(fuel: nat, xs: seq<Expr>, ys: seq<Expr>)
    ensures Values(fuel, xs + ys) == Values(fuel, xs) + Values(fuel, ys)
  {
  }

  /** Permuting a list permutes its values. */
  lemma {:induction false} ValuesPerm(fuel: nat, t1: seq<Expr>, t2: seq<Expr>)
    requires multiset(t1) == multiset(t2)
    ensures multiset(Values(fuel, t1)) == multiset(Values(fuel, t2))
    decreases |t1|
  {
    if t1 == [] {
      assert |t2| == |multiset(t2)| == 0;
    } else {
      var x := t1[0];
      var p, q := PermSplit(t1, t2);
      ValuesPerm(fuel, t1[1..], p + q);
      ValuesAppend(fuel, [x], t1[1..]);
      ValuesAppend(fuel, p + [x], q);
      ValuesAppend(fuel, p, [x]);
      ValuesAppend(fuel, p, q);
    }
  }

  // -------------------------------------------------------------- flatten

  /** Flattening distributes over concatenation. */
  lemma {:induction false} FlattenAppend(op: Op, xs: seq<Expr>, ys: seq<Expr>)
    ensures Flatten(op, xs + ys) == Flatten(op, xs) + Flatten(op, ys)
    decreases |ys|
  {
    if ys == [] {
      assert xs + ys == xs;
    } else {
      var init, last := ys[..|ys| - 1], ys[|ys| - 1];
      assert ys == init + [last];
      FlattenAppend(op, xs, init);
      FlattenAppendSnoc(op, xs, init, last);
    }
  }

  /** The step of `FlattenAppend`: one more operand at the end. */
  lemma FlattenAppendSnoc(op: Op, xs: seq<Expr>, init: seq<Expr>, last: Expr)
    requires Flatten(op, xs + init) == Flatten(op, xs) + Flatten(op, init)
    ensures Flatten(op, xs + (init + [last])) == Flatten(op, xs) + Flatten(op, init + [last])
  {
    Associative(xs, init, [last]);
    FlattenSnoc(op, xs + init, last);
    FlattenSnoc(op, init, last);
    Associative(Flatten(op, xs), Flatten(op, init), Splice(op, last));
  }

  lemma Associative(a: seq<Expr>, b: seq<Expr>, c: seq<Expr>)
    ensures a + (b + c) == (a + b) + c
  {
  }

  lemma FlattenSingle(op: Op, x: Expr)
    ensures Flatten(op, [x]) == Splice(op, x)
  {
    FlattenSnoc(op, [], x);
    assert [] + [x] == [x];
  }

  /** Permuting the operands permutes the flattened list. */
  lemma {:induction false} FlattenPerm(op: Op, t1: seq<Expr>, t2: seq<Expr>)
    requires multiset(t1) == multiset(t2)
    ensures multiset(Flatten(op, t1)) == multiset(Flatten(op, t2))
    decreases |t1|
  {
    if t1 == [] {
      assert |t2| == |multiset(t2)| == 0;
    } else {
      var x := t1[0];
      var p, q := PermSplit(t1, t2);
      FlattenPerm(op, t1[1..], p + q);
      FlattenSingle(op, x);
      FlattenAppend(op, [x], t1[1..]);
      FlattenAppend(op, p + [x], q);
      FlattenAppend(op, p, [x]);
      FlattenAppend(op, p, q);
    }
  }

  // -------------------------------------------------------- commutativity

  /** Permuted operand lists evaluate together, to permuted values. */
  lemma RunAllPerm(fuel: nat, t1: seq<Expr>, t2: seq<Expr>)
    requires multiset(t1) == multiset(t2) && RunAll(fuel, t1).Ok?
    ensures RunAll(fuel, t2).Ok?
    ensures multiset(RunAll(fuel, t1).value) == multiset(RunAll(fuel, t2).value)
  {
    RunAllValues(fuel, t1);
    RunAllValues(fuel, t2);
    forall i | 0 <= i < |t2|
      ensures Run(fuel, t2[i]).Ok?
    {
      assert t2[i] in multiset(t1);
      var k :| 0 <= k < |t1| && t1[k] == t2[i];
    }
    ValuesPerm(fuel, t1, t2);
  }

  /** Sums and products of any number of operands commute: two operand
      lists with the same elements give the same result once the operands
      evaluate. */
  lemma CanonicalPerm(fuel: nat, op: Op, t1: seq<Expr>, t2: seq<Expr>)
    requires fuel > 0 && multiset(t1) == multiset(t2) && RunAll(fuel - 1, t1).Ok?
    ensures Canonical(fuel, op, t1) == Canonical(fuel, op, t2)
  {
    RunAllPerm(fuel - 1, t1, t2);
    var r1, r2 := RunAll(fuel - 1, t1).value, RunAll(fuel - 1, t2).value;
    FlattenPerm(op, r1, r2);
    var f1, f2 := Flatten(op, r1), Flatten(op, r2);
    SortSorted(f1);
    SortSorted(f2);
    SortPerm(f1);
    SortPerm(f2);
    SortedUnique(SortTerms(f1), SortTerms(f2));
    CanonicalBySorted(fuel, op, t1, t2, r1, r2);
  }

  /** Sums and products of two operands commute once both evaluate. */
  lemma CanonicalSwap(fuel: nat, op: Op, u: Expr, v: Expr)
    requires fuel > 0 ==> Run(fuel - 1, u).Ok? && Run(fuel - 1, v).Ok?
    ensures Canonical(fuel, op, [u, v]) == Canonical(fuel, op, [v, u])
  {
    if fuel > 0 {
      RunAllTwo(fuel - 1, u, v, Run(fuel - 1, u).value, Run(fuel - 1, v).value);
      SwapPerm(u, v);
      CanonicalPerm(fuel, op, [u, v], [v, u]);
    }
  }

  lemma SwapPerm(u: Expr, v: Expr)
    ensures multiset([u, v]) == multiset([v, u])
  {
  }

  // ----------------------------------------------------------------- zero

  /** In an ordered list the numbers come first. */
  lemma SortedNumsFirst(s: seq<Expr>, i: nat, j: nat)
    requires Sorted(s) && i < j < |s| && s[j].Num?
    ensures s[i].Num?
  {
    assert Compare(s[i], s[j]) <= 0;
  }

  /** The product merge loop from a running number v: when v is zero or a
      zero is still to come in the ordered rest, the loop ends with the
      single value zero. The numbers fold into zero and the zero then
      absorbs every later operand. */
  lemma {:induction false} MergeToZero(fuel: nat, v: int, rest: seq<Expr>)
    requires Sorted(rest) && (v == 0 || ZERO in rest)
    ensures Merge(fuel, Product, [Num(v)], rest) == Ok([ZERO])
    decreases |rest|
  {
    if rest != [] {
      var w := MergeZeroStep(fuel, v, rest);
      TailSorted(rest);
      MergeToZero(fuel, w, rest[1..]);
    }
  }

  /** One step of `MergeToZero`: the running number absorbs the next
      operand, and stays zero or still has a zero to come. */
  lemma MergeZeroStep(fuel: nat, v: int, rest: seq<Expr>) returns (w: int)
    requires Sorted(rest) && rest != [] && (v == 0 || ZERO in rest)
    ensures w == 0 || ZERO in rest[1..]
    ensures Merge(fuel, Product, [Num(v)], rest) == Merge(fuel, Product, [Num(w)], rest[1..])
  {
    var b := rest[0];
    assert rest == [b] + rest[1..];
    if b.Num? {
      w := v * b.n;
      MergeCons(fuel, Product, [Num(v)], rest, Into(Num(w)));
      assert MergeStep([Num(v)], b, Into(Num(w))) == [Num(w)];
    } else {
      assert ZERO !in rest;
      w := 0;
      MergeCons(fuel, Product, [ZERO], rest, Into(ZERO));
      assert MergeStep([ZERO], b, Into(ZERO)) == [ZERO];
    }
  }

  /** An ordered list holding zero starts with a number, and that number
      is zero or the zero comes later. */
  lemma SortedZero(s: seq<Expr>)
    requires Sorted(s) && ZERO in s
    ensures s[0].Num? && (s[0] == ZERO || ZERO in s[1..])
  {
    var j :| 0 <= j < |s| && s[j] == ZERO;
    if j > 0 {
      SortedNumsFirst(s, 0, j);
      assert s[1..][j - 1] == ZERO;
    }
  }

  /** A zero operand that evaluates to itself survives flattening and
      sorting. */
  lemma ZeroSorted(op: Op, run: seq<Expr>)
    requires ZERO in run
    ensures ZERO in SortTerms(Flatten(op, run))
  {
    var k :| 0 <= k < |run| && run[k] == ZERO;
    assert ZERO in Splice(op, run[k]);
    FlattenMembers(op, run, ZERO);
    SortPerm(Flatten(op, run));
    assert ZERO in multiset(SortTerms(Flatten(op, run)));
  }

  /** The product merge over evaluated operands containing zero leaves
      the single value zero. */
  lemma MergeZero(fuel: nat, run: seq<Expr>, sorted: seq<Expr>)
    requires ZERO in run && sorted == SortTerms(Flatten(Product, run))
    ensures |sorted| > 0 && Merge(fuel, Product, [sorted[0]], sorted[1..]) == Ok([ZERO])
  {
    ZeroSorted(Product, run);
    SortSorted(Flatten(Product, run));
    SortedZero(sorted);
    TailSorted(sorted);
    MergeToZero(fuel, sorted[0].n, sorted[1..]);
  }

  /** The product pipeline on evaluated operands containing zero gives zero. */
  lemma PipelineZero(fuel: nat, run: seq<Expr>)
    requires fuel > 0 && ZERO in run
    ensures Pipeline(fuel, Product, run) == Ok(ZERO)
  {
    var sorted := SortTerms(Flatten(Product, run));
    MergeZero(fuel - 1, run, sorted);
    assert Collapse(Product, [ZERO]) == ZERO;
  }

  /** x * 0 = 0 in any operand list: a product with a zero operand whose
      operands all evaluate is zero. */
  lemma MultiplyByZero(fuel: nat, terms: seq<Expr>)
    requires fuel > 0 && ZERO in terms && RunAll(fuel - 1, terms).Ok?
    ensures Multiply(fuel, terms) == Ok(ZERO)
  {
    var run := RunAll(fuel - 1, terms).value;
    RunAllValues(fuel - 1, terms);
    var k :| 0 <= k < |terms| && terms[k] == ZERO;
    assert run[k] == ZERO;
    PipelineZero(fuel, run);
  }
}
