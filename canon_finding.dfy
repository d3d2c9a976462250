/** The order of a sum's operands after like terms merge. `add` sorts its
    operands and then merges neighbours with the same term; a merged
    operand such as 2 * a is a product, which sorts after every atom, but
    the list is not sorted again. So `add(a, a, b)` leaves `add(2 * a, b)`
    out of order, and evaluating that result once more reorders it: the
    evaluation is not idempotent. `CollapseSorted` is the evidently intended
    last step, which sorts the merged list before it is collapsed. */
module CanonFinding {
  import opened Expressions
  import opened Ordering
  import opened Sorting
  import opened Canon
  import opened CanonLaws

  // ------------------------------------------------------------ as written

  /** add(a, a, b) for atoms a < b merges the two a into 2 * a and keeps b
      after it. */
  lemma AddMergedOutOfOrder(fuel: nat, a: Expr, b: Expr)
    requires fuel > 3 && IsAtom(a) && IsAtom(b) && Compare(a, b) < 0
    ensures Add(fuel, [a, a, b]) == Ok(Apply("add", [Scale(2, a), b]))
    ensures !Sorted([Scale(2, a), b])
  {
    var xs := [a, a, b];
    var twice := Scale(2, a);
    RunAllTriple(fuel - 1, a, a, b);
    MergedPair(fuel, a, b);
    assert [a] + [a, b] == [a, a, b];
    CanonicalFrom(fuel, Sum, xs, xs, a, [a, b], [twice, b]);
    var out := [twice, b];
    assert out[0] == twice && out[1] == b && Compare(twice, b) == 1;
  }

  /** Evaluating add(2 * a, b) again puts b first: the first result was not
      a fixed point of the evaluation. */
  lemma RunReorders(fuel: nat, a: Expr, b: Expr)
    requires fuel > 4 && IsAtom(a) && IsAtom(b) && a != b
    ensures Run(fuel, Apply("add", [Scale(2, a), b])) == Ok(Apply("add", [b, Scale(2, a)]))
  {
    var twice := Scale(2, a);
    RunScale(fuel - 2, 2, a);
    TermCoeffSplit(fuel - 3, 2, a);
    SymbolicBaseOf(fuel - 3, b);
    AddKept(fuel - 2, b, twice, b, a);
    assert Compare(b, twice) == -1;
    CanonicalTwo(fuel - 1, Sum, twice, b, b, twice, Kept);
    CollapseKept(Sum, b, twice);
  }

  /** The sum of dog, dog and meow comes out as 2 * dog + meow, and running
      that again gives meow + 2 * dog. */
  lemma DogDogMeow(fuel: nat)
    requires fuel > 4
    ensures Add(fuel, [Sym("dog"), Sym("dog"), Sym("meow")])
         == Ok(Apply("add", [Apply("multiply", [Num(2), Sym("dog")]), Sym("meow")]))
    ensures Run(fuel, Apply("add", [Apply("multiply", [Num(2), Sym("dog")]), Sym("meow")]))
         == Ok(Apply("add", [Sym("meow"), Apply("multiply", [Num(2), Sym("dog")])]))
  {
    assert StrCmp("dog", "meow") == -1;
    AddMergedOutOfOrder(fuel, Sym("dog"), Sym("meow"));
    RunReorders(fuel, Sym("dog"), Sym("meow"));
  }

  // ------------------------------------------------------------- corrected

  /** The merged list sorted again before it is collapsed. */
  function CollapseSorted(op: Op, merged: seq<Expr>): (r: Expr)
    requires |merged| > 0
    ensures |merged| >= 2 && (|merged| > 2 || SortTerms(merged)[0] != Identity(op)) ==>
      r.Apply? && r.head == OpHead(op) && Sorted(r.args)
  {
    SortSorted(merged);
    TailSorted(SortTerms(merged));
    Collapse(op, SortTerms(merged))
  }

  /** `Pipeline` with the corrected last step. */
  function PipelineSorted(fuel: nat, op: Op, run: seq<Expr>): (r: Result<Expr>)
    requires fuel > 0
    ensures run == [] ==> r == Ok(Identity(op))
  {
    var sorted := SortTerms(Flatten(op, run));
    if |sorted| == 0 then Ok(Identity(op))
    else
      var merged :- Merge(fuel - 1, op, [sorted[0]], sorted[1..]);
      Ok(CollapseSorted(op, merged))
  }

  /** The corrected pipeline gives b + 2 * a for a, a, b, which evaluates
      to itself. */
  lemma PipelineSortedFixed(fuel: nat, a: Expr, b: Expr)
    requires fuel > 4 && IsAtom(a) && IsAtom(b) && Compare(a, b) < 0
    ensures PipelineSorted(fuel, Sum, [a, a, b]) == Ok(Apply("add", [b, Scale(2, a)]))
    ensures Run(fuel, Apply("add", [b, Scale(2, a)])) == Ok(Apply("add", [b, Scale(2, a)]))
  {
    var twice := Scale(2, a);
    MergedPair(fuel, a, b);
    CompareRefl(a);
    assert Compare(b, twice) == -1;
    SortPair(b, twice);
    assert SortTerms([twice, b]) == [b, twice];
    RunScale(fuel - 2, 2, a);
    TermCoeffSplit(fuel - 3, 2, a);
    SymbolicBaseOf(fuel - 3, b);
    AddKept(fuel - 2, b, twice, b, a);
    CanonicalTwo(fuel - 1, Sum, b, twice, b, twice, Kept);
    CollapseKept(Sum, b, twice);
  }

  /** The sort and merge steps of a, a, b, shared by the two pipelines. */
  lemma MergedPair(fuel: nat, a: Expr, b: Expr)
    requires fuel > 3 && IsAtom(a) && IsAtom(b) && Compare(a, b) < 0
    ensures SortTerms(Flatten(Sum, [a, a, b])) == [a, a, b]
    ensures Merge(fuel - 1, Sum, [a], [a, b]) == Ok([Scale(2, a), b])
  {
    FlattenTriple(Sum, a, a, b);
    CompareRefl(a);
    SortTriple(a, a, b);
    MergeTwiceThenOther(fuel - 1, a, b);
  }

  lemma MergeTwiceThenOther(fuel: nat, a: Expr, b: Expr)
    requires fuel > 2 && IsAtom(a) && IsAtom(b) && a != b
    ensures Merge(fuel, Sum, [a], [a, b]) == Ok([Scale(2, a), b])
  {
    var twice := Scale(2, a);
    AddLikeTerms(fuel, 1, 1, a);
    TermCoeffSplit(fuel - 1, 2, a);
    SymbolicBaseOf(fuel - 1, b);
    AddKept(fuel, twice, b, a, b);
    MergeIntoThenLast(fuel, Sum, a, a, b, twice, Kept);
    assert MergeStep([twice], b, Kept) == [twice, b];
  }
}
