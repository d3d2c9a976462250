/** The worked examples at the end of the source file, each stated for
    arbitrary symbols where the example names particular ones. */
module Demos {
  import opened Expressions
  import opened Ordering
  import opened Sorting
  import opened Substitution
  import opened Canon
  import opened CanonLaws
  import opened Rewrite
  import opened RewriteLaws

  /** a * b for two atoms in order is its own canonical form, and so is
      b * a. */
  lemma ProductOfAtoms(fuel: nat, a: Expr, b: Expr)
    requires fuel > 1 && IsAtom(a) && IsAtom(b) && Compare(a, b) < 0
    ensures Multiply(fuel, [a, b]) == Ok(Apply("multiply", [a, b]))
    ensures Multiply(fuel, [b, a]) == Ok(Apply("multiply", [a, b]))
  {
    CompareRefl(a);
    MultiplyKept(fuel - 1, a, b, a, b);
    CanonicalTwo(fuel, Product, a, b, a, b, Kept);
    CanonicalTwo(fuel, Product, b, a, a, b, Kept);
    CollapseKept(Product, a, b);
  }

  /** 3 + y + 8 + 13 = 24 + y: the numbers sort first and fold into one,
      the symbol is kept after them. */
  lemma AddNumbersAndSymbol(fuel: nat, y: Expr)
    requires fuel > 2 && IsAtom(y)
    ensures Add(fuel, [Num(3), y, Num(8), Num(13)]) == Ok(Apply("add", [Num(24), y]))
  {
    var xs := [Num(3), y, Num(8), Num(13)];
    RunAllLeaves(fuel - 1, xs);
    FlattenKeeps(Sum, xs);
    SortNumbersAndSymbol(y);
    assert [Num(3)] + [Num(8), Num(13), y] == [Num(3), Num(8), Num(13), y];
    MergeNumbersAndSymbol(fuel - 1, y);
    CanonicalFrom(fuel, Sum, xs, xs, Num(3), [Num(8), Num(13), y], MergeStep([Num(24)], y, Kept));
    CollapseKept(Sum, Num(24), y);
  }

  lemma SortNumbersAndSymbol(y: Expr)
    requires IsAtom(y)
    ensures SortTerms([Num(3), y, Num(8), Num(13)]) == [Num(3), Num(8), Num(13), y]
  {
    NumbersBeforeSymbol(y);
    SamePermutationNumbers(y);
    SortTermsCanonical([Num(3), y, Num(8), Num(13)], [Num(3), Num(8), Num(13), y]);
  }

  lemma NumbersBeforeSymbol(y: Expr)
    requires IsAtom(y)
    ensures Sorted([Num(3), Num(8), Num(13), y])
  {
  }

  lemma SamePermutationNumbers(y: Expr)
    ensures multiset([Num(3), Num(8), Num(13), y]) == multiset([Num(3), y, Num(8), Num(13)])
  {
  }

  lemma MergeNumbersAndSymbol(fuel: nat, y: Expr)
    requires fuel > 1 && IsAtom(y)
    ensures Merge(fuel, Sum, [Num(3)], [Num(8), Num(13), y]) == Ok(MergeStep([Num(24)], y, Kept))
  {
    MergeCons(fuel, Sum, [Num(3)], [Num(8), Num(13), y], Into(Num(11)));
    assert [Num(8), Num(13), y][1..] == [Num(13), y];
    assert MergeStep([Num(3)], Num(8), Into(Num(11))) == [Num(11)];
    AddKept(fuel, Num(24), y, Num(24), y);
    MergeIntoThenLast(fuel, Sum, Num(11), Num(13), y, Num(24), Kept);
  }

  /** |n| for a number: itself when not negative, its negation otherwise. */
  lemma AbsOfNumber(fuel: nat, n: int)
    requires fuel > 0
    ensures Abs(fuel, Num(n)) == Ok(Num(if n < 0 then -n else n))
  {
    NegateNum(fuel, n);
  }

  /** Substitution rewrites the evaluated sum cat + dog + meow into
      dog + dog + meow and does not evaluate the result again. */
  lemma SubstInSum(fuel: nat)
    requires fuel > 2
    ensures Add(fuel, [Sym("dog"), Sym("meow"), Sym("cat")]) ==
            Ok(Apply("add", [Sym("cat"), Sym("dog"), Sym("meow")]))
    ensures Subst(Sym("cat"), Sym("dog"), Apply("add", [Sym("cat"), Sym("dog"), Sym("meow")])) ==
            Apply("add", [Sym("dog"), Sym("dog"), Sym("meow")])
  {
    AddPets(fuel);
    SubstPets();
  }

  lemma AddPets(fuel: nat)
    requires fuel > 2
    ensures Add(fuel, [Sym("dog"), Sym("meow"), Sym("cat")]) ==
            Ok(Apply("add", [Sym("cat"), Sym("dog"), Sym("meow")]))
  {
    PetsInOrder();
    SamePermutationPets();
    AddThreeAtoms(fuel, Sym("dog"), Sym("meow"), Sym("cat"), Sym("cat"), Sym("dog"), Sym("meow"));
  }

  lemma SubstPets()
    ensures Subst(Sym("cat"), Sym("dog"), Apply("add", [Sym("cat"), Sym("dog"), Sym("meow")])) ==
            Apply("add", [Sym("dog"), Sym("dog"), Sym("meow")])
  {
    var cat, dog, meow := Sym("cat"), Sym("dog"), Sym("meow");
    var r := Subst(cat, dog, Apply("add", [cat, dog, meow]));
    assert r.args[0] == dog && r.args[1] == dog && r.args[2] == meow;
  }

  lemma PetsInOrder()
    ensures Compare(Sym("cat"), Sym("dog")) < 0 && Compare(Sym("dog"), Sym("meow")) < 0
  {
    assert StrCmp("cat", "dog") == -1 && StrCmp("dog", "meow") == -1;
  }

  lemma SamePermutationPets()
    ensures multiset([Sym("dog"), Sym("meow"), Sym("cat")]) ==
            multiset([Sym("cat"), Sym("dog"), Sym("meow")])
  {
  }

  /** a + b + c for three atoms in increasing order, from any order of the
      operands. */
  lemma AddThreeAtoms(fuel: nat, u: Expr, v: Expr, w: Expr, a: Expr, b: Expr, c: Expr)
    requires fuel > 2 && IsAtom(u) && IsAtom(v) && IsAtom(w)
    requires IsAtom(a) && IsAtom(b) && IsAtom(c) && Compare(a, b) < 0 && Compare(b, c) < 0
    requires multiset([u, v, w]) == multiset([a, b, c])
    ensures Add(fuel, [u, v, w]) == Ok(Apply("add", [a, b, c]))
  {
    SortThreeAtoms(u, v, w, a, b, c);
    MergeThreeAtoms(fuel - 1, a, b, c);
    RunAllTriple(fuel - 1, u, v, w);
    CanonicalFrom(fuel, Sum, [u, v, w], [u, v, w], a, [b, c], [a, b, c]);
  }

  lemma SortThreeAtoms(u: Expr, v: Expr, w: Expr, a: Expr, b: Expr, c: Expr)
    requires IsAtom(u) && IsAtom(v) && IsAtom(w)
    requires Compare(a, b) < 0 && Compare(b, c) < 0
    requires multiset([u, v, w]) == multiset([a, b, c])
    ensures SortTerms(Flatten(Sum, [u, v, w])) == [a] + [b, c]
  {
    FlattenTriple(Sum, u, v, w);
    SortedThree(a, b, c);
    SortTermsCanonical([u, v, w], [a, b, c]);
    ConsThree(a, b, c);
  }

  lemma SortedThree(a: Expr, b: Expr, c: Expr)
    requires Compare(a, b) <= 0 && Compare(b, c) <= 0
    ensures Sorted([a, b, c])
  {
    SortTriple(a, b, c);
    SortSorted([a, b, c]);
  }

  lemma MergeThreeAtoms(fuel: nat, a: Expr, b: Expr, c: Expr)
    requires fuel > 1 && IsAtom(a) && IsAtom(b) && IsAtom(c)
    requires Compare(a, b) < 0 && Compare(b, c) < 0
    ensures Merge(fuel, Sum, [a], [b, c]) == Ok([a, b, c])
    ensures Collapse(Sum, [a, b, c]) == Apply("add", [a, b, c])
  {
    CompareRefl(a);
    CompareRefl(b);
    AddKept(fuel, a, b, a, b);
    AddKept(fuel, b, c, b, c);
    MergeCons(fuel, Sum, [a], [b, c], Kept);
    assert MergeStep([a], b, Kept) == [a, b] && [b, c][1..] == [c];
    MergeLast(fuel, Sum, [a, b], c, Kept);
    assert MergeStep([a, b], c, Kept) == [a, b, c];
  }

  /** 1 + (-1) + 0 * (i + 1) = 0, each operand evaluated first. */
  lemma ZeroSum(fuel: nat)
    requires fuel > 4
    ensures Negate(fuel, ONE) == Ok(NEGONE)
    ensures Add(fuel, [I, ONE]) == Ok(Apply("add", [ONE, I]))
    ensures Multiply(fuel, [ZERO, Apply("add", [ONE, I])]) == Ok(ZERO)
    ensures Add(fuel, [ONE, NEGONE, ZERO]) == Ok(ZERO)
  {
    NegateNum(fuel, 1);
    SumOneI(fuel);
    ZeroTimesSumOneI(fuel);
    var xs := [ONE, NEGONE, ZERO];
    AddNums(fuel, xs);
    assert xs[1..] == [NEGONE, ZERO] && xs[1..][1..] == [ZERO] && xs[1..][1..][1..] == [];
    assert SumOf([ZERO]) == 0;
    assert SumOf([NEGONE, ZERO]) == -1;
  }

  /** i + 1 = 1 + i = the sum with the number first. */
  lemma SumOneI(fuel: nat)
    requires fuel > 1
    ensures Add(fuel, [I, ONE]) == Ok(Apply("add", [ONE, I]))
    ensures Add(fuel, [ONE, I]) == Ok(Apply("add", [ONE, I]))
  {
    AddKept(fuel - 1, ONE, I, ONE, I);
    CanonicalTwo(fuel, Sum, I, ONE, ONE, I, Kept);
    CanonicalTwo(fuel, Sum, ONE, I, ONE, I, Kept);
    CollapseKept(Sum, ONE, I);
  }

  lemma ZeroTimesSumOneI(fuel: nat)
    requires fuel > 3
    ensures Multiply(fuel, [ZERO, Apply("add", [ONE, I])]) == Ok(ZERO)
  {
    var s := Apply("add", [ONE, I]);
    SumOneI(fuel - 2);
    assert Run(fuel - 1, s) == Ok(s);
    CanonicalTwo(fuel, Product, ZERO, s, ZERO, s, Into(ZERO));
    CollapseInto(Product, ZERO, s, ZERO);
  }

  /** (x ^ y) ^ z = x ^ (y z): the exponents multiply and the base is
      raised once. */
  lemma PowerOfPower(fuel: nat, x: Expr, y: Expr, z: Expr)
    requires fuel > 4 && IsAtom(x) && IsAtom(y) && IsAtom(z) && Compare(y, z) < 0
    ensures Power(fuel, Apply("power", [x, y]), z) ==
            Ok(Apply("power", [x, Apply("multiply", [y, z])]))
  {
    ProductOfAtoms(fuel - 1, y, z);
    RunProductOfAtoms(fuel - 2, y, z);
  }

  lemma RunProductOfAtoms(fuel: nat, y: Expr, z: Expr)
    requires fuel > 2 && IsAtom(y) && IsAtom(z) && Compare(y, z) < 0
    ensures Run(fuel, Apply("multiply", [y, z])) == Ok(Apply("multiply", [y, z]))
  {
    ProductOfAtoms(fuel - 1, y, z);
  }

  /** The denominator of 1 / (1 / (1 / d)) is d. */
  lemma DenominatorOfTripleInverse(fuel: nat, d: Expr)
    requires fuel > 3 && IsAtom(d)
    ensures Invert(fuel, d) == Ok(Pow(-1, d))
    ensures Invert(fuel, Pow(-1, d)) == Ok(d)
    ensures Denominator(fuel, Pow(-1, d)) == Ok(d)
  {
    InvertTwice(fuel, d, d);
    FractionOfPow(fuel, -1, d);
  }
}
