/** What the partial gcd promises: the gcd of an expression with itself,
    through every path that reaches it, and the lcm that follows from it. */
module GcdLaws {
  import opened Expressions
  import opened Ordering
  import opened Canon
  import opened CanonLaws
  import opened RewriteLaws
  import opened PolyGcd

  /** Folding gcd over copies of the accumulator leaves it unchanged. */
  lemma {:induction false} GcdFoldSame(fuel: nat, x: Expr, xs: seq<Expr>)
    requires forall i :: 0 <= i < |xs| ==> xs[i] == x
    ensures GcdFold(fuel, x, xs) == Ok(x)
  {
    if xs != [] {
      GcdFoldSame(fuel, x, xs[1..]);
    }
  }

  /** Two different atoms have no common factor. */
  lemma GcdAtoms(fuel: nat, a: Expr, b: Expr)
    requires IsAtom(a) && IsAtom(b) && a != b
    ensures Gcd(fuel, a, b) == Ok(ONE)
    ensures GcdFold(fuel, a, [b]) == Ok(ONE)
  {
    assert [b][1..] == [];
  }

  /** a + b for two atoms in order is its own canonical form. */
  lemma SumOfAtoms(fuel: nat, a: Expr, b: Expr)
    requires fuel > 2 && IsAtom(a) && IsAtom(b) && Compare(a, b) < 0
    ensures Add(fuel, [a, b]) == Ok(Apply("add", [a, b]))
  {
    CompareRefl(a);
    AddKept(fuel - 1, a, b, a, b);
    CanonicalTwo(fuel, Sum, a, b, a, b, Kept);
    CollapseKept(Sum, a, b);
  }

  /** (a + b) * 1 = a + b. */
  lemma MultiplySumByOne(fuel: nat, a: Expr, b: Expr)
    requires fuel > 4 && IsAtom(a) && IsAtom(b) && Compare(a, b) < 0
    ensures Multiply(fuel, [Apply("add", [a, b]), ONE]) == Ok(Apply("add", [a, b]))
  {
    var s := Apply("add", [a, b]);
    SumOfAtoms(fuel - 2, a, b);
    assert Run(fuel - 1, s) == Ok(s);
    assert Base(fuel - 2, s) == Ok(s);
    MultiplyKept(fuel - 1, ONE, s, ONE, s);
    CanonicalTwo(fuel, Product, s, ONE, ONE, s, Kept);
    CollapseKept(Product, ONE, s);
  }

  /** (a + b) / 1 = a + b. */
  lemma DivideSumByOne(fuel: nat, a: Expr, b: Expr)
    requires fuel > 4 && IsAtom(a) && IsAtom(b) && Compare(a, b) < 0
    ensures Divide(fuel, Apply("add", [a, b]), ONE) == Ok(Apply("add", [a, b]))
  {
    assert Invert(fuel, ONE) == Ok(ONE);
    MultiplySumByOne(fuel, a, b);
  }

  /** gcd_add_add(a + b, a + b) = a + b: each side's terms have gcd one, the
      two quotients are the sum itself, and the sum times gcd(1, 1) is the
      sum again. */
  lemma GcdAddAddSelf(fuel: nat, a: Expr, b: Expr)
    requires fuel > 5 && IsAtom(a) && IsAtom(b) && Compare(a, b) < 0
    ensures GcdAddAdd(fuel, Apply("add", [a, b]), Apply("add", [a, b])) == Ok(Apply("add", [a, b]))
  {
    var s := Apply("add", [a, b]);
    CompareRefl(a);
    GcdAtoms(fuel - 1, a, b);
    assert s.args[1..] == [b];
    DivideSumByOne(fuel - 1, a, b);
    IsEqualIffCompareZero(s, s);
    assert Gcd(fuel - 1, ONE, ONE) == Ok(ONE);
    MultiplySumByOne(fuel - 1, a, b);
  }

  /** lcm(x, x) = x for an atom x. */
  lemma LcmSelf(fuel: nat, x: Expr)
    requires fuel > 3 && IsAtom(x)
    ensures Lcm(fuel, x, x) == Ok(x)
  {
    DivideSelf(fuel, x, x);
    InvertTwice(fuel, x, x);
    MultiplyOnePow(fuel, -1, x);
  }
}
