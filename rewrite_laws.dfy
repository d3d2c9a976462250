/** What the rewrite library promises: the exponential undoes the logarithm
    and back, the logarithm of a number, the split of a power into
    numerator and denominator and its recombination, and distribution of a
    scaled sum. */
module RewriteLaws {
  import opened Expressions
  import opened Ordering
  import opened Sorting
  import opened Canon
  import opened CanonLaws
  import opened CanonPerm
  import opened Rewrite

  // ------------------------------------------------------------- logarithm

  /** log(e ^ x) = x for every leaf x. */
  lemma LogOfExp(fuel: nat, x: Expr)
    requires fuel > 2 && IsLeaf(x)
    ensures Exp(fuel, x).Ok? && Log(fuel, Exp(fuel, x).value) == Ok(x)
  {
    if x != ZERO && x != ONE {
      var p := Apply("power", [E, x]);
      assert Exp(fuel, x) == Ok(p);
      MultiplyOne(fuel, x, x);
      assert Log(fuel, p) == Multiply(fuel, [x, ONE]);
    }
  }

  /** e ^ (log x) = x for every leaf x whose logarithm stays symbolic. */
  lemma ExpOfLog(fuel: nat, x: Expr)
    requires IsLeaf(x) && !x.Num? && x != E
    ensures Log(fuel, x).Ok? && Exp(fuel, Log(fuel, x).value) == Ok(x)
  {
    assert Log(fuel, x) == Ok(Apply("log", [x]));
  }

  /** log(x^k) = k log x for an atom other than e and an exponent other
      than 0 and 1. */
  lemma LogOfPow(fuel: nat, k: int, x: Expr)
    requires fuel > 1 && k != 0 && k != 1 && IsAtom(x) && x != E
    ensures Log(fuel, Pow(k, x)) == Ok(Scale(k, Apply("log", [x])))
  {
    var l := Apply("log", [x]);
    assert Log(fuel, x) == Ok(l);
    assert Run(fuel - 1, l) == Ok(l);
    ScaleOf(fuel, k, l);
  }

  /** log(a b) = log a + log b for atoms a before b, neither of them e. */
  lemma LogOfProduct(fuel: nat, a: Expr, b: Expr)
    requires fuel > 1 && IsAtom(a) && IsAtom(b) && a != E && b != E && Compare(a, b) < 0
    ensures Log(fuel, Apply("multiply", [a, b])) ==
      Ok(Apply("add", [Apply("log", [a]), Apply("log", [b])]))
  {
    var x := Apply("multiply", [a, b]);
    var la, lb := Apply("log", [a]), Apply("log", [b]);
    assert Log(fuel, x.args[0]) == Ok(la) && Log(fuel, x.args[1]) == Ok(lb);
    assert LogArgs(fuel, x, 2) == Ok([]);
    assert [lb] + [] == [lb] && [la] + [lb] == [la, lb];
    assert LogArgs(fuel, x, 1) == Ok([lb]);
    assert LogArgs(fuel, x, 0) == Ok([la, lb]);
    assert Run(fuel - 1, la) == Ok(la) && Run(fuel - 1, lb) == Ok(lb);
    StrCmpZero("log", "log");
    CompareRefl(a);
    assert Compare(la, lb) == CompareArgs(la, lb, 0) == -1;
    AddKept(fuel - 1, la, lb, la, lb);
    CanonicalTwo(fuel, Sum, la, lb, la, lb, Kept);
    CollapseKept(Sum, la, lb);
  }

  lemma CompareIPi()
    ensures Compare(I, PI) < 0
  {
    assert StrCmp("i", "pi") == -1;
  }

  /** i * pi in canonical form, from either order of the factors. */
  lemma ProductIPi(fuel: nat)
    requires fuel > 1
    ensures Multiply(fuel, [PI, I]) == Ok(Apply("multiply", [I, PI]))
    ensures Multiply(fuel, [I, PI]) == Ok(Apply("multiply", [I, PI]))
  {
    CompareIPi();
    MultiplyKept(fuel - 1, I, PI, I, PI);
    CanonicalTwo(fuel, Product, PI, I, I, PI, Kept);
    CanonicalTwo(fuel, Product, I, PI, I, PI, Kept);
    CollapseKept(Product, I, PI);
  }

  /** i * pi + 0 = i * pi. */
  lemma AddZeroIPi(fuel: nat)
    requires fuel > 3
    ensures Add(fuel, [Apply("multiply", [I, PI]), ZERO]) == Ok(Apply("multiply", [I, PI]))
  {
    var m := Apply("multiply", [I, PI]);
    ProductIPi(fuel - 2);
    assert Run(fuel - 1, m) == Ok(m);
    AddKept(fuel - 1, ZERO, m, ZERO, m);
    CanonicalTwo(fuel, Sum, m, ZERO, ZERO, m, Kept);
    CollapseKept(Sum, ZERO, m);
  }

  /** log(-1) = i pi. */
  lemma LogMinusOne(fuel: nat)
    requires fuel > 3
    ensures Log(fuel, NEGONE) == Ok(Apply("multiply", [I, PI]))
  {
    ProductIPi(fuel);
    NegateNum(fuel, -1);
    assert Log(fuel - 1, ONE) == Ok(ZERO);
    AddZeroIPi(fuel);
  }

  /** The logarithm of a number is an expression only for 1 and -1; for
      every other number the source produces a float. */
  lemma LogOfNumber(fuel: nat, n: int)
    requires fuel > 3
    ensures n == 1 ==> Log(fuel, Num(n)) == Ok(ZERO)
    ensures n == -1 ==> Log(fuel, Num(n)) == Ok(Apply("multiply", [I, PI]))
    ensures n != 1 && n != -1 ==> Log(fuel, Num(n)) == Err(NonInteger)
  {
    if n == -1 {
      LogMinusOne(fuel);
    } else if n < -1 {
      ProductIPi(fuel);
      NegateNum(fuel, n);
      assert Log(fuel - 1, Num(-n)) == Err(NonInteger);
    }
  }

  // ----------------------------------------------- numerator, denominator

  /** 1 / x^k = x^-k for a leaf x other than one. */
  lemma InvertPow(fuel: nat, k: int, x: Expr)
    requires fuel > 1 && k != 0 && IsLeaf(x) && x != ONE
    ensures Invert(fuel, Pow(k, x)) == Ok(Pow(-k, x))
  {
    if k == 1 {
      BaseDegreeSplit(fuel, -1, x);
    } else {
      InvertPowerNode(fuel, k, x);
      BaseDegreeSplit(fuel - 1, -k, x);
    }
  }

  /** Inverting x ^ k multiplies the exponent by -1 and re-raises x. */
  lemma InvertPowerNode(fuel: nat, k: int, x: Expr)
    requires fuel > 1 && k != 0 && k != 1 && IsLeaf(x) && x != ONE
    ensures Invert(fuel, Pow(k, x)) == Power(fuel - 1, x, Num(-k))
  {
    var p := Apply("power", [x, Num(k)]);
    assert Pow(k, x) == p && p.args[0] == x && p.args[1] == Num(k);
    MultiplyTwoNums(fuel - 1, k, -1);
  }

  /** 1 * x^k = x^k * 1 = x^k for an atom x. */
  lemma MultiplyOnePow(fuel: nat, k: int, x: Expr)
    requires fuel > 3 && k != 0 && IsAtom(x)
    ensures Multiply(fuel, [ONE, Pow(k, x)]) == Ok(Pow(k, x))
    ensures Multiply(fuel, [Pow(k, x), ONE]) == Ok(Pow(k, x))
  {
    var p := Pow(k, x);
    RunPow(fuel - 1, k, x);
    BaseDegreeSplit(fuel - 2, k, x);
    MultiplyKept(fuel - 1, ONE, p, ONE, x);
    CanonicalTwo(fuel, Product, ONE, p, ONE, p, Kept);
    CanonicalTwo(fuel, Product, p, ONE, ONE, p, Kept);
    CollapseKept(Product, ONE, p);
  }

  /** A power of an atom splits into numerator and denominator by the sign
      of its exponent, and dividing the one by the other gives it back. */
  lemma FractionOfPow(fuel: nat, k: int, x: Expr)
    requires fuel > 3 && k != 0 && IsAtom(x)
    ensures k < 0 ==> Numerator(fuel, Pow(k, x)) == Ok(ONE) &&
                      Denominator(fuel, Pow(k, x)) == Ok(Pow(-k, x))
    ensures k > 0 ==> Numerator(fuel, Pow(k, x)) == Ok(Pow(k, x)) &&
                      Denominator(fuel, Pow(k, x)) == Ok(ONE)
    ensures Divide(fuel, Numerator(fuel, Pow(k, x)).value, Denominator(fuel, Pow(k, x)).value)
            == Ok(Pow(k, x))
  {
    MultiplyOnePow(fuel, k, x);
    if k < 0 {
      InvertPow(fuel, k, x);
      InvertPow(fuel, -k, x);
    } else {
      assert !IsReciprocal(Pow(k, x));
    }
  }

  /** a / b for different atoms is a * b^-1, and the numerator and
      denominator split it back into a and b, each through the product
      case. */
  lemma FractionOfQuotient(fuel: nat, a: Expr, b: Expr)
    requires fuel > 4 && IsAtom(a) && IsAtom(b) && a != b
    ensures Divide(fuel, a, b) == Ok(Apply("multiply", [a, Pow(-1, b)]))
    ensures Numerator(fuel, Apply("multiply", [a, Pow(-1, b)])) == Ok(a)
    ensures Denominator(fuel, Apply("multiply", [a, Pow(-1, b)])) == Ok(b)
  {
    QuotientOfAtoms(fuel, a, b);
    NumeratorOfQuotient(fuel, a, b);
    DenominatorOfQuotient(fuel, a, b);
  }

  lemma QuotientOfAtoms(fuel: nat, a: Expr, b: Expr)
    requires fuel > 4 && IsAtom(a) && IsAtom(b) && a != b
    ensures Divide(fuel, a, b) == Ok(Apply("multiply", [a, Pow(-1, b)]))
  {
    var p := Pow(-1, b);
    InvertTwice(fuel, b, b);
    RunPow(fuel - 1, -1, b);
    BaseDegreeSplit(fuel - 2, -1, b);
    MultiplyKept(fuel - 1, a, p, a, b);
    CanonicalTwo(fuel, Product, a, p, a, p, Kept);
    CollapseKept(Product, a, p);
  }

  lemma NumeratorOfQuotient(fuel: nat, a: Expr, b: Expr)
    requires fuel > 4 && IsAtom(a) && IsAtom(b)
    ensures Numerator(fuel, Apply("multiply", [a, Pow(-1, b)])) == Ok(a)
  {
    var x := Apply("multiply", [a, Pow(-1, b)]);
    assert Numerator(fuel, x.args[0]) == Ok(a);
    assert IsReciprocal(x.args[1]) && Numerator(fuel, x.args[1]) == Ok(ONE);
    assert NumeratorArgs(fuel, x, 2) == Ok([]);
    assert [ONE] + [] == [ONE] && [a] + [ONE] == [a, ONE];
    assert NumeratorArgs(fuel, x, 1) == Ok([ONE]);
    assert NumeratorArgs(fuel, x, 0) == Ok([a, ONE]);
    MultiplyOne(fuel, a, a);
  }

  lemma DenominatorOfQuotient(fuel: nat, a: Expr, b: Expr)
    requires fuel > 4 && IsAtom(a) && IsAtom(b)
    ensures Denominator(fuel, Apply("multiply", [a, Pow(-1, b)])) == Ok(b)
  {
    var x := Apply("multiply", [a, Pow(-1, b)]);
    assert Denominator(fuel, x.args[0]) == Ok(ONE);
    InvertPow(fuel, -1, b);
    assert IsReciprocal(x.args[1]) && Denominator(fuel, x.args[1]) == Ok(b);
    assert DenominatorArgs(fuel, x, 2) == Ok([]);
    assert [b] + [] == [b] && [ONE] + [b] == [ONE, b];
    assert DenominatorArgs(fuel, x, 1) == Ok([b]);
    assert DenominatorArgs(fuel, x, 0) == Ok([ONE, b]);
    MultiplyOne(fuel, b, b);
    CanonicalSwap(fuel, Product, b, ONE);
  }

  // ------------------------------------------------------------- expansion

  /** The expansion of a product with no sum factor is the product itself. */
  lemma ExpandScale(fuel: nat, k: int, x: Expr)
    requires k != 0 && k != 1 && IsAtom(x)
    ensures Expand(fuel, Scale(k, x)) == Ok(Scale(k, x))
  {
    assert FirstSum(Scale(k, x).args) == 2;
  }

  lemma ExpandEachPair(fuel: nat, a: Expr, b: Expr, others: seq<Expr>, ma: Expr, mb: Expr)
    requires Multiply(fuel, [a] + others) == Ok(ma) && Expand(fuel, ma) == Ok(ma)
    requires Multiply(fuel, [b] + others) == Ok(mb) && Expand(fuel, mb) == Ok(mb)
    ensures ExpandEach(fuel, [a, b], others) == Ok([ma, mb])
  {
    assert [a, b][1..] == [b] && [b][1..] == [];
    assert [a, b][0] == a && [b][0] == b;
    assert [ma] + [mb] == [ma, mb] && [mb] + [] == [mb];
    assert ExpandEach(fuel, [], others) == Ok([]);
    assert ExpandEach(fuel, [b], others) == Ok([mb]);
  }

  /** x * k = k * x for an atom x and a number k. */
  lemma ScaleIsProductSwapped(fuel: nat, k: int, x: Expr)
    requires fuel > 1 && IsAtom(x)
    ensures Multiply(fuel, [x, Num(k)]) == Ok(Scale(k, x))
  {
    if k == 0 {
      CanonicalTwo(fuel, Product, x, Num(k), Num(k), x, Into(ZERO));
      CollapseInto(Product, Num(k), x, ZERO);
    } else {
      MultiplyKept(fuel - 1, Num(k), x, Num(k), x);
      CanonicalTwo(fuel, Product, x, Num(k), Num(k), x, Kept);
      CollapseKept(Product, Num(k), x);
    }
  }

  lemma CompareScale(k: int, a: Expr, b: Expr)
    requires k != 0 && k != 1 && Compare(a, b) < 0
    ensures Compare(Scale(k, a), Scale(k, b)) < 0
  {
    StrCmpZero("multiply", "multiply");
    var sa, sb := Scale(k, a), Scale(k, b);
    assert CompareArgs(sa, sb, 1) < 0;
    assert Compare(sa.args[0], sb.args[0]) == 0;
  }

  /** k a + k b with a before b, for atoms a and b and k neither 0 nor 1. */
  lemma AddScaled(fuel: nat, k: int, a: Expr, b: Expr)
    requires fuel > 4 && k != 0 && k != 1 && IsAtom(a) && IsAtom(b) && Compare(a, b) < 0
    ensures Add(fuel, [Scale(k, a), Scale(k, b)]) == Ok(Apply("add", [Scale(k, a), Scale(k, b)]))
  {
    var ka, kb := Scale(k, a), Scale(k, b);
    RunScale(fuel - 1, k, a);
    RunScale(fuel - 1, k, b);
    CompareScale(k, a, b);
    TermCoeffSplit(fuel - 2, k, a);
    TermCoeffSplit(fuel - 2, k, b);
    CompareRefl(a);
    AddKept(fuel - 1, ka, kb, a, b);
    CanonicalTwo(fuel, Sum, ka, kb, ka, kb, Kept);
    CollapseKept(Sum, ka, kb);
  }

  /** Distribution: expand(k (a + b)) = k a + k b. */
  lemma ExpandDistributes(fuel: nat, k: int, a: Expr, b: Expr)
    requires fuel > 5 && k != 0 && k != 1 && IsAtom(a) && IsAtom(b) && Compare(a, b) < 0
    ensures Expand(fuel, Apply("multiply", [Num(k), Apply("add", [a, b])])) ==
            Ok(Apply("add", [Scale(k, a), Scale(k, b)]))
  {
    var x := Apply("multiply", [Num(k), Apply("add", [a, b])]);
    assert FirstSum(x.args) == 1;
    assert Without(x.args, 1) == [Num(k)];
    ExpandEachScaled(fuel - 1, k, a, b);
    AddScaled(fuel - 1, k, a, b);
  }

  /** Each term of a + b times k, expanded: k a and k b. */
  lemma ExpandEachScaled(fuel: nat, k: int, a: Expr, b: Expr)
    requires fuel > 1 && k != 0 && k != 1 && IsAtom(a) && IsAtom(b)
    ensures ExpandEach(fuel, [a, b], [Num(k)]) == Ok([Scale(k, a), Scale(k, b)])
  {
    ScaleIsProductSwapped(fuel, k, a);
    ScaleIsProductSwapped(fuel, k, b);
    assert [a] + [Num(k)] == [a, Num(k)] && [b] + [Num(k)] == [b, Num(k)];
    ExpandScale(fuel, k, a);
    ExpandScale(fuel, k, b);
    ExpandEachPair(fuel, a, b, [Num(k)], Scale(k, a), Scale(k, b));
  }
}
