/** The operators built on top of the canonicaliser: roots and squares, the
    exponential and circular identities, the logarithm laws, the split of a
    product into numerator and denominator, and distribution of a product
    over its first sum factor. */
module Rewrite {
  import opened Expressions
  import opened Ordering
  import opened Canon

  function Sqrt(fuel: nat, x: Expr): Result<Expr> {
    Power(fuel, x, HALF)
  }

  function Square(fuel: nat, x: Expr): Result<Expr> {
    Power(fuel, x, TWO)
  }

  /** e ^ x. */
  function Exp(fuel: nat, x: Expr): (r: Result<Expr>)
    ensures IsApply(x, "log") && |x.args| > 0 ==> r == Ok(x.args[0])
  {
    Power(fuel, E, x)
  }

  /** cos x = 1/2 e^(-i x) + 1/2 e^(i x). */
  function ExpCos(fuel: nat, x: Expr): Result<Expr> {
    var ix :- Multiply(fuel, [I, x]);
    var nix :- Negate(fuel, ix);
    var en :- Exp(fuel, nix);
    var a :- Multiply(fuel, [HALF, en]);
    var ep :- Exp(fuel, ix);
    var b :- Multiply(fuel, [HALF, ep]);
    Add(fuel, [a, b])
  }

  /** sin x = 1/2 i e^(-i x) - 1/2 i e^(i x). */
  function ExpSin(fuel: nat, x: Expr): Result<Expr> {
    var ix :- Multiply(fuel, [I, x]);
    var nix :- Negate(fuel, ix);
    var en :- Exp(fuel, nix);
    var a :- Multiply(fuel, [HALF, I, en]);
    var ep :- Exp(fuel, ix);
    var b :- Multiply(fuel, [HALF, I, ep]);
    Subtract(fuel, a, b)
  }

  /** Rewrite a cosine or a sine of its first argument into exponential
      form; any other expression is wrapped, unevaluated, in `circexp`. */
  function Circexp(fuel: nat, n: Expr): (r: Result<Expr>)
    ensures !IsApply(n, "cos") && !IsApply(n, "sin") ==> r == Ok(Apply("circexp", [n]))
    ensures (IsApply(n, "cos") || IsApply(n, "sin")) && |n.args| == 0 ==> r == Err(Undefined)
  {
    if IsApply(n, "cos") || IsApply(n, "sin") then
      if |n.args| == 0 then Err(Undefined)
      else if n.head == "cos" then ExpCos(fuel, n.args[0])
      else ExpSin(fuel, n.args[0])
    else Ok(Apply("circexp", [n]))
  }

  /** The number of arguments of an application plus one; zero for a leaf.
      It ranks `Log` above the walk over its own arguments. */
  function Width(x: Expr): nat {
    if x.Apply? then |x.args| + 1 else 0
  }

  /** The logarithm laws, tried in this order: log e = 1, log 1 = 0,
      log(-x) = i pi + log x, a number has a real (non-integer) logarithm,
      log(a^b) = b log a, log(a b ...) = log a + log b + ...; anything else
      stays an opaque, unevaluated `log` application. */
  function Log(fuel: nat, x: Expr): (r: Result<Expr>)
    decreases fuel, x, Width(x)
    ensures x == E ==> r == Ok(ONE)
    ensures x == ONE ==> r == Ok(ZERO)
    ensures x.Num? && x.n >= 0 && x != ONE ==> r == Err(NonInteger)
    ensures IsLeaf(x) && !x.Num? && x != E ==> r == Ok(Apply("log", [x]))
    ensures x.Apply? && x.head != "power" && x.head != "multiply" ==> r == Ok(Apply("log", [x]))
    ensures IsApply(x, "power") && |x.args| >= 2 ==>
      r == (var l :- Log(fuel, x.args[0]); Multiply(fuel, [x.args[1], l]))
    ensures IsApply(x, "power") && |x.args| < 2 ==> r.Err?
    ensures IsApply(x, "multiply") ==> r == (var ls :- LogArgs(fuel, x, 0); Add(fuel, ls))
  {
    if IsEqual(x, E) then Ok(ONE)
    else if IsEqual(x, ONE) then Ok(ZERO)
    else if IsNegativeNumber(x) then
      if fuel == 0 then Err(OutOfFuel)
      else
        var ipi :- Multiply(fuel, [PI, I]);
        var nx :- Negate(fuel, x);
        var l :- Log(fuel - 1, nx);
        Add(fuel, [ipi, l])
    else if x.Num? then Err(NonInteger)
    else if IsApply(x, "power") then
      var l :- (if |x.args| == 0 then Err(Undefined) else Log(fuel, x.args[0]));
      if |x.args| < 2 then Err(Undefined) else Multiply(fuel, [x.args[1], l])
    else if IsApply(x, "multiply") then
      var ls :- LogArgs(fuel, x, 0);
      Add(fuel, ls)
    else Ok(Apply("log", [x]))
  }

  /** The logarithms of the arguments of `x` from index `i` on. */
  function LogArgs(fuel: nat, x: Expr, i: nat): (r: Result<seq<Expr>>)
    requires x.Apply? && i <= |x.args|
    decreases fuel, x, |x.args| - i
    ensures r.Ok? ==> |r.value| == |x.args| - i
    ensures r.Ok? ==> forall j :: 0 <= j < |r.value| ==> Log(fuel, x.args[i + j]) == Ok(r.value[j])
    ensures r.Err? ==> exists j :: i <= j < |x.args| && Log(fuel, x.args[j]).Err?
  {
    if i == |x.args| then Ok([])
    else
      var l :- Log(fuel, x.args[i]);
      var ls :- LogArgs(fuel, x, i + 1);
      Ok([l] + ls)
  }

  /** A power whose exponent is syntactically negative: a negative number,
      or a product led by a negative number. */
  predicate IsReciprocal(x: Expr) {
    IsApply(x, "power") && |x.args| >= 2 && IsNegativeTerm(x.args[1])
  }

  /** The denominator: the product of the factors' denominators, the
      inverse of a power with a negative exponent, one otherwise (sums are
      not brought to a common denominator). */
  function Denominator(fuel: nat, x: Expr): (r: Result<Expr>)
    decreases x, Width(x)
    ensures !IsApply(x, "multiply") && !IsReciprocal(x) ==> r == Ok(ONE)
    ensures IsReciprocal(x) ==> r == Invert(fuel, x)
    ensures IsApply(x, "multiply") && DenominatorArgs(fuel, x, 0).Ok? ==>
      r == Multiply(fuel, DenominatorArgs(fuel, x, 0).value)
    ensures IsApply(x, "multiply") && DenominatorArgs(fuel, x, 0).Err? ==> r.Err?
  {
    if IsApply(x, "multiply") then
      var ds :- DenominatorArgs(fuel, x, 0);
      Multiply(fuel, ds)
    else if IsReciprocal(x) then Invert(fuel, x)
    else Ok(ONE)
  }

  /** The denominators of the arguments of `x` from index `i` on. */
  function DenominatorArgs(fuel: nat, x: Expr, i: nat): (r: Result<seq<Expr>>)
    requires x.Apply? && i <= |x.args|
    decreases x, |x.args| - i
    ensures r.Ok? ==> |r.value| == |x.args| - i
    ensures r.Ok? ==> forall j :: 0 <= j < |r.value| ==> Denominator(fuel, x.args[i + j]) == Ok(r.value[j])
    ensures r.Err? ==> exists j :: i <= j < |x.args| && Denominator(fuel, x.args[j]).Err?
  {
    if i == |x.args| then Ok([])
    else
      var d :- Denominator(fuel, x.args[i]);
      var ds :- DenominatorArgs(fuel, x, i + 1);
      Ok([d] + ds)
  }

  /** The numerator: the product of the factors' numerators, one for a
      power with a negative exponent, the expression itself otherwise. */
  function Numerator(fuel: nat, x: Expr): (r: Result<Expr>)
    decreases x, Width(x)
    ensures !IsApply(x, "multiply") && !IsReciprocal(x) ==> r == Ok(x)
    ensures IsReciprocal(x) ==> r == Ok(ONE)
    ensures IsApply(x, "multiply") && NumeratorArgs(fuel, x, 0).Ok? ==>
      r == Multiply(fuel, NumeratorArgs(fuel, x, 0).value)
    ensures IsApply(x, "multiply") && NumeratorArgs(fuel, x, 0).Err? ==> r.Err?
  {
    if IsApply(x, "multiply") then
      var ns :- NumeratorArgs(fuel, x, 0);
      Multiply(fuel, ns)
    else if IsReciprocal(x) then Ok(ONE)
    else Ok(x)
  }

  /** The numerators of the arguments of `x` from index `i` on. */
  function NumeratorArgs(fuel: nat, x: Expr, i: nat): (r: Result<seq<Expr>>)
    requires x.Apply? && i <= |x.args|
    decreases x, |x.args| - i
    ensures r.Ok? ==> |r.value| == |x.args| - i
    ensures r.Ok? ==> forall j :: 0 <= j < |r.value| ==> Numerator(fuel, x.args[i + j]) == Ok(r.value[j])
    ensures r.Err? ==> exists j :: i <= j < |x.args| && Numerator(fuel, x.args[j]).Err?
  {
    if i == |x.args| then Ok([])
    else
      var n :- Numerator(fuel, x.args[i]);
      var ns :- NumeratorArgs(fuel, x, i + 1);
      Ok([n] + ns)
  }

  /** The position of the first sum among the factors, or their number
      when there is none. */
  function FirstSum(args: seq<Expr>): (i: nat)
    ensures i <= |args|
    ensures i < |args| ==> IsApply(args[i], "add")
    ensures forall j :: 0 <= j < i ==> !IsApply(args[j], "add")
  {
    if args == [] then 0
    else if IsApply(args[0], "add") then 0
    else 1 + FirstSum(args[1..])
  }

  /** The factors other than the one at position i. */
  function Without(args: seq<Expr>, i: nat): (r: seq<Expr>)
    requires i < |args|
    ensures |r| == |args| - 1
    ensures forall j :: 0 <= j < i ==> r[j] == args[j]
    ensures forall j :: i <= j < |r| ==> r[j] == args[j + 1]
  {
    args[..i] + args[i + 1..]
  }

  /** Distribute a product over its first sum factor: each term of the sum
      times the other factors, each such product expanded again, and the
      results added. Anything else is returned unchanged. */
  function Expand(fuel: nat, x: Expr): (r: Result<Expr>)
    decreases fuel, 0, 0
    ensures !IsApply(x, "multiply") || FirstSum(x.args) == |x.args| ==> r == Ok(x)
    ensures IsApply(x, "multiply") && FirstSum(x.args) < |x.args| && fuel > 0 ==>
      var i := FirstSum(x.args);
      r == (var es :- ExpandEach(fuel - 1, x.args[i].args, Without(x.args, i)); Add(fuel - 1, es))
  {
    if IsApply(x, "multiply") && FirstSum(x.args) < |x.args| then
      if fuel == 0 then Err(OutOfFuel)
      else
        var i := FirstSum(x.args);
        var es :- ExpandEach(fuel - 1, x.args[i].args, Without(x.args, i));
        Add(fuel - 1, es)
    else Ok(x)
  }

  /** For each term k: expand(multiply(k, ...others)). */
  function ExpandEach(fuel: nat, terms: seq<Expr>, others: seq<Expr>): (r: Result<seq<Expr>>)
    decreases fuel, 1, |terms|
    ensures r.Ok? ==> |r.value| == |terms|
    ensures r.Ok? ==> forall j :: 0 <= j < |terms| ==>
      Multiply(fuel, [terms[j]] + others).Ok? &&
      Expand(fuel, Multiply(fuel, [terms[j]] + others).value) == Ok(r.value[j])
    ensures r.Err? ==>
      exists j :: 0 <= j < |terms| && (Multiply(fuel, [terms[j]] + others).Err? ||
                                       Expand(fuel, Multiply(fuel, [terms[j]] + others).value).Err?)
  {
    if terms == [] then Ok([])
    else
      var m :- Multiply(fuel, [terms[0]] + others);
      var e :- Expand(fuel, m);
      var es :- ExpandEach(fuel, terms[1..], others);
      Ok([e] + es)
  }

  /** The search loop of `expand`, proved to compute `Expand`. */
  method ExpandProduct(fuel: nat, x: Expr) returns (r: Result<Expr>)
    ensures r == Expand(fuel, x)
  {
    if IsApply(x, "multiply") {
      var args := x.args;
      for i := 0 to |args|
        invariant forall j :: 0 <= j < i ==> !IsApply(args[j], "add")
      {
        if IsApply(args[i], "add") {
          if fuel == 0 {
            return Err(OutOfFuel);
          }
          var es := ExpandEach(fuel - 1, args[i].args, args[..i] + args[i + 1..]);
          if es.Err? {
            return Err(es.fault);
          }
          return Add(fuel - 1, es.value);
        }
      }
    }
    return Ok(x);
  }
}
