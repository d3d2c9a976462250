/** The partial polynomial gcd: equal inputs, two sums of the same length
    sharing one quotient, and the "no common factor" fallback. The numeric,
    general-expression and product cases are stubs that fail with
    `Unimplemented`, as they do in the source. */
module PolyGcd {
  import opened Expressions
  import opened Ordering
  import opened Canon

  /** gcd(a, b), tried in this order: equal inputs give b; two numbers, a sum
      against a non-sum, and two products are unimplemented; two sums go to
      `GcdAddAdd`; anything else has no detected common factor (one). */
  function Gcd(fuel: nat, a: Expr, b: Expr): (r: Result<Expr>)
    decreases fuel, 1
    ensures a == b ==> r == Ok(b)
    ensures a != b && a.Num? && b.Num? ==> r == Err(Unimplemented)
    ensures a != b && IsApply(a, "add") != IsApply(b, "add") ==> r == Err(Unimplemented)
    ensures a != b && IsApply(a, "multiply") && IsApply(b, "multiply") ==> r == Err(Unimplemented)
    ensures (a != b && !(a.Num? && b.Num?) && !IsApply(a, "add") && !IsApply(b, "add") &&
             !(IsApply(a, "multiply") && IsApply(b, "multiply"))) ==> r == Ok(ONE)
  {
    if IsEqual(a, b) then Ok(b)
    else if a.Num? && b.Num? then Err(Unimplemented)
    else if IsApply(a, "add") && IsApply(b, "add") then GcdAddAdd(fuel, a, b)
    else if IsApply(a, "add") || IsApply(b, "add") then Err(Unimplemented)
    else if IsApply(a, "multiply") && IsApply(b, "multiply") then Err(Unimplemented)
    else Ok(ONE)
  }

  /** The running gcd of `acc` and each of `xs` in turn. */
  function GcdFold(fuel: nat, acc: Expr, xs: seq<Expr>): (r: Result<Expr>)
    decreases fuel, 2, |xs|
    ensures xs == [] ==> r == Ok(acc)
  {
    if xs == [] then Ok(acc)
    else
      var g :- Gcd(fuel, acc, xs[0]);
      GcdFold(fuel, g, xs[1..])
  }

  /** Two sums: fold gcd over each one's terms, divide each sum by its own
      gcd, and when the two quotients agree answer quotient * gcd of the
      two gcds; otherwise, or when the sums differ in length, one. */
  function GcdAddAdd(fuel: nat, a: Expr, b: Expr): (r: Result<Expr>)
    requires a.Apply? && b.Apply?
    decreases fuel, 0
    ensures |a.args| != |b.args| ==> r == Ok(ONE)
    ensures |a.args| == |b.args| == 0 ==> r == Err(Undefined)
  {
    if |a.args| != |b.args| then Ok(ONE)
    else if |a.args| == 0 then Err(Undefined)
    else if fuel == 0 then Err(OutOfFuel)
    else
      var ga :- GcdFold(fuel - 1, a.args[0], a.args[1..]);
      var gb :- GcdFold(fuel - 1, b.args[0], b.args[1..]);
      var m :- Divide(fuel - 1, a, ga);
      var n :- Divide(fuel - 1, b, gb);
      if IsEqual(m, n) then
        var g :- Gcd(fuel - 1, ga, gb);
        Multiply(fuel - 1, [m, g])
      else Ok(ONE)
  }

  /** lcm(a, b) = 1 / ((gcd(a, b) / a) / b). */
  function Lcm(fuel: nat, a: Expr, b: Expr): Result<Expr> {
    var g :- Gcd(fuel, a, b);
    var q :- Divide(fuel, g, a);
    var d :- Divide(fuel, q, b);
    Invert(fuel, d)
  }

  /** The gcd loop over one sum's terms. */
  method GcdOfTerms(fuel: nat, terms: seq<Expr>) returns (r: Result<Expr>)
    requires |terms| > 0
    ensures r == GcdFold(fuel, terms[0], terms[1..])
  {
    var g := terms[0];
    for i := 1 to |terms|
      invariant GcdFold(fuel, g, terms[i..]) == GcdFold(fuel, terms[0], terms[1..])
    {
      assert terms[i..][0] == terms[i] && terms[i..][1..] == terms[i + 1..];
      var next := Gcd(fuel, g, terms[i]);
      if next.Err? {
        return Err(next.fault);
      }
      g := next.value;
    }
    return Ok(g);
  }

  /** `gcd_add_add` as the source runs it: two loops, two divisions, one
      comparison. */
  method GcdOfSums(fuel: nat, a: Expr, b: Expr) returns (r: Result<Expr>)
    requires a.Apply? && b.Apply?
    ensures r == GcdAddAdd(fuel, a, b)
  {
    if |a.args| != |b.args| {
      return Ok(ONE);
    }
    if |a.args| == 0 {
      return Err(Undefined);
    }
    if fuel == 0 {
      return Err(OutOfFuel);
    }
    var ga := GcdOfTerms(fuel - 1, a.args);
    if ga.Err? {
      return Err(ga.fault);
    }
    var gb := GcdOfTerms(fuel - 1, b.args);
    if gb.Err? {
      return Err(gb.fault);
    }
    var m := Divide(fuel - 1, a, ga.value);
    if m.Err? {
      return Err(m.fault);
    }
    var n := Divide(fuel - 1, b, gb.value);
    if n.Err? {
      return Err(n.fault);
    }
    if IsEqual(m.value, n.value) {
      var g := Gcd(fuel - 1, ga.value, gb.value);
      if g.Err? {
        return Err(g.fault);
      }
      return Multiply(fuel - 1, [m.value, g.value]);
    }
    return Ok(ONE);
  }
}
