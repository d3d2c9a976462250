/** The canonicaliser: `run` and the operators it dispatches to, the
    flatten-sort-merge-strip-collapse pipeline shared by sums and products,
    the term algebra views and the power rules.

    These functions call each other without a structural bound (a merge of
    two terms builds a new sum and a new product, a power re-enters with a
    product exponent, factorial recurses on `n - 1`), so each takes a `fuel`
    bound. Fuel is spent where the recursion re-enters: `Run` on an
    application, `Canonical`, the two adjacent combiners on their
    non-numeric path, `Power` once its early rules are passed, and each
    level of `Factorial`. The thin wrappers (`Add`, `Negate`, ...) pass the
    same fuel on, ranked by the second component of their decreases clause.
    When fuel runs out the result is `Err(OutOfFuel)`. */
module Canon {
  import opened Expressions
  import opened Ordering
  import opened Sorting
  import opened Substitution

  /** The two associative operators that share the pipeline. */
  datatype Op = Sum | Product

  function OpHead(op: Op): string {
    if op == Sum then "add" else "multiply"
  }

  function Identity(op: Op): Expr {
    if op == Sum then ZERO else ONE
  }

  /** What a pairwise combiner says about two neighbours: keep both (the
      source's `null`), or replace them with one expression. */
  datatype Merged = Kept | Into(e: Expr)

  /** One operand's contribution to the flattened list: its own arguments
      when it has the operator's head, itself otherwise. */
  function Splice(op: Op, x: Expr): seq<Expr> {
    if IsApply(x, OpHead(op)) then x.args else [x]
  }

  /** The operands, each same-headed one replaced in place by its arguments. */
  function Flatten(op: Op, xs: seq<Expr>): seq<Expr> {
    if xs == [] then [] else Flatten(op, xs[..|xs| - 1]) + Splice(op, xs[|xs| - 1])
  }

  /** One step of the merge loop: append the next operand, or overwrite the
      last accumulated one with the combined value. */
  function MergeStep(acc: seq<Expr>, b: Expr, m: Merged): (r: seq<Expr>)
    requires |acc| > 0
    ensures |r| == |acc| + (if m.Kept? then 1 else 0)
    ensures r[..|acc| - 1] == acc[..|acc| - 1]
    ensures m.Kept? ==> r[|acc| - 1] == acc[|acc| - 1] && r[|acc|] == b
    ensures m.Into? ==> r[|acc| - 1] == m.e
  {
    if m.Kept? then acc + [b] else acc[..|acc| - 1] + [m.e]
  }

  /** Drop a leading identity, then return nothing (the identity), the one
      survivor, or an application of the operator to the survivors. */
  function Collapse(op: Op, ms: seq<Expr>): (r: Expr)
    requires |ms| > 0
    ensures r == Identity(op) || r in ms || (r.Apply? && r.head == OpHead(op) && |r.args| >= 2)
    ensures ms == [Identity(op)] ==> r == Identity(op)
    ensures |ms| == 1 && ms[0] != Identity(op) ==> r == ms[0]
    ensures |ms| == 2 && ms[0] == Identity(op) ==> r == ms[1]
    ensures |ms| >= 2 && (|ms| > 2 || ms[0] != Identity(op)) ==>
      r == Apply(OpHead(op), if ms[0] == Identity(op) then ms[1..] else ms)
  {
    var kept := if IsEqual(ms[0], Identity(op)) then ms[1..] else ms;
    if |kept| == 1 then kept[0]
    else if |kept| == 0 then Identity(op)
    else Apply(OpHead(op), kept)
  }

  /** Evaluate an expression: numbers, strings and symbols are self-quoting;
      applications are dispatched on their head. */
  function Run(fuel: nat, a: Expr): (r: Result<Expr>)
    decreases fuel, 0
    ensures IsLeaf(a) ==> r == Ok(a)
    ensures a.Apply? && fuel == 0 ==> r == Err(OutOfFuel)
    ensures a.Apply? && fuel > 0 ==> r == RunApply(fuel - 1, a)
  {
    if a.Apply? then
      if fuel == 0 then Err(OutOfFuel) else RunApply(fuel - 1, a)
    else Ok(a)
  }

  /** `Run` over an argument list, left to right; the first fault wins. */
  function RunAll(fuel: nat, xs: seq<Expr>): (r: Result<seq<Expr>>)
    decreases fuel, |xs| + 1
    ensures r.Ok? ==> |r.value| == |xs|
  {
    if xs == [] then Ok([])
    else
      var y :- Run(fuel, xs[0]);
      var ys :- RunAll(fuel, xs[1..]);
      Ok([y] + ys)
  }

  /** The head names `run` dispatches on. */
  const OperatorHeads: set<string> :=
    {"add", "multiply", "power", "abs", "conjugate", "factorial", "choose", "negate", "divide", "subtract"}

  /** How many arguments the operator of each head name reads: `add` and
      `multiply` take any number, the rest one or two. */
  function Arity(head: string): nat {
    if head == "add" || head == "multiply" then 0
    else if head == "power" || head == "choose" || head == "divide" || head == "subtract" then 2
    else 1
  }

  /** Dispatch on the head name; unknown heads are returned unchanged, with
      their arguments not evaluated. A missing argument is `Undefined`. */
  function RunApply(fuel: nat, a: Expr): (r: Result<Expr>)
    requires a.Apply?
    decreases fuel, 7
    ensures a.head !in OperatorHeads ==> r == Ok(a)
    ensures a.head in OperatorHeads && |a.args| < Arity(a.head) ==> r == Err(Undefined)
    ensures a.head == "add" ==> r == Add(fuel, a.args)
    ensures a.head == "multiply" ==> r == Multiply(fuel, a.args)
    ensures a.head == "power" && |a.args| >= 2 ==> r == Power(fuel, a.args[0], a.args[1])
    ensures a.head == "abs" && |a.args| >= 1 ==> r == Abs(fuel, a.args[0])
    ensures a.head == "conjugate" && |a.args| >= 1 ==> r == Conjugate(fuel, a.args[0])
    ensures a.head == "factorial" && |a.args| >= 1 ==> r == Factorial(fuel, a.args[0])
    ensures a.head == "choose" && |a.args| >= 2 ==> r == Choose(fuel, a.args[0], a.args[1])
    ensures a.head == "negate" && |a.args| >= 1 ==> r == Negate(fuel, a.args[0])
    ensures a.head == "divide" && |a.args| >= 2 ==> r == Divide(fuel, a.args[0], a.args[1])
    ensures a.head == "subtract" && |a.args| >= 2 ==> r == Subtract(fuel, a.args[0], a.args[1])
  {
    var args := a.args;
    if a.head == "add" then Add(fuel, args)
    else if a.head == "multiply" then Multiply(fuel, args)
    else if a.head == "power" then
      (if |args| < 2 then Err(Undefined) else Power(fuel, args[0], args[1]))
    else if a.head == "abs" then
      (if |args| < 1 then Err(Undefined) else Abs(fuel, args[0]))
    else if a.head == "conjugate" then
      (if |args| < 1 then Err(Undefined) else Conjugate(fuel, args[0]))
    else if a.head == "factorial" then
      (if |args| < 1 then Err(Undefined) else Factorial(fuel, args[0]))
    else if a.head == "choose" then
      (if |args| < 2 then Err(Undefined) else Choose(fuel, args[0], args[1]))
    else if a.head == "negate" then
      (if |args| < 1 then Err(Undefined) else Negate(fuel, args[0]))
    else if a.head == "divide" then
      (if |args| < 2 then Err(Undefined) else Divide(fuel, args[0], args[1]))
    else if a.head == "subtract" then
      (if |args| < 2 then Err(Undefined) else Subtract(fuel, args[0], args[1]))
    else Ok(a)
  }

  /** The shared pipeline of `add` and `multiply`: evaluate the operands,
      flatten, sort, merge neighbours, strip a leading identity, collapse. */
  function Canonical(fuel: nat, op: Op, terms: seq<Expr>): (r: Result<Expr>)
    decreases fuel, 1
    ensures fuel > 0 && terms == [] ==> r == Ok(Identity(op))
  {
    if fuel == 0 then Err(OutOfFuel)
    else
      var run :- RunAll(fuel - 1, terms);
      Pipeline(fuel, op, run)
  }

  /** What `add` and `multiply` do once their operands are evaluated. */
  function Pipeline(fuel: nat, op: Op, run: seq<Expr>): (r: Result<Expr>)
    requires fuel > 0
    decreases fuel, 0
    ensures run == [] ==> r == Ok(Identity(op))
  {
    var sorted := SortTerms(Flatten(op, run));
    if |sorted| == 0 then Ok(Identity(op))
    else
      var merged :- Merge(fuel - 1, op, [sorted[0]], sorted[1..]);
      Ok(Collapse(op, merged))
  }

  function Add(fuel: nat, terms: seq<Expr>): Result<Expr>
    decreases fuel, 2
  {
    Canonical(fuel, Sum, terms)
  }

  function Multiply(fuel: nat, terms: seq<Expr>): Result<Expr>
    decreases fuel, 2
  {
    Canonical(fuel, Product, terms)
  }

  /** The merge loop as a left fold over the remaining sorted operands. */
  function Merge(fuel: nat, op: Op, acc: seq<Expr>, rest: seq<Expr>): (r: Result<seq<Expr>>)
    requires |acc| > 0
    decreases fuel, |rest|
    ensures r.Ok? ==> 1 <= |r.value| <= |acc| + |rest|
  {
    if rest == [] then Ok(acc)
    else
      var m :- if op == Sum then AddAdjacent(fuel, acc[|acc| - 1], rest[0])
               else MultiplyAdjacent(fuel, acc[|acc| - 1], rest[0]);
      Merge(fuel, op, MergeStep(acc, rest[0], m), rest[1..])
  }

  /** Like terms: two numbers add up; otherwise two operands with the same
      `Term` merge into (coefficient sum) * term; anything else is kept. */
  function AddAdjacent(fuel: nat, a: Expr, b: Expr): (r: Result<Merged>)
    decreases fuel, 0
    ensures a.Num? && b.Num? ==> r == Ok(Into(Num(a.n + b.n)))
    ensures r.Ok? && !(a.Num? && b.Num?) ==>
      fuel > 0 && Term(fuel - 1, a).Ok? && Term(fuel - 1, b).Ok? &&
      (r.value.Into? <==> Term(fuel - 1, a) == Term(fuel - 1, b))
  {
    if a.Num? && b.Num? then Ok(Into(Num(a.n + b.n)))
    else if fuel == 0 then Err(OutOfFuel)
    else
      var ta :- Term(fuel - 1, a);
      var tb :- Term(fuel - 1, b);
      if IsEqual(ta, tb) then
        var c :- Add(fuel - 1, [Coeff(a), Coeff(b)]);
        var m :- Multiply(fuel - 1, [c, ta]);
        Ok(Into(m))
      else Ok(Kept)
  }

  /** Like factors: two numbers multiply; a zero on the left absorbs;
      otherwise two operands with the same `Base` merge into
      coeff * coeff * base^(degree + degree); anything else is kept. */
  function MultiplyAdjacent(fuel: nat, a: Expr, b: Expr): (r: Result<Merged>)
    decreases fuel, 0
    ensures a.Num? && b.Num? ==> r == Ok(Into(Num(a.n * b.n)))
    ensures IsZero(a) && !b.Num? ==> r == Ok(Into(ZERO))
    ensures r.Ok? && !(a.Num? && b.Num?) && !IsZero(a) ==>
      fuel > 0 && Base(fuel - 1, a).Ok? && Base(fuel - 1, b).Ok? &&
      (r.value.Into? <==> Base(fuel - 1, a) == Base(fuel - 1, b))
  {
    if a.Num? && b.Num? then Ok(Into(Num(a.n * b.n)))
    else if IsZero(a) then Ok(Into(ZERO))
    else if fuel == 0 then Err(OutOfFuel)
    else
      var ba :- Base(fuel - 1, a);
      var bb :- Base(fuel - 1, b);
      if IsEqual(ba, bb) then
        var da :- Degree(fuel - 1, a);
        var db :- Degree(fuel - 1, b);
        var d :- Add(fuel - 1, [da, db]);
        var p :- Power(fuel - 1, ba, d);
        var m :- Multiply(fuel - 1, [Coeff(a), Coeff(b), p]);
        Ok(Into(m))
      else Ok(Kept)
  }

  /** A product whose first factor is a number. */
  predicate HasCoefficient(a: Expr) {
    IsApply(a, "multiply") && |a.args| > 0 && a.args[0].Num?
  }

  /** The product without its leading numeric factor, or the operand itself. */
  function Term(fuel: nat, a: Expr): (r: Result<Expr>)
    decreases fuel, 3
    ensures !HasCoefficient(a) ==> r == Ok(a)
    ensures HasCoefficient(a) ==> r == Multiply(fuel, a.args[1..])
  {
    if HasCoefficient(a) then Multiply(fuel, a.args[1..]) else Ok(a)
  }

  /** The leading numeric factor of a product, or one. */
  function Coeff(a: Expr): (r: Expr)
    ensures r.Num?
    ensures HasCoefficient(a) ==> r == a.args[0]
    ensures !HasCoefficient(a) ==> r == ONE
  {
    if HasCoefficient(a) then a.args[0] else ONE
  }

  /** A power with a numeric exponent. */
  predicate IsNumericPower(t: Expr) {
    IsApply(t, "power") && |t.args| > 1 && t.args[1].Num?
  }

  /** The base of the term when the term is a numeric power, otherwise the
      operand itself (not its term). */
  function Base(fuel: nat, a: Expr): (r: Result<Expr>)
    decreases fuel, 4
    ensures IsLeaf(a) ==> r == Ok(a)
    ensures Term(fuel, a).Err? ==> r.Err?
    ensures Term(fuel, a).Ok? && IsNumericPower(Term(fuel, a).value) ==>
      r == Ok(Term(fuel, a).value.args[0])
    ensures Term(fuel, a).Ok? && !IsNumericPower(Term(fuel, a).value) ==> r == Ok(a)
  {
    var t :- Term(fuel, a);
    if IsNumericPower(t) then Ok(t.args[0]) else Ok(a)
  }

  /** The exponent of the term when the term is a numeric power, otherwise one. */
  function Degree(fuel: nat, a: Expr): (r: Result<Expr>)
    decreases fuel, 4
    ensures r.Ok? ==> r.value.Num?
    ensures IsLeaf(a) ==> r == Ok(ONE)
    ensures Term(fuel, a).Err? ==> r.Err?
    ensures Term(fuel, a).Ok? && IsNumericPower(Term(fuel, a).value) ==>
      r == Ok(Term(fuel, a).value.args[1])
    ensures Term(fuel, a).Ok? && !IsNumericPower(Term(fuel, a).value) ==> r == Ok(ONE)
  {
    var t :- Term(fuel, a);
    if IsNumericPower(t) then Ok(t.args[1]) else Ok(ONE)
  }

  /** The power rules, tried in this order: 1^p = 1, b^0 = 1, b^1 = b,
      e^log(x) = x, (b^c)^p = b^(c*p); otherwise the power of the evaluated
      base and exponent. The first three return their operand unevaluated. */
  function Power(fuel: nat, b: Expr, p: Expr): (r: Result<Expr>)
    decreases fuel, 1
    ensures b == ONE ==> r == Ok(ONE)
    ensures b != ONE && p == ZERO ==> r == Ok(ONE)
    ensures b != ONE && p == ONE ==> r == Ok(b)
    ensures b != ONE && b == E && IsApply(p, "log") && |p.args| > 0 && p != ZERO && p != ONE ==>
      r == Ok(p.args[0])
    ensures fuel > 0 && IsApply(b, "power") && |b.args| >= 2 && p != ZERO && p != ONE ==>
      r == (var m :- Multiply(fuel - 1, [b.args[1], p]); Power(fuel - 1, b.args[0], m))
    ensures (fuel > 0 && b != ONE && p != ZERO && p != ONE && !(b == E && IsApply(p, "log")) &&
             !IsApply(b, "power") && r.Ok?) ==>
      Run(fuel - 1, b).Ok? && Run(fuel - 1, p).Ok? &&
      r.value == Apply("power", [Run(fuel - 1, b).value, Run(fuel - 1, p).value])
  {
    if IsEqual(b, ONE) then Ok(ONE)
    else if IsEqual(p, ZERO) then Ok(ONE)
    else if IsEqual(p, ONE) then Ok(b)
    else if IsEqual(b, E) && IsApply(p, "log") then
      (if |p.args| == 0 then Err(Undefined) else Ok(p.args[0]))
    else if fuel == 0 then Err(OutOfFuel)
    else if IsApply(b, "power") then
      if |b.args| < 2 then Err(Undefined)
      else
        var m :- Multiply(fuel - 1, [b.args[1], p]);
        Power(fuel - 1, b.args[0], m)
    else
      var rb :- Run(fuel - 1, b);
      var rp :- Run(fuel - 1, p);
      Ok(Apply("power", [rb, rp]))
  }

  function Negate(fuel: nat, x: Expr): Result<Expr>
    decreases fuel, 3
  {
    Multiply(fuel, [NEGONE, x])
  }

  function Subtract(fuel: nat, a: Expr, b: Expr): Result<Expr>
    decreases fuel, 4
  {
    var nb :- Negate(fuel, b);
    Add(fuel, [a, nb])
  }

  function Invert(fuel: nat, x: Expr): Result<Expr>
    decreases fuel, 2
  {
    Power(fuel, x, NEGONE)
  }

  function Divide(fuel: nat, a: Expr, b: Expr): Result<Expr>
    decreases fuel, 3
  {
    var ib :- Invert(fuel, b);
    Multiply(fuel, [a, ib])
  }

  /** Replace the imaginary unit by its negation and evaluate again: an
      expression in which i does not occur is only evaluated, and i itself
      becomes the evaluated -i. */
  function Conjugate(fuel: nat, x: Expr): (r: Result<Expr>)
    decreases fuel, 4
    ensures Negate(fuel, I).Err? ==> r.Err?
    ensures Negate(fuel, I).Ok? && !Occurs(I, x) ==> r == Run(fuel, x)
    ensures Negate(fuel, I).Ok? && x == I ==> r == Run(fuel, Negate(fuel, I).value)
  {
    var ni :- Negate(fuel, I);
    assert !Occurs(I, x) ==> Subst(I, ni, x) == x by {
      if !Occurs(I, x) {
        SubstAbsent(I, ni, x);
      }
    }
    Run(fuel, Subst(I, ni, x))
  }

  /** The magnitude of a number directly; otherwise (x * conj(x))^(1/2). */
  function Abs(fuel: nat, n: Expr): (r: Result<Expr>)
    decreases fuel, 5
    ensures n.Num? && n.n >= 0 ==> r == Ok(n)
    ensures n.Num? && n.n < 0 ==> r == Negate(fuel, n)
    ensures !n.Num? ==>
      r == (var c :- Conjugate(fuel, n); var m :- Multiply(fuel, [n, c]); Power(fuel, m, HALF))
  {
    if n.Num? then
      (if IsNegativeNumber(n) then Negate(fuel, n) else Ok(n))
    else
      var c :- Conjugate(fuel, n);
      var m :- Multiply(fuel, [n, c]);
      Power(fuel, m, HALF)
  }

  /** n! by the product n * (n - 1)!, ending at zero; anything but a number
      stays an opaque application. */
  function Factorial(fuel: nat, n: Expr): (r: Result<Expr>)
    decreases fuel, 5
    ensures IsZero(n) ==> r == Ok(ONE)
    ensures !n.Num? ==> r == Ok(Apply("factorial", [n]))
  {
    if n.Num? then
      if IsZero(n) then Ok(ONE)
      else if fuel == 0 then Err(OutOfFuel)
      else
        var s :- Subtract(fuel - 1, n, ONE);
        var f :- Factorial(fuel - 1, s);
        Multiply(fuel - 1, [n, f])
    else Ok(Apply("factorial", [n]))
  }

  /** n choose k as n! / (k! (n - k)!), and zero when a numeric n or k is not
      positive or a numeric n is below a numeric k. */
  function Choose(fuel: nat, n: Expr, k: Expr): (r: Result<Expr>)
    decreases fuel, 6
    ensures n.Num? && n.n <= 0 ==> r == Ok(ZERO)
    ensures k.Num? && k.n <= 0 ==> r == Ok(ZERO)
    ensures n.Num? && k.Num? && n.n < k.n ==> r == Ok(ZERO)
  {
    if n.Num? && n.n <= 0 then Ok(ZERO)
    else if k.Num? && k.n <= 0 then Ok(ZERO)
    else if n.Num? && k.Num? && n.n < k.n then Ok(ZERO)
    else
      var fn :- Factorial(fuel, n);
      var fk :- Factorial(fuel, k);
      var d :- Subtract(fuel, n, k);
      var fd :- Factorial(fuel, d);
      var m :- Multiply(fuel, [fk, fd]);
      Divide(fuel, fn, m)
  }
}
