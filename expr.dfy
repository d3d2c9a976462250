/** The closed expression type of the algebra engine, its structural
    predicates and the shared constants. */
module Expressions {

  /** A numeric literal, an opaque string, a symbol, or an n-ary application
      whose head symbol name selects its meaning ("add", "multiply", ...). */
  datatype Expr =
    | Num(n: int)
    | Str(s: string)
    | Sym(name: string)
    | Apply(head: string, args: seq<Expr>)

  /** Why an operation produced no expression.
      Undefined: the source reads an argument that is not there and carries
      JavaScript's `undefined` onward (it ends in run's "can not run this
      data type" error or in an ill-formed tree).
      Unimplemented: the source throws "unimplemented".
      OutOfFuel: the recursion bound of the model is exhausted.
      NonInteger: the source would produce a floating-point number. */
  datatype Fault = Undefined | Unimplemented | OutOfFuel | NonInteger

  datatype Result<+T> = Ok(value: T) | Err(fault: Fault) {
    predicate IsFailure() {
      Err?
    }

    function PropagateFailure<U>(): Result<U>
      requires Err?
    {
      Err(fault)
    }

    function Extract(): T
      requires Ok?
    {
      value
    }
  }

  const ZERO: Expr := Num(0)
  const ONE: Expr := Num(1)
  const NEGONE: Expr := Num(-1)
  const TWO: Expr := Num(2)
  /** The value `divide(ONE, TWO)` evaluates to: the power 2^-1 (powers of
      numbers are not evaluated). */
  const HALF: Expr := Apply("power", [Num(2), Num(-1)])

  const I: Expr := Sym("i")
  const E: Expr := Sym("e")
  const PI: Expr := Sym("pi")

  /** An application, optionally with the given head name ("" matches any head). */
  predicate IsApply(x: Expr, name: string) {
    x.Apply? && (name == "" || x.head == name)
  }

  predicate IsLeaf(x: Expr) {
    !x.Apply?
  }

  predicate IsZero(x: Expr) {
    x.Num? && x.n == 0
  }

  predicate IsNegativeNumber(x: Expr) {
    x.Num? && x.n < 0
  }

  /** A negative number, or a product whose first factor is a negative number. */
  predicate IsNegativeTerm(x: Expr) {
    IsNegativeNumber(x) || (IsApply(x, "multiply") && |x.args| > 0 && IsNegativeNumber(x.args[0]))
  }
}
