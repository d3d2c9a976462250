/** The total order on expressions that sorts the operands of sums and
    products, and the equality test built on it. */
module Ordering {
  import opened Expressions

  function Sign(x: int): (r: int)
    ensures r == -1 <==> x < 0
    ensures r == 1 <==> x > 0
    ensures r == 0 <==> x == 0
  {
    if x < 0 then -1 else if x > 0 then 1 else 0
  }

  /** Lexicographic order on strings by character code, the fixed order that
      stands in for the locale-dependent string comparison. */
  function StrCmp(a: string, b: string): (r: int)
    ensures -1 <= r <= 1
  {
    if |a| == 0 then (if |b| == 0 then 0 else -1)
    else if |b| == 0 then 1
    else if a[0] < b[0] then -1
    else if a[0] > b[0] then 1
    else StrCmp(a[1..], b[1..])
  }

  lemma {:induction false} StrCmpZero(a: string, b: string)
    ensures StrCmp(a, b) == 0 <==> a == b
  {
    if |a| > 0 && |b| > 0 && a[0] == b[0] {
      StrCmpZero(a[1..], b[1..]);
      if a[1..] == b[1..] {
        assert a == [a[0]] + a[1..] && b == [b[0]] + b[1..];
      }
    }
  }

  lemma {:induction false} StrCmpAntisym(a: string, b: string)
    ensures StrCmp(a, b) == -StrCmp(b, a)
  {
    if |a| > 0 && |b| > 0 && a[0] == b[0] {
      StrCmpAntisym(a[1..], b[1..]);
    }
  }

  lemma {:induction false} StrCmpTrans(a: string, b: string, c: string)
    requires StrCmp(a, b) < 0 && StrCmp(b, c) < 0
    ensures StrCmp(a, c) < 0
  {
    if |a| > 0 && |b| > 0 && |c| > 0 && a[0] == b[0] && b[0] == c[0] {
      StrCmpTrans(a[1..], b[1..], c[1..]);
    }
  }

  /** The rank of each kind: Num < Str < Sym < Apply. */
  function Kind(e: Expr): nat {
    match e
    case Num(_) => 0
    case Str(_) => 1
    case Sym(_) => 2
    case Apply(_, _) => 3
  }

  /** Three-way comparison: kinds first, then numbers by value, strings and
      symbol names lexicographically, applications by head and then argument
      by argument. When one argument list extends the other, the LONGER
      application comes first. */
  function Compare(a: Expr, b: Expr): (r: int)
    decreases a, 1
    ensures -1 <= r <= 1
    ensures Kind(a) < Kind(b) ==> r == -1
    ensures Kind(a) > Kind(b) ==> r == 1
  {
    if a.Num? && b.Num? then Sign(a.n - b.n)
    else if a.Num? then -1
    else if b.Num? then 1
    else if a.Str? && b.Str? then StrCmp(a.s, b.s)
    else if a.Str? then -1
    else if b.Str? then 1
    else if a.Sym? && b.Sym? then StrCmp(a.name, b.name)
    else if a.Sym? then -1
    else if b.Sym? then 1
    else
      var n := StrCmp(a.head, b.head);
      if n != 0 then n else CompareArgs(a, b, 0)
  }

  /** The argument loop of the comparison, from position i on. */
  function CompareArgs(a: Expr, b: Expr, i: nat): (r: int)
    requires a.Apply? && b.Apply? && i <= |a.args| && i <= |b.args|
    decreases a, 0, |a.args| - i
    ensures -1 <= r <= 1
  {
    if i == |a.args| || i == |b.args| then
      (if |a.args| > i then -1 else if |b.args| > i then 1 else 0)
    else
      var n := Compare(a.args[i], b.args[i]);
      if n != 0 then n else CompareArgs(a, b, i + 1)
  }

  lemma {:induction false} CompareRefl(a: Expr)
    decreases a, 1
    ensures Compare(a, a) == 0
  {
    match a
    case Num(_) =>
    case Str(s) => StrCmpZero(s, s);
    case Sym(x) => StrCmpZero(x, x);
    case Apply(h, _) =>
      StrCmpZero(h, h);
      CompareArgsRefl(a, 0);
  }

  lemma {:induction false} CompareArgsRefl(a: Expr, i: nat)
    requires a.Apply? && i <= |a.args|
    decreases a, 0, |a.args| - i
    ensures CompareArgs(a, a, i) == 0
  {
    if i < |a.args| {
      CompareRefl(a.args[i]);
      CompareArgsRefl(a, i + 1);
    }
  }

  /** Comparison answers 0 only for structurally equal expressions. */
  lemma {:induction false} CompareZero(a: Expr, b: Expr)
    requires Compare(a, b) == 0
    decreases a, 1
    ensures a == b
  {
    match a
    case Num(_) =>
    case Str(s) => StrCmpZero(s, b.s);
    case Sym(x) => StrCmpZero(x, b.name);
    case Apply(h, _) =>
      StrCmpZero(h, b.head);
      CompareArgsZero(a, b, 0);
      assert a.args == a.args[0..] && b.args == b.args[0..];
  }

  lemma {:induction false} CompareArgsZero(a: Expr, b: Expr, i: nat)
    requires a.Apply? && b.Apply? && i <= |a.args| && i <= |b.args|
    requires CompareArgs(a, b, i) == 0
    decreases a, 0, |a.args| - i
    ensures |a.args| == |b.args| && a.args[i..] == b.args[i..]
  {
    if i < |a.args| && i < |b.args| {
      CompareZero(a.args[i], b.args[i]);
      CompareArgsZero(a, b, i + 1);
      assert a.args[i..] == [a.args[i]] + a.args[i + 1..];
      assert b.args[i..] == [b.args[i]] + b.args[i + 1..];
    }
  }

  /** Swapping the operands negates the answer, for every kind, including
      applications where one argument list extends the other. */
  lemma {:induction false} CompareAntisym(a: Expr, b: Expr)
    decreases a, 1
    ensures Compare(a, b) == -Compare(b, a)
  {
    match a
    case Num(_) =>
    case Str(s) =>
      if b.Str? { StrCmpAntisym(s, b.s); }
    case Sym(x) =>
      if b.Sym? { StrCmpAntisym(x, b.name); }
    case Apply(h, _) =>
      if b.Apply? {
        StrCmpAntisym(h, b.head);
        CompareArgsAntisym(a, b, 0);
      }
  }

  lemma {:induction false} CompareArgsAntisym(a: Expr, b: Expr, i: nat)
    requires a.Apply? && b.Apply? && i <= |a.args| && i <= |b.args|
    decreases a, 0, |a.args| - i
    ensures CompareArgs(a, b, i) == -CompareArgs(b, a, i)
  {
    if i < |a.args| && i < |b.args| {
      CompareAntisym(a.args[i], b.args[i]);
      CompareArgsAntisym(a, b, i + 1);
    }
  }

  lemma {:induction false} CompareTrans(a: Expr, b: Expr, c: Expr)
    requires Compare(a, b) < 0 && Compare(b, c) < 0
    decreases a, 1
    ensures Compare(a, c) < 0
  {
    if Kind(a) == Kind(b) == Kind(c) {
      match a
      case Num(_) =>
      case Str(s) => StrCmpTrans(s, b.s, c.s);
      case Sym(x) => StrCmpTrans(x, b.name, c.name);
      case Apply(h, _) =>
        var hab, hbc := StrCmp(h, b.head), StrCmp(b.head, c.head);
        if hab < 0 && hbc < 0 {
          StrCmpTrans(h, b.head, c.head);
        } else if hab < 0 {
          StrCmpZero(b.head, c.head);
        } else if hbc < 0 {
          StrCmpZero(h, b.head);
        } else {
          StrCmpZero(h, b.head);
          StrCmpZero(b.head, c.head);
          CompareArgsTrans(a, b, c, 0);
        }
    }
  }

  lemma {:induction false} CompareArgsTrans(a: Expr, b: Expr, c: Expr, i: nat)
    requires a.Apply? && b.Apply? && c.Apply?
    requires i <= |a.args| && i <= |b.args| && i <= |c.args|
    requires CompareArgs(a, b, i) < 0 && CompareArgs(b, c, i) < 0
    decreases a, 0, |a.args| - i
    ensures CompareArgs(a, c, i) < 0
  {
    if i < |a.args| && i < |b.args| && i < |c.args| {
      var x, y, z := a.args[i], b.args[i], c.args[i];
      var nab, nbc := Compare(x, y), Compare(y, z);
      if nab < 0 && nbc < 0 {
        CompareTrans(x, y, z);
      } else if nab < 0 {
        CompareZero(y, z);
      } else if nbc < 0 {
        CompareZero(x, y);
      } else {
        CompareZero(x, y);
        CompareZero(y, z);
        CompareRefl(x);
        CompareArgsTrans(a, b, c, i + 1);
      }
    }
  }

  /** Transitivity of the non-strict order. */
  lemma CompareLeTrans(a: Expr, b: Expr, c: Expr)
    requires Compare(a, b) <= 0 && Compare(b, c) <= 0
    ensures Compare(a, c) <= 0
  {
    if Compare(a, b) == 0 {
      CompareZero(a, b);
    } else if Compare(b, c) == 0 {
      CompareZero(b, c);
    } else {
      CompareTrans(a, b, c);
    }
  }

  /** An application whose arguments strictly extend another's, under the
      same head, sorts BEFORE it. */
  lemma CompareLongerFirst(h: string, xs: seq<Expr>, ys: seq<Expr>)
    requires |ys| > 0
    ensures Compare(Apply(h, xs + ys), Apply(h, xs)) == -1
    ensures Compare(Apply(h, xs), Apply(h, xs + ys)) == 1
  {
    var a, b := Apply(h, xs + ys), Apply(h, xs);
    StrCmpZero(h, h);
    CompareArgsPrefix(a, b, 0);
    CompareAntisym(a, b);
  }

  lemma {:induction false} CompareArgsPrefix(a: Expr, b: Expr, i: nat)
    requires a.Apply? && b.Apply? && |b.args| < |a.args| && i <= |b.args|
    requires a.args[..|b.args|] == b.args
    decreases |b.args| - i
    ensures CompareArgs(a, b, i) == -1
  {
    if i < |b.args| {
      assert a.args[i] == a.args[..|b.args|][i];
      CompareRefl(a.args[i]);
      CompareArgsPrefix(a, b, i + 1);
    }
  }

  /** Equality with the source's fast paths for symbols and numbers; it
      coincides with structural equality. */
  function IsEqual(a: Expr, b: Expr): (r: bool)
    ensures r <==> a == b
  {
    if a.Sym? && b.Sym? then a.name == b.name
    else if a.Num? && b.Num? then a.n == b.n
    else
      CompareRefl(a);
      if Compare(a, b) == 0 then CompareZero(a, b); true else false
  }

  /** The fast paths agree with the comparator: equality holds exactly when
      the comparison answers 0. */
  lemma IsEqualIffCompareZero(a: Expr, b: Expr)
    ensures IsEqual(a, b) <==> Compare(a, b) == 0
  {
    if Compare(a, b) == 0 {
      CompareZero(a, b);
    } else {
      CompareRefl(a);
    }
  }

  /** The comparison as the source computes it: a loop over the common
      argument positions with an early return. */
  method CompareTerms(a: Expr, b: Expr) returns (r: int)
    decreases a
    ensures r == Compare(a, b)
  {
    if a.Num? && b.Num? { return Sign(a.n - b.n); }
    if a.Num? { return -1; }
    if b.Num? { return 1; }
    if a.Str? && b.Str? { return StrCmp(a.s, b.s); }
    if a.Str? { return -1; }
    if b.Str? { return 1; }
    if a.Sym? && b.Sym? { return StrCmp(a.name, b.name); }
    if a.Sym? { return -1; }
    if b.Sym? { return 1; }
    var n := StrCmp(a.head, b.head);
    if n != 0 { return n; }
    var l := if |a.args| < |b.args| then |a.args| else |b.args|;
    for i := 0 to l
      invariant CompareArgs(a, b, i) == Compare(a, b)
    {
      n := CompareTerms(a.args[i], b.args[i]);
      if n != 0 { return n; }
    }
    if |a.args| > l { return -1; }
    if |b.args| > l { return 1; }
    return 0;
  }
}
