/** The loops of `add` and `multiply` as the source runs them: a flatten loop
    that grows the operand list, a merge loop that pushes onto or overwrites
    the last slot of the result list, then the strip and collapse steps.
    Each method is proved to compute its specification in module Canon. */
module CanonLoops {
  import opened Expressions
  import opened Ordering
  import opened Sorting
  import opened Canon
  import opened CanonLaws

  method FlattenTerms(op: Op, terms: seq<Expr>) returns (flat: seq<Expr>)
    ensures flat == Flatten(op, terms)
  {
    flat := [];
    for i := 0 to |terms|
      invariant flat == Flatten(op, terms[..i])
    {
      FlattenSnoc(op, terms[..i], terms[i]);
      assert terms[..i + 1] == terms[..i] + [terms[i]];
      if IsApply(terms[i], OpHead(op)) {
        flat := flat + terms[i].args;
      } else {
        flat := flat + [terms[i]];
      }
    }
    assert terms[..|terms|] == terms;
  }

  method MergeTerms(fuel: nat, op: Op, sorted: seq<Expr>) returns (r: Result<seq<Expr>>)
    requires |sorted| > 0
    ensures r == Merge(fuel, op, [sorted[0]], sorted[1..])
  {
    var newTerms := [sorted[0]];
    var i := 1;
    while i < |sorted|
      invariant 1 <= i <= |sorted| && |newTerms| > 0
      invariant Merge(fuel, op, newTerms, sorted[i..]) == Merge(fuel, op, [sorted[0]], sorted[1..])
    {
      var a, b := newTerms[|newTerms| - 1], sorted[i];
      var c := if op == Sum then AddAdjacent(fuel, a, b) else MultiplyAdjacent(fuel, a, b);
      assert sorted[i..][0] == b && sorted[i..][1..] == sorted[i + 1..];
      if c.Err? {
        return Err(c.fault);
      }
      if c.value.Kept? {
        newTerms := newTerms + [b];
      } else {
        newTerms := newTerms[..|newTerms| - 1] + [c.value.e];
      }
      i := i + 1;
    }
    return Ok(newTerms);
  }

  /** The body of `add` (op Sum) and of `multiply` (op Product). */
  method Canonicalize(fuel: nat, op: Op, terms: seq<Expr>) returns (r: Result<Expr>)
    ensures r == Canonical(fuel, op, terms)
  {
    if fuel == 0 {
      return Err(OutOfFuel);
    }
    var run := RunAll(fuel - 1, terms);
    if run.Err? {
      return Err(run.fault);
    }
    r := CanonicalizeRun(fuel, op, run.value);
  }

  /** Everything after the operands are evaluated: flatten, sort, merge,
      strip and collapse. */
  method CanonicalizeRun(fuel: nat, op: Op, run: seq<Expr>) returns (r: Result<Expr>)
    requires fuel > 0
    ensures r == Pipeline(fuel, op, run)
  {
    var flat := FlattenTerms(op, run);
    var sorted := SortTerms(flat);
    if |sorted| == 0 {
      return Ok(Identity(op));
    }
    var merged := MergeTerms(fuel - 1, op, sorted);
    if merged.Err? {
      return Err(merged.fault);
    }
    r := CollapseTerms(op, merged.value);
  }

  /** The strip and collapse steps after the merge loop. */
  method CollapseTerms(op: Op, merged: seq<Expr>) returns (r: Result<Expr>)
    requires |merged| > 0
    ensures r == Ok(Collapse(op, merged))
  {
    var newTerms := merged;
    if IsEqual(newTerms[0], Identity(op)) {
      newTerms := newTerms[1..];
    }
    if |newTerms| == 1 {
      return Ok(newTerms[0]);
    }
    if |newTerms| == 0 {
      return Ok(Identity(op));
    }
    return Ok(Apply(OpHead(op), newTerms));
  }
}
