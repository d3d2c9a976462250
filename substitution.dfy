/** Structural substitution: every subtree equal to the pattern is replaced
    wholesale; applications are rebuilt with their head and their arguments
    substituted one by one. */
module Substitution {
  import opened Expressions
  import opened Ordering

  function Subst(pattern: Expr, replacement: Expr, haystack: Expr): (r: Expr)
    ensures haystack == pattern ==> r == replacement
    ensures haystack != pattern && haystack.Apply? ==>
      r.Apply? && r.head == haystack.head && |r.args| == |haystack.args| &&
      forall i :: 0 <= i < |r.args| ==> r.args[i] == Subst(pattern, replacement, haystack.args[i])
    ensures haystack != pattern && !haystack.Apply? ==> r == haystack
  {
    if IsEqual(haystack, pattern) then replacement
    else if haystack.Apply? then
      Apply(haystack.head, seq(|haystack.args|, i requires 0 <= i < |haystack.args| =>
        Subst(pattern, replacement, haystack.args[i])))
    else haystack
  }

  /** The pattern is the expression itself or a subtree of it. */
  predicate Occurs(pattern: Expr, e: Expr)
    decreases e
  {
    e == pattern || (e.Apply? && exists i :: 0 <= i < |e.args| && Occurs(pattern, e.args[i]))
  }

  /** Substituting into the pattern itself yields the replacement. */
  lemma SubstSelf(pattern: Expr, replacement: Expr)
    ensures Subst(pattern, replacement, pattern) == replacement
  {
  }

  /** Substitution leaves an expression without occurrences untouched. */
  lemma {:induction false} SubstAbsent(pattern: Expr, replacement: Expr, e: Expr)
    requires !Occurs(pattern, e)
    decreases e
    ensures Subst(pattern, replacement, e) == e
  {
    if e.Apply? {
      var r := Subst(pattern, replacement, e);
      forall i | 0 <= i < |e.args|
        ensures r.args[i] == e.args[i]
      {
        SubstAbsent(pattern, replacement, e.args[i]);
      }
      assert r.args == e.args;
    }
  }
}
