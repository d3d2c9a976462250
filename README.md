# cas.js canonicaliser in Dafny

A model of the symbolic-algebra core of cas.js (`index.ts`). Expressions are a
closed tree type: numbers, strings, symbols and applications `head(args...)`.
Evaluation (`run`) dispatches an application on its head to an operator.
`add` and `multiply` canonicalise through one pipeline:

1. evaluate the operands;
2. flatten same-headed operands into the list;
3. sort by a total order on expressions (`compare_terms`);
4. merge neighbours with a pairwise combiner (`add_adjacent`, `multiply_adjacent`);
5. drop a leading identity;
6. collapse to the identity, the single survivor, or a new application.

`power`, `negate`, `subtract`, `divide`, `invert`, `abs`, `conjugate`,
`factorial`, `choose`, `log`, `exp`, `circexp`, `numerator`, `denominator`,
`expand`, `subst` and the partial polynomial `gcd` are built on top of it.

Modules:

| module | file | contents |
|---|---|---|
| `Expressions` | expr.dfy | `Expr`, the `Result` type with its `Fault` cases, the constants, the kind predicates |
| `Ordering` | order.dfy | `compare_terms` as `Compare`, its order laws, `isequal`, and the comparison loop as a method |
| `Sorting` | sorting.dfy | the operand sort; any sorted permutation equals it |
| `Substitution` | substitution.dfy | `subst` |
| `Canon` | canon.dfy | `run` and its dispatch, the pipeline, the combiners, the term views, `power`, `abs`, `conjugate` and the thin operators |
| `CanonLoops` | canon_loops.dfy | the flatten and merge loops of `add`/`multiply` as methods, proved to compute `Canonical` |
| `CanonLaws` | canon_laws.dfy | what the pipeline and the operators promise |
| `CanonPerm` | canon_perm.dfy | `add` and `multiply` do not depend on the order of their operands; a zero factor absorbs a whole product |
| `CanonFinding` | canon_finding.dfy | a sum whose merged operands come out unsorted, and the corrected last step |
| `Rewrite` | rewrite.dfy | `sqrt`, `square`, the exponential forms, `log`, `numerator`/`denominator`, `expand` (with its search loop as a method) |
| `RewriteLaws` | rewrite_laws.dfy | the logarithm, fraction and distribution laws |
| `PolyGcd` | gcd.dfy | `gcd`, `gcd_add_add` (with its two loops as a method), `lcm` |
| `GcdLaws` | gcd_laws.dfy | gcd and lcm of an expression with itself |
| `Demos` | demos.dfy | the worked examples at the end of `index.ts`, stated over arbitrary symbols |

Modelling choices:

- **Recursion bound.** The operators call one another without a structural
  bound, so each takes a `fuel: nat`. When it runs out the result is
  `Err(OutOfFuel)`. Each law states the fuel it needs in its precondition.
  Most need a small constant. The bound grows with the input where the
  source recurses on a number: `FactorialNat` needs more than n + 1 and
  `ChooseSelf` more than n + 3.
- **Missing arguments.** Where the source reads an argument that is not
  there (`args[0]` of an empty list), JavaScript produces `undefined`. The
  model answers `Err(Undefined)`.
- **Stub functions.** The gcd stubs answer `Err(Unimplemented)`.
- **Floating-point logarithms.** `Math.log` of a number other than 1 and -1
  answers `Err(NonInteger)`.
- **Numbers.** Numbers are unbounded integers.

## Model

| member | source | states |
|---|---|---|
| `Ordering.Sign` | index.ts:106-108 | -1, 0 or 1 exactly as the argument is negative, zero or positive |
| `Ordering.StrCmp` | index.ts:110-112 | a three-way string comparison (fixed character-code order) in -1..1 |
| `Ordering.StrCmpZero` | index.ts:110-112 | the string comparison answers 0 exactly for equal strings |
| `Ordering.StrCmpAntisym` | index.ts:110-112 | swapping the strings negates the answer |
| `Ordering.StrCmpTrans` | index.ts:110-112 | the strict string order is transitive |
| `Ordering.Compare` | index.ts:114-154 | the answer is -1, 0 or 1; an expression of a lower kind (Num < Str < Sym < Apply) sorts before every expression of a higher kind |
| `Ordering.CompareRefl` | index.ts:114-154 | every expression compares equal to itself (the `a === b` fast path agrees with the structural walk) |
| `Ordering.CompareZero` | index.ts:114-154 | the comparison answers 0 only for structurally equal expressions |
| `Ordering.CompareAntisym` | index.ts:114-154 | swapping the operands negates the answer, for applications whose argument lists extend one another too |
| `Ordering.CompareTrans` | index.ts:114-154 | the strict order is transitive |
| `Ordering.CompareLeTrans` | index.ts:114-154 | the non-strict order is transitive |
| `Ordering.CompareLongerFirst` | index.ts:145-146 | under the same head, an application whose arguments strictly extend another's sorts before it |
| `Ordering.CompareArgsPrefix` | index.ts:141-146 | the argument loop answers -1 when the first argument list strictly extends the second |
| `Ordering.IsEqual` | index.ts:360-370 | `isequal` (with its Sym and Num fast paths) holds exactly for structurally equal expressions |
| `Ordering.IsEqualIffCompareZero` | index.ts:360-370 | `isequal(a, b)` holds exactly when `compare_terms(a, b)` is 0 |
| `Ordering.CompareTerms` | index.ts:114-154 | the loop over common argument positions with early return computes `Compare` |
| `Sorting.InsertSorted` | index.ts:169 | inserting into an ordered list keeps it ordered |
| `Sorting.InsertPerm` | index.ts:169 | insertion adds exactly the inserted element |
| `Sorting.SortSorted` | index.ts:169 | the sorted operand list is ordered by `compare_terms` |
| `Sorting.SortPerm` | index.ts:169 | the sorted operand list is a permutation of its input |
| `Sorting.SortedUnique` | index.ts:169 | two ordered lists with the same elements are equal, so every correct sort gives the same list |
| `Sorting.SortTermsCanonical` | index.ts:287 | the sort of a list equals any ordered permutation of it |
| `Sorting.SortPair` | index.ts:287 | two operands sort into ascending order whichever way they are given |
| `Sorting.SortTriple` | index.ts:287 | three ascending operands sort to themselves |
| `Substitution.Subst` | index.ts:372-381 | the pattern becomes the replacement; an application keeps its head and arity, each argument substituted; other leaves are unchanged |
| `Substitution.SubstSelf` | index.ts:373-374 | substituting into the pattern itself yields the replacement |
| `Substitution.SubstAbsent` | index.ts:372-381 | an expression in which the pattern does not occur is returned unchanged |
| `Canon.Run` | index.ts:73-84 | numbers, strings and symbols are self-quoting; an application goes to the head dispatch with one step less fuel, and with no fuel left answers `OutOfFuel` |
| `Canon.RunApply` | index.ts:87-103 | each of the ten operator heads calls its operator on the arguments as given (`add` and `multiply` on all of them); an operator missing a fixed argument is `Undefined`; any other head is returned unchanged, its arguments not evaluated |
| `Canon.RunAll` | index.ts:158 | evaluating the operand list keeps its length |
| `Canon.Canonical` | index.ts:157-191 | an empty operand list gives the identity (0 for `add`, 1 for `multiply`) |
| `Canon.Pipeline` | index.ts:160-190 | with no evaluated operands, the pipeline answers the identity |
| `Canon.MergeStep` | index.ts:178-181 | a merge step either appends the next operand or overwrites the last slot with the combined value, leaving the earlier slots alone |
| `Canon.Merge` | index.ts:173-183 | the merge loop never lengthens the list: its result has between 1 and as many elements as its input |
| `Canon.Collapse` | index.ts:186-190 | the result is the identity, a survivor, or an application of the operator to at least two operands; a lone identity gives the identity; a lone survivor is returned bare; otherwise the operator applied to the survivors with a leading identity dropped |
| `Canon.AddAdjacent` | index.ts:193-202 | two numbers add up; otherwise two operands are merged exactly when their terms are equal |
| `Canon.MultiplyAdjacent` | index.ts:327-338 | two numbers multiply; a zero on the left absorbs; otherwise two operands are merged exactly when their bases are equal |
| `Canon.Term` | index.ts:259-265 | an operand without a leading numeric factor is its own term; a product with one gives the `multiply` of its remaining factors |
| `Canon.Coeff` | index.ts:267-273 | the coefficient is a number: the leading numeric factor of a product, otherwise one |
| `Canon.Base` | index.ts:311-317 | a leaf is its own base; when the term is a power with a numeric exponent, its base; otherwise the operand itself; a failing term fails |
| `Canon.Degree` | index.ts:319-325 | the degree is a number: the numeric exponent of a term that is such a power, one otherwise (and for every leaf); a failing term fails |
| `Canon.Power` | index.ts:341-358 | the six power rules in their order: 1^p = 1, b^0 = 1, b^1 = b, e^log x = x, (b^c)^p re-enters with the product exponent, otherwise the power of the evaluated base and exponent |
| `Canon.Abs` | index.ts:387-393 | a non-negative number is its own magnitude; a negative number is negated; anything else is the square root (power one half) of the product with its conjugate |
| `Canon.Conjugate` | index.ts:383-385 | an expression without i evaluates as it is; i itself becomes the evaluated negation of i; the whole fails when negating i fails |
| `Canon.Factorial` | index.ts:399-406 | 0! = 1; a non-number stays an unevaluated `factorial` application |
| `Canon.Choose` | index.ts:432-441 | zero when a numeric n or k is not positive, or a numeric n is below a numeric k |
| `CanonLoops.FlattenTerms` | index.ts:160-167 | the flatten loop computes `Flatten` |
| `CanonLoops.MergeTerms` | index.ts:173-183 | the merge loop computes `Merge` |
| `CanonLoops.CollapseTerms` | index.ts:186-190 | the strip and collapse steps compute `Collapse` |
| `CanonLoops.CanonicalizeRun` | index.ts:160-190 | flatten, sort, merge, strip and collapse compute `Pipeline` |
| `CanonLoops.Canonicalize` | index.ts:157-191 | the body of `add` (and, with the product operator, of `multiply` at index.ts:275-308) computes `Canonical` |
| `CanonLaws.FlattenSnoc` | index.ts:161-167 | flattening one more operand appends its spliced arguments or itself |
| `CanonLaws.FlattenKeeps` | index.ts:160-167 | a list with no same-headed operand is left as it is |
| `CanonPerm.FlattenAppend` | index.ts:160-167 | flattening two lists one after the other is flattening their concatenation |
| `CanonLaws.FlattenMembers` | index.ts:160-167 | an element of the flattened list is an operand without the head or an argument of one with it, and every such element is there |
| `CanonLaws.SortedFlatten` | index.ts:160-169 | the sorted flattened list is an ordered permutation of the flattened list |
| `CanonLaws.CanonicalBySorted` | index.ts:157-191 | the result depends on the operands only through their sorted flattened list |
| `CanonPerm.RunAllValues` | index.ts:158 | evaluating the operand list succeeds exactly when every operand evaluates, and then gives each operand's value in place |
| `CanonPerm.ValuesPerm` | index.ts:158 | permuted operands have permuted values |
| `CanonPerm.FlattenPerm` | index.ts:160-167 | flattening permuted operands gives a permutation of the flattened list |
| `CanonPerm.CanonicalPerm` | index.ts:157-191 | sums and products are commutative for any number of operands: two lists of evaluable operands with the same elements give the same result |
| `CanonPerm.CanonicalSwap` | index.ts:157-191 | sums and products of two evaluable operands commute |
| `CanonPerm.MergeToZero` | index.ts:327-331 | merging sorted factors after a leading number folds everything into zero when that number or any later factor is zero |
| `CanonPerm.MultiplyByZero` | index.ts:275-338 | a product with a zero factor among evaluable operands is zero, whatever the other factors are |
| `CanonLaws.SortNums` | index.ts:169 | sorting a list of numbers keeps their sum and product |
| `CanonLaws.RunningFoldIsFold` | index.ts:173-183 | the running value of the merge loop is the start combined with the fold of the rest |
| `CanonLaws.MergeNums` | index.ts:173-183 | merging a list of numbers folds it into one number |
| `CanonLaws.RunAllNums` | index.ts:158 | numbers evaluate to themselves |
| `CanonLaws.RunAllLeaves` | index.ts:73-84 | a list of leaves evaluates to itself |
| `CanonLaws.RunAllKeeps` | index.ts:158 | a list whose every operand evaluates to itself is kept |
| `CanonLaws.CanonicalNums` | index.ts:157-191 | a sum or product of numbers evaluates to one number, the fold of the operator |
| `CanonLaws.AddNums` | index.ts:157-202 | `add` of numbers is their sum |
| `CanonLaws.MultiplyNums` | index.ts:275-338 | `multiply` of numbers is their product |
| `CanonLaws.PipelineNums` | index.ts:160-190 | the pipeline folds evaluated numbers into one number |
| `CanonLaws.CanonicalOne` | index.ts:186-187 | a single evaluated operand is returned bare |
| `CanonLaws.CanonicalTwo` | index.ts:157-191 | two evaluated operands that sort to [a, b] and combine into m give the collapse of that merge |
| `CanonLaws.ScaleIsProduct` | index.ts:275-308 | `multiply(k, x)` builds the canonical k x |
| `CanonLaws.RunScale` | index.ts:73-103 | the canonical k x evaluates to itself |
| `CanonLaws.TermCoeffSplit` | index.ts:259-273 | the coefficient and term of k x are k and x, and their product is k x again |
| `CanonLaws.BaseDegreeSplit` | index.ts:311-325 | the base and degree of x^k are x and k, and raising one to the other gives x^k again |
| `CanonLaws.RunPow` | index.ts:341-358 | the canonical x^k evaluates to itself |
| `CanonLaws.CoefficientPowerSplit` | index.ts:259-325 | the coefficient, term, base and degree of c x^k are c, x^k, x and k, and the coefficient times the term gives c x^k again |
| `CanonLaws.ScaleOf` | index.ts:275-308 | `multiply(k, y)` is the canonical k y for every y that evaluates to itself and is neither a number, a product nor a power of a number |
| `CanonLaws.AddLikeTerms` | index.ts:193-202 | like terms merge: c x + d x = (c + d) x |
| `CanonLaws.MultiplyLikeFactors` | index.ts:327-338 | like factors merge: x^m x^n = x^(m + n) |
| `CanonLaws.AddZero` | index.ts:157-202 | x + 0 is the value of x, for every x whose value is not a sum and whose term is not zero |
| `CanonLaws.MultiplyOne` | index.ts:275-338 | x 1 is the value of x, for every x whose value is not a product and whose base is not one |
| `CanonLaws.UnitCoefficients` | index.ts:303-304 | 1 * 1 * x^k = x^k |
| `CanonLaws.PowerOfAtom` | index.ts:341-358 | `power(x, k)` is the canonical x^k for an atom x |
| `CanonLaws.NegateNum` | index.ts:420-422 | the negation of a number is its opposite |
| `CanonLaws.SubtractNums` | index.ts:416-418 | the difference of two numbers |
| `CanonLaws.NegateOnce` | index.ts:420-422 | negating x gives -1 times its value, for a value with a symbolic base |
| `CanonLaws.NegateTwice` | index.ts:420-422 | negating x gives -1 times its value, and negating that gives the value back, for every x whose value evaluates to itself and has a symbolic base |
| `CanonLaws.SubtractSelf` | index.ts:416-418 | x - x = 0 for every x whose value evaluates to itself, has a symbolic base and is not a sum |
| `CanonLaws.InvertTwice` | index.ts:412-414 | inverting x (other than one and not a power) gives its value to the power -1, and inverting that gives the value back |
| `CanonLaws.DivideSelf` | index.ts:408-410 | x / x = 1 for every x whose value evaluates to itself and is not zero, one, a product or a power |
| `CanonLaws.HalfIsOneOverTwo` | index.ts:56 | `divide(ONE, TWO)` is the power 2^-1 |
| `CanonLaws.HalfTimesTwo` | index.ts:56 | 2 times one half is one |
| `CanonLaws.ConjugateReal` | index.ts:383-385 | conjugating an expression without i is evaluating it |
| `CanonLaws.ConjugateI` | index.ts:383-385 | the conjugate of i is -1 times i |
| `CanonLaws.AbsAtom` | index.ts:387-393 | the magnitude of a symbol or string other than i is itself: its product with its conjugate is its square, and the square root of that gives it back |
| `CanonLaws.FactorialNat` | index.ts:399-406 | factorial of a natural number n is n! |
| `CanonLaws.FactorialNegative` | index.ts:399-406 | factorial of a negative number never reaches its base case |
| `CanonLaws.ChooseSelf` | index.ts:432-441 | choose(n, n) = 1 for a positive n |
| `Rewrite.Exp` | index.ts:496-498 | e^(log x) = x |
| `Rewrite.Circexp` | index.ts:515-526 | anything but a cosine or a sine is wrapped in `circexp`; a cosine or sine without an argument is undefined |
| `Rewrite.Log` | index.ts:532-554 | log e = 1, log 1 = 0, the logarithm of another non-negative number is not an integer, a symbolic leaf and an application other than a power or a product stay an unevaluated `log`; log(a^b) is b log a; log of a product is the sum of the logarithms of its factors |
| `Rewrite.LogArgs` | index.ts:550 | the logarithms of a product's factors, one for one and in order; it fails exactly when one of them fails |
| `Rewrite.Denominator` | index.ts:564-577 | one for anything but a product or a reciprocal power; the inverse of a reciprocal power; for a product, the `multiply` of its factors' denominators, failing when one of them fails |
| `Rewrite.DenominatorArgs` | index.ts:571 | the denominators of a product's factors, one for one and in order; it fails exactly when one of them fails |
| `Rewrite.Numerator` | index.ts:579-592 | the expression itself for anything but a product or a reciprocal power; one for a reciprocal power; for a product, the `multiply` of its factors' numerators, failing when one of them fails |
| `Rewrite.NumeratorArgs` | index.ts:586 | the numerators of a product's factors, one for one and in order; it fails exactly when one of them fails |
| `Rewrite.FirstSum` | index.ts:603-604 | the position of the first sum factor, none before it |
| `Rewrite.Without` | index.ts:607 | the factors other than the one at the given position, in order |
| `Rewrite.Expand` | index.ts:600-616 | anything but a product with a sum factor is returned unchanged; such a product is the sum of the expansions of each term of the first sum factor multiplied by the other factors |
| `Rewrite.ExpandEach` | index.ts:609 | each term of the sum, multiplied by the other factors and expanded, one for one and in order; it fails exactly when one of those products or expansions fails |
| `Rewrite.ExpandProduct` | index.ts:600-616 | the search loop of `expand` computes `Expand` |
| `RewriteLaws.LogOfExp` | index.ts:496-554 | log(e^x) = x for every leaf |
| `RewriteLaws.ExpOfLog` | index.ts:496-554 | e^(log x) = x for every leaf whose logarithm stays symbolic |
| `RewriteLaws.ProductIPi` | index.ts:275-308 | i pi in canonical form, from either order of the factors |
| `RewriteLaws.LogMinusOne` | index.ts:537-540 | log(-1) = i pi |
| `RewriteLaws.LogOfPow` | index.ts:545-547 | log(x^k) = k log x for an atom x other than e |
| `RewriteLaws.LogOfProduct` | index.ts:548-551 | for instance, log(a b) = log a + log b for atoms other than e; the rule for any product is the contract of `Rewrite.Log` |
| `RewriteLaws.LogOfNumber` | index.ts:532-541 | the logarithm of a number is an expression only for 1 and -1 |
| `RewriteLaws.InvertPow` | index.ts:412-414 | 1 / x^k = x^-k for a leaf other than one |
| `RewriteLaws.MultiplyOnePow` | index.ts:303-304 | 1 x^k = x^k 1 = x^k |
| `RewriteLaws.FractionOfPow` | index.ts:564-592 | a power of an atom splits into numerator and denominator by the sign of its exponent, and dividing one by the other gives it back |
| `RewriteLaws.FractionOfQuotient` | index.ts:564-592 | a / b for different atoms is a b^-1, whose numerator is a and whose denominator is b, each through the product case |
| `RewriteLaws.ExpandScale` | index.ts:600-616 | a product with no sum factor expands to itself |
| `RewriteLaws.AddScaled` | index.ts:157-191 | for instance, k a + k b is its own canonical form for atoms a before b |
| `RewriteLaws.ExpandDistributes` | index.ts:600-616 | for instance, expand(k (a + b)) = k a + k b for atoms; the rule for any product is the contract of `Rewrite.Expand` |
| `PolyGcd.Gcd` | index.ts:209-222 | equal inputs give the second; two numbers, a sum against a non-sum and two products are unimplemented; otherwise no common factor (one) |
| `PolyGcd.GcdFold` | index.ts:235-243 | folding over no further terms keeps the accumulator |
| `PolyGcd.GcdAddAdd` | index.ts:232-253 | sums of different lengths give one; two empty sums read a missing term |
| `PolyGcd.GcdOfTerms` | index.ts:235-238 | the gcd loop over a sum's terms computes `GcdFold` |
| `PolyGcd.GcdOfSums` | index.ts:232-253 | the two loops, two divisions and the comparison compute `GcdAddAdd` |
| `GcdLaws.GcdFoldSame` | index.ts:235-238 | folding gcd over copies of the accumulator leaves it unchanged |
| `GcdLaws.GcdAtoms` | index.ts:209-222 | two different atoms have no common factor |
| `GcdLaws.DivideSumByOne` | index.ts:408-410 | (a + b) / 1 = a + b |
| `GcdLaws.GcdAddAddSelf` | index.ts:232-253 | for instance, gcd_add_add(a + b, a + b) = a + b for two atoms |
| `GcdLaws.LcmSelf` | index.ts:205-207 | for instance, lcm(x, x) = x for an atom |
| `Demos.AddNumbersAndSymbol` | index.ts:622 | 3 + y + 8 + 13 = 24 + y |
| `Demos.AbsOfNumber` | index.ts:624 | the magnitude of a number |
| `Demos.SubstInSum` | index.ts:628 | cat + dog + meow with cat replaced by dog is dog + dog + meow, not evaluated again |
| `Demos.AddThreeAtoms` | index.ts:628 | a + b + c for three atoms in increasing order, from any order of the operands |
| `Demos.ZeroSum` | index.ts:631 | 1 + (-1) + 0 (i + 1) = 0 |
| `Demos.SumOneI` | index.ts:631 | i + 1 = 1 + i, number first |
| `Demos.ProductOfAtoms` | index.ts:635 | a b = b a = the product in order, for atoms |
| `Demos.PowerOfPower` | index.ts:635 | (x^y)^z = x^(y z) |
| `Demos.DenominatorOfTripleInverse` | index.ts:637 | the denominator of 1 / (1 / (1 / d)) is d |
| `CanonFinding.AddMergedOutOfOrder` | index.ts:169-190 | for atoms a before b, a + a + b comes out as the sum of 2 a and b in that order, which is not sorted |
| `CanonFinding.RunReorders` | index.ts:73-103 | evaluating the sum of 2 a and b again puts b first |
| `CanonFinding.DogDogMeow` | index.ts:157-191 | dog + dog + meow gives 2 dog + meow, and evaluating that gives meow + 2 dog |
| `CanonFinding.CollapseSorted` | index.ts:186-190 | the corrected last step: when the result is an application of the operator, its operands are sorted |
| `CanonFinding.PipelineSortedFixed` | index.ts:157-191 | with the corrected last step, a + a + b gives b + 2 a, which evaluates to itself |

## Findings

| source | as written | input that shows it | evidently intended | confidence | as-written member | corrected member |
|---|---|---|---|---|---|---|
| index.ts:169-190 | `add` and `multiply` sort the operands, then merge like neighbours, and build the result from the merged list without sorting it again; a merged operand such as 2 dog is a product, which sorts after every symbol | `add(dog, dog, meow)` gives `add(multiply(2, dog), meow)`; evaluating that again gives `add(meow, multiply(2, dog))` | the result's operands are in `compare_terms` order, so evaluating a result again leaves it unchanged | not executed | `CanonFinding.AddMergedOutOfOrder`, `CanonFinding.RunReorders`, `CanonFinding.DogDogMeow` | `CanonFinding.CollapseSorted`, `CanonFinding.PipelineSortedFixed` |

Everything outside `CanonFinding` follows the code as written: `Canon.Pipeline` collapses the merged list without sorting it again.

## Left out

- The `toString` methods and every `console.log` call: they only print. The worked examples they print are lemmas in `Demos`.
- Floating point. Numbers are unbounded integers, so `+` and `*` in the combiners are exact and there is no NaN or infinity. Comparison of numbers is by integer value.
- `Math.log` of a number other than 1 and -1 gives a float in the source; the model answers `Err(NonInteger)` instead.
- `String.prototype.localeCompare` depends on the locale. Strings and symbol names compare by a fixed character-code order instead.
- The `a === b` reference-identity fast paths in `compare_terms` and `isequal` are not separate branches. `CompareRefl` shows that the structural walk gives the same answer.
- The `null` checks in `compare_terms` cannot be reached with a closed expression type.
- `gcd_num_num`, `gcd_expr`, `gcd_multiply_multiply` and `roots` only throw "unimplemented". They are the fault `Unimplemented`. When `gcd` rewrites a sum with `gcd_expr` before trying the product case, that path is `Unimplemented` too.
- `rect` and `imag` are not part of this model because they are ill-typed. `rect` builds an `Apply` from an array instead of spread arguments (index.ts:445). `imag` passes the raw number 2 to `divide` (index.ts:463).
- `polar`, `clock`, `real`, `sin`, `cos`, `cosh`, `sinh`, `angle` and `mag` are not part of this model.
- Missing arguments: where the source reads `args[i]` past the end, JavaScript carries `undefined` on. The model stops with `Err(Undefined)` instead of following `undefined` through later calls.
- The fuel bound: a computation that needs more nested evaluation than its fuel answers `Err(OutOfFuel)`. `FactorialNegative` shows that for factorial of a negative number this happens at every fuel, where the source recurses without end.
- The worked examples at index.ts:633 (log of a quotient of exponentials), 642-649 (a nested sum of products) and 654 (expanding a product of three sums) are not stated as lemmas. Their traces run through dozens of nested canonicalisations. `LogOfExp`, `AddThreeAtoms` and `ExpandDistributes` state the laws they exercise on smaller inputs.
- `Rewrite.ExpCos`, `Rewrite.ExpSin`: the exponential forms of cosine and sine carry no contract of their own. `Circexp` states which expressions reach them.
- `Rewrite.Circexp`: its contract covers the non-trigonometric and missing-argument cases only. The cosine and sine cases are stated by the definitions they call.
- `Rewrite.Sqrt`, `Rewrite.Square`: these are `power(x, 1/2)` and `power(x, 2)` with no contract of their own. `power`'s rules are stated on `Canon.Power`.
- Where the code and its prose description disagree, the model follows the code:
  - the application whose argument list extends the other sorts first (`CompareLongerFirst`);
  - `term` canonicalises the remaining factors with `multiply`;
  - `base` returns the operand itself, not its term, when the term is not a numeric power;
  - 1^p is ONE, while the comment at index.ts:342 says 0.
- `CanonLaws.AddZero`, `CanonLaws.MultiplyOne`: the identity laws exclude values that are themselves sums (for `add`) or products (for `multiply`), whose operands are spliced in. They also exclude a value whose term is zero, or whose base is one. For example, `multiply(power(add(1, 0), 2), 1)` gives 1 while the power evaluates to `power(1, 2)`.
- `CanonLaws.NegateTwice`, `CanonLaws.SubtractSelf`, `CanonLaws.DivideSelf`: the inverse laws assume that the value of x evaluates to itself at the lower fuel. They exclude values that are numbers, products or powers of a number for negation, and also sums for `subtract`. `DivideSelf` excludes zero, one, products and powers. In the excluded cases, numeric factors merge with -1 or the exponents add.
- `CanonLaws.InvertTwice`: excludes one and powers, which `power` rewrites before the inverse is taken.
- `Canon.Add`, `Canon.Multiply`, `Canon.Negate`, `Canon.Subtract`, `Canon.Invert`, `Canon.Divide`: these are the source's one-line wrappers (`canonical` with an operator, `multiply` with -1, `add` with a negation, `power` with -1, `multiply` with an inverse). Their laws are the lemmas in `CanonLaws` and `CanonPerm` named in the table.
- `CanonLaws.AbsAtom`: the magnitude of i is left out. In the source, i times its conjugate is -(i^2), and its square root stays unevaluated.
- `CanonPerm.CanonicalPerm`: commutativity requires every operand to evaluate. When one fails, both orders fail, but not necessarily with the same fault.
- Idempotence of evaluation is not stated. Because of the finding above, it does not hold for the code as written.
