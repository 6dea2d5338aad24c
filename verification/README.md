# Verification of dftracer-utils

This project models the parts of dftracer-utils that rewrite, distribute or merge something, and proves that what comes
out means what went in. It is written in Dafny 4.11; `dafny verify dfyconfig.toml` checks all of it.

**The expression compiler.** A Python function given to `apply` or `map` is lowered to a branch-free column expression;
the expression is serialized to post-order tuples over positional inputs, rebuilt by the engine, type-checked and
evaluated a row at a time. `Text` has the string functions of the two sides, `PythonSubset` is what running such a
function in Python does, `Exprs` what an expression means in the engine and which ones the engine accepts, `Transpiler`
the lowering, `LoweringClass` the same lowering with the mutable state the source keeps. `Agreement`,
`TranspilerCorrect`, `TranspilerPlain` and `TranspilerLimits` say when the two agree, `TranspilerTypes` which functions
come back as Int64, `TranspilerForms` exactly which functions have an engine form; `PythonNames` and `EngineNames` say
what each Python name and operator computes, in Python and on the engine, without the tables that recognise them, and
`EngineMeaning` what the engine's nodes do to types and nulls; `PostOrder` covers the serializer and column collection;
`Apply` puts the whole path together.

**The middle end.** `GroupBy` lifts aggregates out of expressions, joins rows with their groups, and has the group by
group run of a filter. `ColumnOps` lifts whole-column operations into temporaries and runs them eagerly or as plan
steps. `GroupLowering` lowers `GroupBy.filter` and `GroupBy.apply` of a traced function, column operations included, to
a group-by, a join and a sort, and says when that is the group by group run. `LikePatterns` is the LIKE escaping and
the engine's matcher.

**Distribution and concurrency.** `Paging` (pages over shards), `Distribution` (shard ranges, member scans, build units),
`SingleFlight` (the decode cache over the coroutine mutex), `ChunkDispatch` (the atomic chunk counter) and
`ProcessCounts` (the mergeable count plugin).

**Documentation tools.** `Namespaces` (modules from namespaces) and `PageOrder` (the reading order of the toctree).

## How the model is set up

Integers are unbounded and floats are exact reals. `sqrt`, `log` and `exp` are the same unknown functions on both sides
(`Exprs.Kernels`); rounding goes to the nearest whole number, ties to even. String functions are each side's own,
written out in `Text`: Python replaces an empty pattern, maps the case of all characters and strips all of its spaces;
the engine leaves an empty pattern alone, maps the case of ASCII letters and strips six ASCII spaces. What Python's
case mapping does beyond ASCII is not written out (`Text.Cases`). Engine operators on whole frames (group-by, join,
sort, column operations, group transforms) are functions with a stated contract: groups and join matches come in any
order, a sort is any sorted permutation, a null key matches nothing. Those contracts are the predicates
`GroupBy.Honest`, `ColumnOps.HonestOps`, `Paging.Sorts`, `Namespaces.SortsKeys` and `GroupBy.SortsInts`. Concurrent
code is a list of atomic steps, so a theorem over every list is a theorem over every interleaving.

Python code is given `fuel` calls; a run that raises, or runs out of fuel, has no value. A statement about a Python run
is about every run that has a value, for every fuel.

## What the code does that its description does not say

Each of these is a branch kept as the code has it, with the exact condition under which it does what is described.

- `block` restores `self.locals` after an `if` but not `self.local_int`, and records the int-ness of an assignment's
  target before it lowers the right side. A name assigned twice can make a later `%` truncate: `LeakedIntness` is a
  function for which Python returns 0.5 and the engine 0; the cast keeps the remainder exactly when it is whole
  (`ModCastExact`). Functions in which a name keeps its int-ness when it is assigned again are not affected
  (`TameLowersPlain`).
- A builtin (`abs`, `min`, `max`, `int`, `float`, `len`, `round`) is read by name before the function's globals, so a
  module's own `round` is lowered to the engine's: `ShadowedBuiltin` is a function, with a `round` that adds one, on which
  the two agree exactly where it is not called. Functions that call no global by such a name are not affected
  (`TameLowersPlain`).
- A constant is looked up among the globals before the parameters, and the globals hold every name the body mentions, even
  as an attribute. With `exp = 2` in the module, `lambda exp: math.exp(exp) + exp` is lowered to exp(x) + 2; the two agree
  exactly for x = 2 (`SharedName`). Functions with no parameter or local named like a constant global are not affected
  (`TameLowersPlain`).
- `x.replace("", "-")` puts a dash around every character in Python and changes nothing on the engine: a replacement is
  lowered faithfully exactly when its pattern is not empty, or it puts nothing in its place (`ReplaceMethodExact`).
- `lower`, `upper` and the `strip` methods work on ASCII in the engine: each is lowered faithfully on a string exactly when
  its characters beyond ASCII are their own case, and its ends hold none of the spaces that only Python strips
  (`TextMethodExact`).
- A string bound to a parameter of an inlined call is serialized with `int`, so one that reads as a number becomes that
  number: `StringArgument` is a function for which Python returns "12" and the engine 12. The engine takes a string exactly
  when it reads as a number, and its cell is never the string (`StringLiteralExact`).
- `x in NAME`, where `NAME` is a global string, is lowered to membership in its characters. It agrees with Python's
  substring test exactly as `GlobalStringExact` says.
- An integer column compared with a float constant truncates the constant. `IntCompareExact` says for which constants no
  row can tell.
- A numeric arm of a `select` beside a Bool column arm keeps only whether it is nonzero (`BoolArmExact`).
- A function lowered to a constant makes `Series.apply` raise, although its Python tier would map the column
  (`ConstantFunctionFails`): a constant expression has no column to broadcast along.
- `page` asks only that a page hold more events than share one timestamp. That is not enough: pages of 3 over the
  timestamps 1, 1, 2, 2 lose an event (`DocumentedAssumptionFails`). `PagesOf` has the exact condition: no multiple of
  the page size falls inside a run of equal timestamps.
- Group lowerings drop rows with a null key, which the join cannot match: `FilterAgrees`, `ApplyPerRow` and
  `LowerColumnOps` have the exact condition.
- A column op in a group function runs over the whole joined frame, where the group by group run starts it again in each
  group: for `lambda g: g["v"].cum_sum() / g["v"].sum()` the second group of one row each gets 1.5 for 1
  (`ShareRunsOn`). Every function built of an operation is lowered to its group by group run if and only if the
  operation works row by row (`ElementwiseExact`).
- `discover_modules` drops the items of a namespace that stays small and whose parent is not itself a namespace;
  `DiscoverModules` has the exact condition. Its `promise_type` branch is never taken, as the name starts with a lower-case letter.

## Model

| member | source | states |
|---|---|---|
| TranspilerCorrect.RowFunctionCorrect | python/dftracer/utils/_transpile.py:141-482 | compiler correctness for row functions: on every row on which the Python body returns, the lowered expression, if the engine accepts it and takes it exactly, evaluates to the value Python returns, over strings whose case and ends both sides treat alike |
| TranspilerCorrect.ValueFunctionCorrect | python/dftracer/utils/_transpile.py:499-510 | the same for a function of one value, for `Series.apply` |
| TranspilerCorrect.BlockCorrect | python/dftracer/utils/_transpile.py:153-181 | a statement list with early returns, nested and falling-through `if`s and reassigned locals has the value of its run |
| TranspilerCorrect.BlockReturns | python/dftracer/utils/_transpile.py:166-180 | a block that lowers to a value returns on every path of every run |
| TranspilerCorrect.InlineCorrect | python/dftracer/utils/_transpile.py:379-400 | inlining preserves meaning: a body lowered over the argument expressions has the value of the Python call, in any function environment, recursive ones included |
| TranspilerCorrect.IntHolds | python/dftracer/utils/_transpile.py:257-282 | an honest claim of int-ness is true: the Python value is an int |
| TranspilerCorrect.ChainCorrect | python/dftracer/utils/_transpile.py:349-377 | a chained comparison lowered to a conjunction of links has Python's value, which stops at the first false link |
| TranspilerCorrect.BoolCorrect | python/dftracer/utils/_transpile.py:207-212 | `and` / `or` lowered to bitwise folds have Python's short-circuit value |
| Agreement.FoldHolds | python/dftracer/utils/_transpile.py:439-448 | `min` / `max` lowered to a fold of selects pick the value Python picks |
| Agreement.BinHolds | python/dftracer/utils/_transpile.py:221-255 | lowered `+ - * / // % **` give Python's value: floor quotient, divisor-signed remainder, integer power, with or without the Int64 cast |
| Agreement.OrdinaryExact | src/dftracer/utils/dataframe/kernels/comparison.cpp:19-54 | an expression without string literals, float constants compared, empty patterns and constant arms is one no kernel type changes a value in |
| PythonNumbers.FloorDivMod | python/dftracer/utils/_transpile.py:233-241 | a = q*b + r with r between 0 and b, the division `//` and `%` are lowered to |
| PythonNumbers.FloorOfQuotient | python/dftracer/utils/_transpile.py:233-236 | the floor of the real quotient is the integer floor division |
| PythonNumbers.RealModBounds | python/dftracer/utils/_transpile.py:238-240 | the remainder `%` is lowered to on floats is smaller than the divisor and has its sign |
| PythonNumbers.IntCompareExact | src/dftracer/utils/dataframe/kernels/comparison.cpp:19-54 | an integer column compared with a float constant agrees with the real comparison on every integer if and only if the constant is whole, or of a sign the operator tolerates |
| TranspilerPlain.TameLowersPlain | python/dftracer/utils/_transpile.py:163-176 | functions in which a name keeps its int-ness when assigned again, that search no global string with `in` call no global by a builtin's name and name nothing of their own like a constant global take no unfaithful branch |
| TranspilerPlain.OnceIsSteady | python/dftracer/utils/_transpile.py:163-176 | names assigned once on a path keep their int-ness, whatever they hold |
| TranspilerTypes.IntTyped | python/dftracer/utils/_transpile.py:257-282 | an expression of int-ness lowers to Int64, through every operator that int-ness looks into |
| TranspilerTypes.IntFunctionTyped | python/dftracer/utils/_transpile.py:499-510 | a tame function or lambda, of a row or of one value, that returns expressions of int-ness alone comes back as an Int64 column |
| TranspilerForms.TranspilesExactly | python/dftracer/utils/_transpile.py:141-482 | a function is lowered if and only if it has one parameter and its body is in a grammar given by syntax and names alone: what may stand where, the exponents, the arguments of each name, calls less than eight deep, and a return on every path |
| TranspilerForms.LowersExactly | python/dftracer/utils/_transpile.py:183-255 | the same for expressions |
| TranspilerForms.IntExactly | python/dftracer/utils/_transpile.py:257-282 | which expressions are of int-ness, by syntax and names alone |
| TranspilerForms.InlinedParameters | python/dftracer/utils/_transpile.py:379-400 | an inlined call knows each parameter by the argument of its position, its expression or constant and its int-ness, and nothing of the caller's row or locals |
| PythonNames.ExtremeMeans | python/dftracer/utils/_transpile.py:439-448 | for any arguments `min` is the first of the least and `max` the first of the greatest |
| PythonNames.CallMeans | python/dftracer/utils/_transpile.py:437-457 | `abs` is the size, `int` the whole number next to it toward zero, `round` the nearest with ties to even, `float` the number itself, `len` the number of characters |
| PythonNames.RoundsUnique | python/dftracer/utils/_transpile.py:437-466 | no two whole numbers are both the floor, both the ceiling, both the truncation or both the nearest |
| PythonNames.LiteralMeans | python/dftracer/utils/_transpile.py:183-187 | a literal is its own value |
| PythonNames.ArithmeticMeans | python/dftracer/utils/_transpile.py:221-241 | `+ - * / // %` on numbers: defined but for a division by zero, whole of whole operands but for `/`, a floor quotient and a remainder of the divisor's sign |
| PythonNames.PowerTakes | python/dftracer/utils/_transpile.py:242-254 | where a power is defined, and the square root it is for one half |
| PythonNames.PowerSteps | python/dftracer/utils/_transpile.py:242-254 | the power of zero is one and each step up a factor more |
| PythonNames.NegationMeans | python/dftracer/utils/_transpile.py:199-203 | negation keeps the kind of a number |
| PythonNames.BoolNumbers | python/dftracer/utils/_transpile.py:437-466 | a flag counts as one or zero, on both sides |
| PythonNames.MathMeans | python/dftracer/utils/_transpile.py:461-466 | `math.floor`, `ceil`, `sqrt`, `log` and `exp` for any argument |
| PythonNames.CompareMeans | python/dftracer/utils/_transpile.py:349-377 | the six comparisons order numbers by value and compare strings for equality |
| PythonNames.ChainMeans | python/dftracer/utils/_transpile.py:349-377 | a chain is false where its first link is, and otherwise the rest of the chain |
| PythonNames.MethodMeans | python/dftracer/utils/_transpile.py:467-480 | the string methods by decomposition: what a string begins and ends with, which spaces a strip takes away and from where |
| PythonNames.FieldMeans | python/dftracer/utils/_transpile.py:284-294 | `r["k"]` and `r.k` are the row's field |
| PythonNames.BindAt | python/dftracer/utils/_transpile.py:379-400 | each parameter is bound to the argument of its position |
| PythonNames.BranchMeans | python/dftracer/utils/_transpile.py:215-216 | a branch takes its first arm on a number other than zero and on a string other than the empty one |
| PythonNames.AndOrMeans | python/dftracer/utils/_transpile.py:207-212 | `and` and `or` yield the operand that decides |
| PythonNames.MemberMeans | python/dftracer/utils/_transpile.py:413-428 | `in` finds an element equal to the value |
| PythonNames.SubstringIn | python/dftracer/utils/_transpile.py:413-417 | `in` a string finds where the other occurs |
| PythonNames.IsNoneMeans | python/dftracer/utils/_transpile.py:402-411 | `is None` and `is not None` |
| PythonNames.NameMeans | python/dftracer/utils/_transpile.py:303-332 | a name is the function's own binding, and otherwise a number or string of the globals unless the function owns it |
| PythonNames.StatementsRun | python/dftracer/utils/_transpile.py:153-181 | assignments bind, branches run an arm and go on where it falls through, returns end the run |
| PythonNames.CallRunsBody | python/dftracer/utils/_transpile.py:379-400 | a call runs the callee's body with each parameter bound to its argument |
| PythonNames.FallsToNone | python/dftracer/utils/_transpile.py:153-181 | a body that falls off its end, or returns nothing, gives None |
| PythonNames.RunsAssign | python/dftracer/utils/_transpile.py:163-176 | a run binds only names the body assigns, and leaves the others alone |
| EngineNames.CallOnCell | python/dftracer/utils/_transpile.py:437-457 | lowered and run on a number cell, `abs`, `int`, `float` and `round` give what their names say, in the column type they say |
| EngineNames.LenOnCell | python/dftracer/utils/_transpile.py:453-454 | `len` of a string cell is its number of characters |
| EngineNames.ExtremeOnCell | python/dftracer/utils/_transpile.py:439-448 | `min(x, c)` is x or c and at most both, `max(x, c)` at least both |
| EngineNames.ExtremeOfFloat | python/dftracer/utils/_transpile.py:439-448 | the same for a float constant |
| EngineNames.RoundingOnCell | python/dftracer/utils/_transpile.py:461-466 | `math.floor` and `math.ceil` of a number cell are its floor and its ceiling |
| EngineNames.MathOnCell | python/dftracer/utils/_transpile.py:461-466 | `math.sqrt`, `log` and `exp` of a cell are the shared functions of its number |
| EngineNames.CompareOnCell | python/dftracer/utils/_transpile.py:349-377 | `x op c` and `c op x` on a number cell are the comparison, whichever side the constant is on |
| EngineNames.WholeOnCell | python/dftracer/utils/_transpile.py:233-241 | on an integer cell `//` and `%` are integers, quotient and remainder of the divisor's sign |
| EngineNames.CaseOnCell | python/dftracer/utils/_transpile.py:469-470 | `lower` and `upper` change the letters of one ASCII alphabet into those of the other and nothing else |
| EngineNames.StripOnCell | python/dftracer/utils/_transpile.py:469-470 | the strips take away the engine's spaces at the ends they name and nothing else |
| EngineNames.EndsOnCell | python/dftracer/utils/_transpile.py:471-475 | `startswith` and `endswith` tell what the cell begins and ends with |
| EngineNames.FieldOnRow | python/dftracer/utils/_transpile.py:334-347 | `r["k"]` and `r.k` lower to the column of that name |
| EngineMeaning.UnTakes | src/dftracer/utils/dataframe/expr.cpp:543-755 | the column types each one-operand node takes |
| EngineMeaning.ArithTakes | src/dftracer/utils/dataframe/expr.cpp:790-832 | which operands arithmetic takes and the type it yields |
| EngineMeaning.LogicalTakes | src/dftracer/utils/dataframe/kernels/logical.cpp:86-99 | `and` and `or` take two Bool columns |
| EngineMeaning.SelectTakes | src/dftracer/utils/dataframe/expr.cpp:851-905 | which arms a select takes and the type they meet at |
| EngineMeaning.NullsSpread | src/dftracer/utils/dataframe/kernels/arithmetic.cpp:309-325 | through arithmetic, comparisons and string functions a row's value is null if and only if a column read is |
| EngineMeaning.NullsStop | src/dftracer/utils/dataframe/kernels/predicate.cpp:138-170 | a null test and a membership answer on a null |
| EngineMeaning.LogicalAnswers | src/dftracer/utils/dataframe/kernels/logical.cpp:86-149 | the logical nodes answer with a flag whatever their operands hold, and on flags as logic has it |
| EngineMeaning.SelectPicks | src/dftracer/utils/dataframe/kernels/filter.cpp:563-590 | a select yields the arm its condition picks, a null condition the second |
| EngineMeaning.SelectKeeps | src/dftracer/utils/dataframe/expr.cpp:851-905 | number arms of different types keep their numbers |
| EngineMeaning.SignMeans | src/dftracer/utils/dataframe/kernels/elementwise.cpp:117-135 | the sign of a number cell, and its opposite |
| EngineMeaning.TruncMeans | src/dftracer/utils/dataframe/kernels/elementwise.cpp:85-114 | truncation goes to the whole number on the side of zero |
| EngineMeaning.FiniteMeans | src/dftracer/utils/dataframe/kernels/predicate.cpp:96-135 | an exact real is finite, and no infinity or no-number |
| TranspilerLimits.LeakedIntness | python/dftracer/utils/_transpile.py:166-176 | a concrete function the lowering gets wrong because int-ness outlives its branch |
| TranspilerLimits.ModCastExact | python/dftracer/utils/_transpile.py:238-241 | the Int64 cast of a remainder keeps Python's value if and only if the remainder is whole |
| TranspilerLimits.ShadowedBuiltin | python/dftracer/utils/_transpile.py:430-457 | a function the lowering gets wrong because a builtin's name is a global of its own: it agrees with Python if and only if it does not call it |
| TranspilerLimits.SharedName | python/dftracer/utils/_transpile.py:303-319 | a function whose parameter is named like a global constant that is also an attribute in its body: the lowering reads the global, and agrees with Python if and only if the argument is that constant |
| TranspilerLimits.StringArgument | python/dftracer/utils/columnar.py:1564-1568 | a concrete function whose string argument the engine takes as the number it reads as |
| TranspilerLimits.StringLiteralExact | python/dftracer/utils/columnar.py:1564-1568 | a string literal is accepted if and only if it reads as an integer, and the cell is then that integer and never the string |
| TranspilerLimits.ReplaceMethodExact | python/dftracer/utils/_transpile.py:476-480 | `replace` lowers to the engine's, and gives Python's string, whatever the string, if and only if the pattern is not empty or nothing replaces it |
| TranspilerLimits.TextMethodExact | python/dftracer/utils/_transpile.py:469-470 | a case or strip method lowers to the engine's, and gives Python's string if and only if both sides treat the string alike |
| Text.ReplaceExact | src/dftracer/utils/dataframe/kernels/string_ops.cpp:408-426 | the engine's and Python's replacement of a string agree if and only if the pattern is not empty, or nothing is put in its place |
| Text.ReplaceLiteral | src/dftracer/utils/dataframe/kernels/string_ops.cpp:408-426 | the kernel's loop from occurrence to occurrence replaces the leftmost occurrences, none overlapping, all of them or the first |
| Text.TextExact | src/dftracer/utils/dataframe/kernels/string_ops.cpp:286-406 | the engine's case fold or strip gives Python's string if and only if the characters it maps beyond ASCII are their own case, and its ends hold no space that only Python strips |
| Text.SubstringMeans | src/dftracer/utils/dataframe/kernels/string_ops.cpp:408-426 | a string occurs in another if and only if the other is something before it, it, and something after |
| Text.FoldMeans | src/dftracer/utils/dataframe/kernels/string_ops.cpp:286-306 | the case fold changes the letters of one ASCII alphabet into those of the other, letter for letter |
| Text.StripMeans | src/dftracer/utils/dataframe/kernels/string_ops.cpp:393-406 | each strip takes away the spaces at its ends, and nothing more |
| Text.SpacesMean | src/dftracer/utils/dataframe/kernels/string_ops.cpp:388-391 | the characters each side strips, by code |
| Text.IntTextReads | python/dftracer/utils/columnar.py:1564-1568 | a number written in decimal, signed or not, reads as itself |
| Text.IntTextTakes | python/dftracer/utils/columnar.py:1564-1568 | what reads as an integer is digits and underscores, a digit first and last, perhaps signed, between spaces |
| TranspilerLimits.GlobalStringExact | python/dftracer/utils/_transpile.py:413-428 | membership in a global string agrees with Python if and only if it is a character, or no substring |
| TranspilerLimits.GlobalStringSearch | python/dftracer/utils/_transpile.py:413-428 | the function that searches a global string lowers to that membership, and agrees with Python on a string if and only if it is one character or occurs nowhere |
| TranspilerLimits.CompareConstantExact | src/dftracer/utils/dataframe/kernels/comparison.cpp:19-54 | the kernel's cells for an integer column compared with a float constant are Python's on every integer if and only if the constant is whole or of a sign the operator tolerates |
| TranspilerLimits.BoolArmExact | src/dftracer/utils/dataframe/expr.cpp:1008-1015 | a number broadcast into a Bool column keeps its value if and only if it is 0 or 1 |
| LoweringClass.Lowering.LowerStmts | python/dftracer/utils/_transpile.py:153-181 | the stateful lowering of statements, its two maps updated in place, is the specified one |
| LoweringClass.Lowering.LowerC | python/dftracer/utils/_transpile.py:349-377 | the comparison loop is the specified conjunction |
| LoweringClass.Lowering.LowerInline | python/dftracer/utils/_transpile.py:379-400 | inlining through a fresh lowering object is the specified inlining |
| LoweringClass.Lowering.LowerExtreme | python/dftracer/utils/_transpile.py:439-448 | the `min` / `max` loop is the specified fold |
| Exprs.TypeSound | src/dftracer/utils/dataframe/expr.cpp:538-986 | an expression the engine's compiler accepts never faults on a row, and yields the column type inferred |
| PostOrder.EmitAst | python/dftracer/utils/columnar.py:1563-1655 | the emitter appends exactly the post-order tuples of the core tree, and refuses exactly the expressions with no core tree |
| PostOrder.RebuildPost | src/dftracer/utils/python/columnar_eval.cpp:120-310 | from any operand stack and before any further tuples, the tuples of a tree push exactly that tree |
| PostOrder.Decodes | src/dftracer/utils/python/columnar_eval.cpp:120-310 | the rebuilt tree is the serialized one, and no two trees serialize alike |
| PostOrder.CoreMeans | python/dftracer/utils/columnar.py:1563-1655 | the case-insensitive forms, the negated membership and positions for names keep the value on every row |
| PostOrder.CoreTypes | python/dftracer/utils/columnar.py:1563-1655 | the engine accepts the core tree exactly when it accepts the expression |
| PostOrder.CoreDefined | python/dftracer/utils/columnar.py:1583-1655 | with its columns resolvable, an expression serializes if and only if it is made of serializable nodes |
| PostOrder.Seen.Walk | python/dftracer/utils/columnar.py:2735-2770 | the collecting walk over a growing list is the specified collection |
| PostOrder.CollectReads | python/dftracer/utils/columnar.py:2735-2770 | without column ops, each column the evaluator reads is collected exactly once, and nothing else |
| PostOrder.CollectGathers | python/dftracer/utils/columnar.py:2735-2770 | the collection fails exactly on a case-insensitive regex, and otherwise holds the names read outside aggregates, and of a column op those of its operands and its keys, each once, in order of first occurrence |
| PostOrder.EvalReads | python/dftracer/utils/columnar.py:1448-1467 | evaluation agrees on any two rows equal on the collected columns |
| PostOrder.SharedInputs | python/dftracer/utils/columnar.py:1522-1546 | over the shared union of inputs an expression has the value it has over its own |
| PostOrder.UnionColumns | python/dftracer/utils/columnar.py:1529-1535 | the union holds every expression's columns and no other, each once, in order of first occurrence |
| Apply.EvalExprMeans | python/dftracer/utils/columnar.py:1448-1473 | through tuples, positions and rebuilding, each row's cell is the expression's own value; it succeeds if and only if the engine accepts the expression and it reads a column |
| Apply.NullRule | python/dftracer/utils/_apply.py:116-123 | a null element gives a null result, any other the expression's value |
| Apply.TracedSeries | python/dftracer/utils/_apply.py:103-106 | the tier tried first: a traced expression fails exactly where the engine refuses it or it reads no column, else gives one cell per element, null where the element is, and elsewhere the expression's value on it |
| Apply.TracedRows | python/dftracer/utils/_apply.py:283-287 | the same for rows, where every row has the expression's own value |
| Apply.KnownMeans | python/dftracer/utils/_apply.py:107-109 | an expression is run on the source if and only if it holds no case-insensitive regex and collects only columns of it |
| Apply.ApplySeriesCorrect | python/dftracer/utils/_apply.py:87-113 | on the lowered tier and on the Python tier alike, `apply` is the element-wise map with missing kept missing, on the engine over strings both sides treat alike |
| Apply.ApplySeriesFails | python/dftracer/utils/_apply.py:87-113 | when it raises: exactly when the engine refuses the expression, or it reads no column, or a Python call raises |
| Apply.ConstantFunctionFails | python/dftracer/utils/columnar.py:1468-1473 | a constant function raises on every column although Python maps it |
| Apply.ApplyRowsCorrect | python/dftracer/utils/_apply.py:280-296 | `apply(axis=1)` gives, row by row in order, what Python returns on the row, on the engine over strings both sides treat alike |
| Apply.ApplyRowsFails | python/dftracer/utils/_apply.py:280-296 | when `apply(axis=1)` raises: exactly when the engine refuses the expression, or it reads no column, or a Python call raises |
| GroupBy.Splitter.Run | python/dftracer/utils/columnar.py:1110-1129 | the rewriter and the list it appends to are the specified split |
| GroupBy.SplitLeaves | python/dftracer/utils/columnar.py:1110-1135 | there are aggregates to evaluate if and only if the expression has a leaf, and none is left |
| GroupLowering.SplitMeans | python/dftracer/utils/columnar.py:1110-1129 | over rows carrying the aggregates' columns the rewritten expression, column ops run over those rows, means the original with its leaves read as those aggregates |
| GroupLowering.SplitTakes | python/dftracer/utils/columnar.py:1110-1129 | the rewritten expression can be evaluated over those rows if and only if the original can, given its leaves |
| GroupBy.AggNamesDiffer | python/dftracer/utils/columnar.py:1117-1121 | each aggregate has a column name of its own |
| GroupBy.JoinSorted | python/dftracer/utils/dataframe.py:684-723 | a join on group labels in any order, sorted by row number, is each matching row once in input order |
| GroupBy.GroupOfRow | python/dftracer/utils/columnar.py:2258-2269 | a row's group is the rows that agree with it on every key, in input order, a null agreeing with a null of its type |
| GroupBy.LabelNonNull | python/dftracer/utils/dataframe.py:684-723 | a row can be joined if and only if none of its keys is null |
| GroupBy.RowsWhereTakes | python/dftracer/utils/dataframe.py:684-723 | rows chosen by a test are the rows at the positions that satisfy it, ascending |
| GroupLowering.FilterMasks | python/dftracer/utils/columnar.py:2483-2498 | the lowered filter of any condition, column ops included: refused exactly where it takes none, else the rows with non-null keys whose group's row satisfies it, in input order, each once |
| GroupLowering.FilterLowered | python/dftracer/utils/columnar.py:2483-2498 | for a condition over aggregates alone: the rows whose keys are not null and whose group satisfies it, in input order, each once |
| GroupLowering.FilterAggregate | python/dftracer/utils/columnar.py:2483-2498 | a bare aggregate keeps, in input order, exactly the rows with non-null keys whose group's aggregate is a number other than zero |
| GroupLowering.FilterExpression | python/dftracer/utils/columnar.py:2487-2498 | any other condition over aggregates keeps exactly the rows with non-null keys on whose group's aggregates it is true |
| GroupLowering.TouchesMeans | python/dftracer/utils/columnar.py:2468-2472 | the per-row branch is taken if and only if a collected name is a column of the frame |
| GroupLowering.FullLikeKeeps | python/dftracer/utils/columnar.py:2477-2480 | a broadcast aggregate keeps its number, as a float in a float column |
| GroupBy.FilterPython | python/dftracer/utils/columnar.py:2531-2537 | the group-by-group filter yields every row, in input order, whose group the function holds of |
| GroupBy.Groups | python/dftracer/utils/columnar.py:2258-2269 | the dictionary has each label once, in order of appearance, with its row positions ascending |
| GroupLowering.FilterAgrees | python/dftracer/utils/columnar.py:2483-2537 | the lowered and the Python filter are equal if and only if no row with a null key is in a group that satisfies the condition |
| GroupLowering.ApplyAggregate | python/dftracer/utils/columnar.py:2457-2458 | a bare aggregate gives one row per group with the aggregate of its rows, every non-null label once |
| GroupLowering.ApplyPlain | python/dftracer/utils/columnar.py:2464-2466 | a function with no aggregate is `Expr.apply` on the frame |
| GroupLowering.ApplyPerRow | python/dftracer/utils/columnar.py:2467-2481 | a function that reads a column, inside a column op or outside, gives one value per row with non-null keys in input order, its aggregates those of the row's group and its column ops run over those rows; one per input row if and only if no key is null; it raises exactly where it cannot be evaluated |
| GroupLowering.ApplyPerGroup | python/dftracer/utils/columnar.py:2467-2471 | a function that reads no column beside its aggregates gives one row per group with the function's value, every non-null label once, the value being the group's own where Python can run the function on a group; it raises exactly where it cannot be evaluated |
| GroupLowering.ApplyWhole | python/dftracer/utils/columnar.py:2472-2481 | without keys each row's value is the function's, its aggregates broadcast as constant columns; it raises exactly when an aggregate is not a number or the function cannot be evaluated |
| GroupLowering.RowByRowAgrees | python/dftracer/utils/columnar.py:2455-2528 | where every column op works row by row, each row's lowered value is the one the function gives it over its group alone |
| GroupLowering.ElementwiseExact | python/dftracer/utils/columnar.py:2455-2528 | every group function built of an operation is lowered to its group by group run, on every frame, if and only if the operation works row by row |
| GroupLowering.ShareRunsOn | python/dftracer/utils/columnar.py:2481 | a running sum over a group's sum, on two groups: 3 / 2 where the group by group run gives 2 / 2 |
| ColumnOps.OpSplitter.Run | python/dftracer/utils/_expr_ops.py:146-177 | the rewriter and the list of operations it appends to are the specified lifting |
| ColumnOps.LiftClears | python/dftracer/utils/_expr_ops.py:138-177 | the rewritten expression has no column op, and there are temporaries if and only if there was one |
| ColumnOps.LiftPlaces | python/dftracer/utils/_expr_ops.py:146-177 | each temporary's operands are op-free and refer to source columns and earlier temporaries only |
| ColumnOps.AggregateOver | python/dftracer/utils/_expr_ops.py:231-248 | an aggregate over keys gives each row the aggregate of the rows that agree with it on every key |
| ColumnOps.AggregateWhole | python/dftracer/utils/_expr_ops.py:231-245 | over no keys it gives the aggregate of all rows, as a float |
| ColumnOps.OperationRuns | python/dftracer/utils/_expr_ops.py:207-211 | an operation runs once over its whole operand columns, with the parameters it was built with |
| ColumnOps.TransformOver | python/dftracer/utils/_expr_ops.py:217-228 | a transform over keys runs once over the whole column, told each row's group by all its keys |
| ColumnOps.LiftMeans | python/dftracer/utils/_expr_ops.py:146-177 | over the frame reached after its temporaries, however they were computed, the rewritten expression means the nested one on every row |
| ColumnOps.LiftRuns | python/dftracer/utils/_expr_ops.py:188-214 | every op of the nested expression can run if and only if every temporary can |
| ColumnOps.EvalWithColumnOps | python/dftracer/utils/_expr_ops.py:188-214 | the loop over the temporaries is the specified `Expr.apply`, with the direct meaning on every row |
| ColumnOps.ExprApplyMeans | python/dftracer/utils/_expr_ops.py:188-214 | `Expr.apply` yields the direct meaning on every row, and yields it exactly when every op's operands read known columns, its group-wise form exists and no aggregate over keys meets a null key |
| ColumnOps.LiftPlans | python/dftracer/utils/_expr_ops.py:263-296 | a plan takes every op of the nested expression if and only if it takes every temporary |
| ColumnOps.JoinedBackValues | python/dftracer/utils/_expr_ops.py:231-248 | an aggregate over keys joined back is the group's value of each row with non-null keys, in input order, full length if and only if no key is null |
| ColumnOps.EagerAggMeans | python/dftracer/utils/_expr_ops.py:231-248 | an eager aggregate over keys runs exactly when its keys and columns are the source's and, without keys, it is a number; it gives the group's value of each row with non-null keys, in input order |
| ColumnOps.EagerAggNeeds | python/dftracer/utils/_expr_ops.py:231-240 | it does not run where the source lacks a key, or a column its value or its `by` reads |
| ColumnOps.LazyOverMeans | python/dftracer/utils/_expr_ops.py:312-327 | the plan's transform, numbered, left-joined on the row number and sorted, puts each value back on its row |
| ColumnOps.LazyAggMeans | python/dftracer/utils/_expr_ops.py:299-309 | the plan's aggregate over keys keeps the rows with non-null keys, in order, each with its group's value |
| ColumnOps.LowerColumnOps | python/dftracer/utils/_expr_ops.py:263-296 | there is a plan exactly when every op has known operands and keys, a group-wise form where it is over keys, and keys where it is an aggregate; then the rewritten expression means the nested one on every row, with source rows and columns kept and the other columns exactly the temporaries listed; the plan keeps all rows if and only if no aggregate over keys meets a null key |
| LikePatterns.EscapeLike | python/dftracer/utils/columnar.py:934-940 | the escaping loop computes the specified escape |
| LikePatterns.SpecialMeans | python/dftracer/utils/columnar.py:934-940 | the three characters that are escaped |
| LikePatterns.EscapedClassifies | python/dftracer/utils/columnar.py:934-940 | an escaped string is classified as its own characters whatever follows it |
| LikePatterns.PushedDownExactly | python/dftracer/utils/columnar.py:952-964 | the patterns built for contains, starts_with and ends_with match a value if and only if the literal is a substring, prefix or suffix of it |
| LikePatterns.ClassifyLike | src/dftracer/utils/dataframe/kernels/string_ops.cpp:473-488 | the classification loop computes the specified tokens |
| LikePatterns.LikeMeans | src/dftracer/utils/dataframe/kernels/string_ops.cpp:462-500 | LIKE by the text of the pattern, a character at a time: one character, any run, an escaped character, a last backslash, any other character |
| LikePatterns.GlobMatch | src/dftracer/utils/dataframe/kernels/string_ops.cpp:493-521 | the two-pointer matcher that backtracks to the last run only decides the recursive meaning of the pattern |
| LikePatterns.StrLike | src/dftracer/utils/dataframe/kernels/string_ops.cpp:656-711 | equality, affix and substring shortcuts included, a value matches if and only if the pattern means so |
| Paging.MergedSmallest | python/dftracer/utils/dask.py:419-434 | the smallest page over the shards' truncated pages is the smallest page over the shards, ties in any order |
| Paging.PageSmallest | python/dftracer/utils/dask.py:813-841 | a page is the smallest of all events from the cursor on, and is short only when nothing is left |
| Paging.PagesOf | python/dftracer/utils/dask.py:843-853 | the pages end, ascend strictly, and yield events in order and at most once; all of them if and only if no multiple of the page size falls inside a run of equal timestamps |
| Paging.DocumentedAssumptionFails | python/dftracer/utils/dask.py:813-819 | a page size above every run of equal timestamps is not enough |
| SingleFlight.NextInv | benchmarks/member_cache_bench.cpp:88-112 | every step of every call keeps one owner per mutex, each waiter queued once, at most one decode per key and one value for its completed calls |
| SingleFlight.DecodedOnce | benchmarks/member_cache_bench.cpp:88-112 | in every interleaving a key is decoded at most once, every completed call for it has the stored value, and one call at most holds its mutex |
| SingleFlight.ServedDecoded | benchmarks/member_cache_bench.cpp:95-110 | told by the steps of a run alone: no key is decoded by two steps, and a completed call has the value of the one step that decoded its key |
| SingleFlight.WordTells | include/dftracer/utils/core/coro/async_mutex.h:63-78 | the mutex word tells whether it is held and who came last |
| SingleFlight.FirstComeFirstServed | include/dftracer/utils/core/coro/async_mutex.h:116-183 | the arrival stack and the reversed waiter list together are one first-come-first-served queue |
| SingleFlight.MeasureShrinks | benchmarks/member_cache_bench.cpp:135-156 | every step, a failed compare-exchange included, shrinks a measure |
| SingleFlight.RunsAreBounded | benchmarks/member_cache_bench.cpp:135-156 | no interleaving of n calls is longer than 8n(n+1) steps |
| SingleFlight.NoDeadlock | benchmarks/member_cache_bench.cpp:88-112 | while a call is not done, some call can step |
| SingleFlight.AllAnswered | benchmarks/member_cache_bench.cpp:88-156 | a run that cannot go on has answered every call, each requested key decoded by exactly one step of the run and every call given the value that step decoded |
| ChunkDispatch.JoinedRan | benchmarks/dataframe_parallel_bench.cpp:52-70 | after the join, in every interleaving, the body has run exactly once per chunk and the counter is the chunks plus the threads, or plus one where there are none |
| ChunkDispatch.Progress | benchmarks/dataframe_parallel_bench.cpp:57-65 | every step shrinks a measure, and a worker still in its loop can step |
| ChunkDispatch.ChunksTile | benchmarks/dataframe_parallel_bench.cpp:55-63 | chunk ranges are nonempty, every position is in exactly one, and a chunk's number is its begin over the grain |
| ChunkDispatch.EveryRowOnce | benchmarks/dataframe_parallel_bench.cpp:52-70 | every row is given to the body exactly once |
| ProcessCounts.Counts.Add | examples/plugins/process_counts.c:28-45 | the array holds the specified table after an addition, grown to 8 entries and then doubled |
| ProcessCounts.Counts.OnBatch | examples/plugins/process_counts.c:52-66 | a batch adds one per row, nothing without a uint64 pid column |
| ProcessCounts.Counts.Merge | examples/plugins/process_counts.c:68-73 | merging adds the other slice's entries and leaves that slice as it was |
| ProcessCounts.Counts.Finalize | examples/plugins/process_counts.c:85-91 | the exchange sort leaves the same entries strictly ascending by pid |
| ProcessCounts.RunSchedule | examples/plugins/process_counts.c:47-73 | the plugin run along any schedule of slices and merges ends in the schedule's table |
| ProcessCounts.ResultTallies | examples/plugins/process_counts.c:28-73 | any schedule's table counts exactly its rows: each pid once, no pid without rows, the counts summing to the rows |
| ProcessCounts.ScheduleIndependent | examples/plugins/process_counts.c:28-91 | two schedules over the same rows finalize to one array |
| Namespaces.NamespaceParts | docs/scripts/generate_api_index.py:383-397 | the loop takes the longest run of parts from the front that start with a lower-case letter |
| Namespaces.NamespaceMeans | docs/scripts/generate_api_index.py:374-398 | a function's namespace is its own, any other item's the longest lower-case run its name starts with |
| Namespaces.LowerMeans | docs/scripts/generate_api_index.py:390-391 | the letters a namespace part may start with |
| Namespaces.ParentLive | docs/scripts/generate_api_index.py:400-409 | visited deepest first, a parent that is a key can still take its child's items |
| Namespaces.SizeGrown | docs/scripts/generate_api_index.py:400-409 | whatever the order of the visit, a namespace ends with its own items and those of its children that stay small |
| Namespaces.DiscoverModules | docs/scripts/generate_api_index.py:368-418 | the modules are the root and the namespaces that grow to three items or more; each holds its own items first and in order and then only items below it, as many as it grows to, and no item twice; every item is listed if and only if every namespace that stays small has its parent among the names, as it has when the names are closed under parents |
| PageOrder.Order.Visit | docs/scripts/generate_llms.py:189-195 | the recursive walk over the shared set and list is the specified walk |
| PageOrder.WalkExactly | docs/scripts/generate_llms.py:189-195 | what a walk adds is exactly what the unseen part of the toctree reaches |
| PageOrder.WalkPreorder | docs/scripts/generate_llms.py:189-195 | each page opens a block of exactly the pages it reaches past those before it |
| PageOrder.WalkIsWorklist | docs/scripts/generate_llms.py:189-195 | the recursion visits in the order of a depth-first worklist that takes children as listed |
| PageOrder.OrderedPages | docs/scripts/generate_llms.py:183-198 | the root first, each reachable page exactly once and nothing else, in preorder |
| PageOrder.OutlineWalks | docs/scripts/generate_llms.py:136-143 | the outline lists the walk's pages in its order, each nested under a page that includes it |
| PageOrder.Section.Subtree | docs/scripts/generate_llms.py:136-143 | the recursive outline over a shared set is the specified outline |
| Distribution.ShardRanges | python/dftracer/utils/dask.py:718-724 | for any worker count the clipped ranges tile the shards end to end, each nonempty and no longer than the shards over the workers rounded up, all as long as the first but perhaps the last |
| Distribution.ScanMembers | python/dftracer/utils/dask.py:1237-1263 | dealt round-robin, scanned by workers and stitched back, the member map is that of one scan in order |
| Distribution.RoundRobin | python/dftracer/utils/dask.py:1273-1279 | every file is one whole unit, with the worker of its remainder |
| Distribution.ClampMeans | python/dftracer/utils/dask.py:1280-1318 | a clamped slice holds exactly the file's members its unit names, and says whether it starts late |
| Distribution.RoundRobinBuild | python/dftracer/utils/dask.py:1237-1318 | every member of every file is built exactly once, for any number of workers, each file by the worker of its remainder with all of its scanned members, and clamping cuts nothing |

## Left out

- Tracing a function on symbolic values: the expression it yields enters `ApplySeries`, `LowerFilter` and `LowerApply` as given.
- RowFunctionCorrect: says nothing of runs that raise, of ordering strings, or of `==` and truth tests on None, which the engine does not answer as Python does.
- StringArgument: `int` of a string is modelled for ASCII digits and spaces.
- Agreement.BinHolds: needs a nonzero divisor, where Python raises and the engine does not.
- Casts between strings and numbers, what Python's case mapping does beyond ASCII, and integer widths with their wrap-around; every integer column is Int64 and unbounded.
- Floating-point rounding, NaN and infinities; `sqrt`, `log` and `exp` are unknown functions.
- Text.TextExact: strings are characters, where the kernels work on their UTF-8 bytes; a character's bytes occur only as that character.
- The engine's slot program, common-subexpression sharing and chunked evaluation: an accepted expression is taken to evaluate row by row.
- EvalWithColumnOps: an operand of a type the engine refuses is not told apart from one that yields unusable cells; a column made shorter by null keys is a failure rather than a misaligned column; `EagerAggMeans` has the rows it holds.
- LowerColumnOps: a plan is the rows it yields; deferred execution is not modelled.
- FilterAgrees: a condition with a column op over aggregates has no group by group run, as a number has no column ops; FilterMasks says what its lowering does.
- RowByRowAgrees: compares values row by row; the Python tier concatenates them group after group where the lowering keeps input order. An `over` inside a group function is lowered as ApplyPerRow says, and not compared with the group by group run.
- ApplyPerRow: an expression of a type the engine refuses is not told apart from one that yields unusable cells.
- The query language's parser and value quoting: `PushedDownExactly` is about patterns, not the text that carries them.
- LikePatterns.GlobMatch: characters are single bytes, so `_` takes one byte of a multi-byte character.
- `_apply_python`, `resample`, `rolling` and the other group methods, which are compositions of what is modelled.
- The LPT work plan, artifact registry, staging and Dask failures of `distributed_index`.
- SingleFlight: a compare-exchange does not fail spuriously, decoding does not fail, and lock-operation addresses are not reused while one is queued.
- The `AsyncOnce` strategy, whose primitive is a separate design.
- ProcessCounts: `realloc` does not fail, and the emitted text is the sorted array.
- Namespaces: parts of a name hold no dot, and lower case is ASCII.
- Titles, links and text of the generated documentation.
