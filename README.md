# Hybrid grounding builtins of DC-ProbLog

This project models the builtins that DC-ProbLog (distributional-clause
ProbLog) adds to the ProbLog grounder, in
`problog/tasks/dcproblog/engine_builtin.py`. They handle programs that mix
discrete logic with continuous random variables:

- `is/2` evaluates an arithmetic expression.
- `</2`, `>/2`, `=</2` and `>=/2` compare two expressions.
- `observation/2` conditions on an observed value.
- `query_density/1` asks for the density of a random variable.

Evaluating an expression gives a list of *alternatives*: pairs `(value,
support node)`. Each support node is a reference into the circuit under
construction (`target`). Node `0` means "always true" and `None` means
"false". A value is one of:

- a number;
- a symbolic expression;
- the canonical handle of one grounding of a random variable, whose
  `components` are one component constant per dimension;
- one such component;
- a vector.

The core's helpers are also modelled:

- `evaluate_arithemtics`, the argument evaluator;
- `compute_function`, which builds the product of the argument alternatives
  and conjoins their supports;
- `get_distribution`, the handle cache;
- `make_comparison_args` and `make_comparison`, the comparison compiler.

Module layout:

- `values.dfy` (`Values`): values, terms, errors, and the interfaces of the
  two collaborators. These are the host grounder with its function tables,
  and the backend's `get_density_name`, `create_ast_representation` and
  `str`.
- `circuits.dfy` (`Circuits`): the circuit state as a value. It holds the
  nodes, the atom table keyed by identifier, and the density cache. It also
  gives the Boolean meaning of a node (`Eval`). The class `Circuit` is the
  mutable `target`; its methods are proved equal to the value-level
  operations.
- `resolver.dfy` (`Resolver`): `get_distribution`.
- `products.dfy` (`Products`): `itertools.product`, for n lists and for two
  lists.
- `evaluator.dfy` (`Evaluator`): `evaluate_arithemtics` and
  `compute_function`.
- `comparison.dfy` (`Comparison`): `make_comparison_args`,
  `make_comparison` and the four comparison builtins.
- `observation.dfy` (`Observation`): `_builtin_observation`.
- `density.dfy` (`DensityQuery`): `_query_density` and
  `_builtin_query_density`.
- `assignment.dfy` (`Assignment`): `_builtin_is`.

How the model is built:

- Every operation is a pure specification function over the circuit state.
- Each operation that loops or changes `target` is also an imperative
  method. A method's postcondition ties the new state and its result to the
  specification function.
- The properties are lemmas about the specification functions.

Conventions:

- `check_mode` groundness checks become preconditions (`IsGround`).
- A Python exception becomes an `Err` of the `Error` datatype.
- The host turns unbound variables into integers before calling a builtin.
  So `isinstance(a, int)` on the left side of `is/2` is modelled as "`a` is
  a `Var`".

## Model

| member | source | states |
|---|---|---|
| Values.ListRoundTrip | problog/tasks/dcproblog/engine_builtin.py:44-47 | `term2list(list2term(ts)) == ts`: a list built from vector components decodes back to those components |
| Values.ListDecodeEncode | problog/tasks/dcproblog/engine_builtin.py:44-47 | every term that `term2list` accepts is rebuilt exactly by `list2term` |
| Circuits.CircuitState.AddAtom | problog/tasks/dcproblog/engine_builtin.py:139 | `add_atom` returns the node already registered under an identifier; otherwise it appends one atom node and registers it; the density cache is untouched and validity is kept |
| Circuits.CircuitState.AddAnd | problog/tasks/dcproblog/engine_builtin.py:143 | `add_and` appends one AND node and returns its (truthy) id; the circuit only grows |
| Circuits.CircuitState.AddOr | problog/tasks/dcproblog/engine_builtin.py:148 | `add_or` appends one OR node and returns its (truthy) id; the circuit only grows |
| Circuits.AddAtomMeaning | problog/tasks/dcproblog/engine_builtin.py:139 | the node returned for an identifier is true exactly when that identifier is |
| Circuits.AddAndMeaning | problog/tasks/dcproblog/engine_builtin.py:143 | a new AND node is true exactly when all of its existing children are |
| Circuits.AddOrMeaning | problog/tasks/dcproblog/engine_builtin.py:148 | a new OR node is true exactly when one of its existing children is |
| Circuits.EvalExtends | problog/tasks/dcproblog/engine_builtin.py:139-148 | appending nodes never changes the meaning of an existing node |
| Circuits.AtomsDistinct | problog/tasks/dcproblog/engine_builtin.py:235-238 | in a valid circuit, distinct identifiers never share an atom node |
| Circuits.Circuit.AddAtom | problog/tasks/dcproblog/engine_builtin.py:139 | the mutable `add_atom` changes `target` exactly as `CircuitState.AddAtom` says |
| Circuits.Circuit.AddAnd | problog/tasks/dcproblog/engine_builtin.py:143 | the mutable `add_and` changes `target` exactly as `CircuitState.AddAnd` says |
| Circuits.Circuit.AddOr | problog/tasks/dcproblog/engine_builtin.py:148 | the mutable `add_or` changes `target` exactly as `CircuitState.AddOr` says |
| Circuits.Circuit.CacheDensity | problog/tasks/dcproblog/engine_builtin.py:323 | storing a handle changes only the density cache, and only under that name |
| Resolver.GetDistributionSpec | problog/tasks/dcproblog/engine_builtin.py:300-326 | the handle cached under the grounding's density name is returned; on first use a new handle is built from the distribution's functor, translated arguments, name and dimensions, and cached; only that cache entry changes; the grounding's node is passed through |
| Resolver.ResolveTwice | problog/tasks/dcproblog/engine_builtin.py:314-323 | resolving the same (variable, node) pair again gives the identical handle and changes nothing, even with another distribution description |
| Resolver.GetDistribution | problog/tasks/dcproblog/engine_builtin.py:300-326 | the method on `target` matches `GetDistributionSpec` in result and new state |
| Resolver.ResolveAllFacts | problog/tasks/dcproblog/engine_builtin.py:353-358 | resolving the grounder's results gives one alternative per grounding, in order, with that grounding's node; each handle is the one the final cache holds under its density name; nodes and atoms are unchanged |
| Resolver.ResolveAllCache | problog/tasks/dcproblog/engine_builtin.py:300-326 | resolving a sequence of groundings adds exactly their density names to the cache and leaves the handles already cached alone |
| Products.ProductLength | problog/tasks/dcproblog/engine_builtin.py:274 | `itertools.product(*lists)` has as many tuples as the product of the list lengths |
| Products.ProductMember | problog/tasks/dcproblog/engine_builtin.py:274 | a tuple is in the product exactly when it has one entry per list, each taken from its list |
| Products.ExtendIndex | problog/tasks/dcproblog/engine_builtin.py:274 | extending the tuples by one list puts tuple i extended by element j at position i * n + j, where n is the length of the new list (the last list varies fastest) |
| Products.PairsLength | problog/tasks/dcproblog/engine_builtin.py:250 | the product of two lists has as many pairs as the product of their lengths |
| Products.PairsAt | problog/tasks/dcproblog/engine_builtin.py:250 | pair `(xs[i], ys[j])` sits at position i * m + j, where m is the length of `ys` |
| Products.PairsMember | problog/tasks/dcproblog/engine_builtin.py:250 | a pair occurs exactly when its parts come from the two lists |
| Evaluator.EvaluatePassThrough | problog/tasks/dcproblog/engine_builtin.py:335-346 | a constant, a symbolic value, a random-variable handle or a vector gives the single alternative `(value, 0)` and leaves the circuit unchanged |
| Evaluator.EvaluateGrounded | problog/tasks/dcproblog/engine_builtin.py:347-358 | any other term (not a known arithmetic function) is grounded: one alternative per grounding, in order, with that grounding's node and its cached handle; a grounder error is passed on unchanged |
| Evaluator.UnknownFunctionFails | problog/tasks/dcproblog/engine_builtin.py:261-265 | a (name, arity) in neither function table fails with "Unknown function" before any argument is evaluated |
| Evaluator.EvaluateArgsLength | problog/tasks/dcproblog/engine_builtin.py:267-273 | a successful argument loop gives one alternative list per argument |
| Evaluator.EvaluateArgsErrSticky | problog/tasks/dcproblog/engine_builtin.py:267-273 | once an argument fails, the later arguments are never evaluated and the error is the result |
| Evaluator.ConjoinFacts | problog/tasks/dcproblog/engine_builtin.py:277-285 | conjoining one tuple keeps its values in order; the support is `0` exactly when no support is set; one set support is passed through; k set supports add k-1 AND nodes; the support is true exactly when all set supports are |
| Evaluator.ConjoinSupportShape | problog/tasks/dcproblog/engine_builtin.py:278-284 | the conjoined support is `0` or a real node, and it is `0` exactly when no support in the tuple is set |
| Evaluator.ConjoinAllFacts | problog/tasks/dcproblog/engine_builtin.py:276-285 | one conjoined entry per tuple, each with the tuple's values and a support whose meaning is the conjunction of the tuple's set supports; only AND nodes are added |
| Evaluator.ConjoinAllLength | problog/tasks/dcproblog/engine_builtin.py:276-285 | the conjunction loop gives exactly one entry per tuple |
| Evaluator.ApplyAllFacts | problog/tasks/dcproblog/engine_builtin.py:290-293 | applying the function succeeds exactly when no application raises; it then gives one result per tuple, in order, carrying that tuple's support |
| Evaluator.DivisionByZeroAborts | problog/tasks/dcproblog/engine_builtin.py:296-297 | a division by zero on any tuple, after successful earlier tuples, makes the whole call fail with "Division by zero." |
| Evaluator.ValueErrorAborts | problog/tasks/dcproblog/engine_builtin.py:290-295 | a ValueError on any tuple, after successful earlier tuples, makes the whole call fail with an arithmetic error carrying the ValueError's message |
| Evaluator.ValueErrorAsWrittenCounterexample | problog/tasks/dcproblog/engine_builtin.py:294-295 | for a function that raises a ValueError on `-1`, the handler as written ends in an AttributeError, unlike the intended arithmetic error |
| Evaluator.ApplyAllErrSticky | problog/tasks/dcproblog/engine_builtin.py:290-297 | the first failing application decides the error |
| Evaluator.ComputeFunctionCount | problog/tasks/dcproblog/engine_builtin.py:254-293 | a known function applied to argument lists of k1, ..., kn alternatives yields exactly k1 * ... * kn results |
| Evaluator.EvaluateExtends | problog/tasks/dcproblog/engine_builtin.py:329-359 | evaluation only grows the circuit: nodes are appended, atoms and cached handles never change once present, and validity is kept |
| Evaluator.ComputeFunctionExtends | problog/tasks/dcproblog/engine_builtin.py:254-297 | `compute_function` only grows the circuit and keeps it valid |
| Evaluator.EvaluateArgsExtends | problog/tasks/dcproblog/engine_builtin.py:267-273 | the argument loop only grows the circuit and keeps it valid |
| Evaluator.ConjoinExtends | problog/tasks/dcproblog/engine_builtin.py:277-285 | conjoining one tuple only grows the circuit and keeps it valid |
| Evaluator.ConjoinAllExtends | problog/tasks/dcproblog/engine_builtin.py:276-285 | the conjunction loop only grows the circuit and keeps it valid |
| Evaluator.Evaluate | problog/tasks/dcproblog/engine_builtin.py:329-359 | the method on `target` matches `EvaluateSpec` in result and new state |
| Evaluator.ComputeFunction | problog/tasks/dcproblog/engine_builtin.py:254-297 | the method on `target` matches `ComputeFunctionSpec` in result and new state |
| Evaluator.ConjoinSupports | problog/tasks/dcproblog/engine_builtin.py:277-285 | the inner loop on `target` matches `ConjoinSpec` |
| Evaluator.ConjoinEach | problog/tasks/dcproblog/engine_builtin.py:275-285 | the outer loop on `target` matches `ConjoinAllSpec` |
| Evaluator.ApplyEach | problog/tasks/dcproblog/engine_builtin.py:290-297 | the application loop matches `ApplyAll`, including its first error |
| Evaluator.ConjoinAsWrittenFails | problog/tasks/dcproblog/engine_builtin.py:284 | the line as written fails with a TypeError exactly when a tuple has two or more set supports; otherwise it agrees with the corrected conjunction |
| Evaluator.ConjoinAsWrittenCounterexample | problog/tasks/dcproblog/engine_builtin.py:284 | the tuple `[(1, node 1), (2, node 2)]` makes the line as written fail |
| Comparison.ComparisonArgsProduct | problog/tasks/dcproblog/engine_builtin.py:247-251 | both operands are evaluated, left first, and their alternatives are paired as `itertools.product`: one pair per combination, every combination present, in product order |
| Comparison.CompareOneFacts | problog/tasks/dcproblog/engine_builtin.py:183-243 | one pair: two numbers are compared directly, giving node `0` when the relation holds and `None` otherwise, with the circuit unchanged; a symbolic pair fails (assertion) exactly when an operand is a vector without exactly one component; otherwise the result holds the unwrapped operands and the condition's atom is registered |
| Comparison.BodyMeaning | problog/tasks/dcproblog/engine_builtin.py:219-226 | the support carried from the operands is set exactly when one of them is, and is true exactly when every set operand support is |
| Comparison.CompareOneMeaning | problog/tasks/dcproblog/engine_builtin.py:219-242 | the result node of a symbolic pair is true exactly when the condition's atom and every set operand support are true |
| Comparison.MakeComparisonErrSticky | problog/tasks/dcproblog/engine_builtin.py:183-244 | the first failing pair aborts the loop with its error |
| Comparison.MakeComparisonFacts | problog/tasks/dcproblog/engine_builtin.py:181-244 | the loop succeeds exactly when every pair is admissible; it fails only with an assertion error; the circuit only grows and stays valid; all-numeric input leaves it unchanged |
| Comparison.MakeComparisonResults | problog/tasks/dcproblog/engine_builtin.py:181-244 | a successful loop gives one result per pair, in order: the truth node for numeric pairs, and otherwise the unwrapped operands with their condition's atom registered |
| Comparison.ComparisonReplay | problog/tasks/dcproblog/engine_builtin.py:235-242 | with no operand supports set, replaying a comparison in any later state gives the same results and changes nothing, because each condition finds the atom its string form got the first time |
| Comparison.ComparisonIdempotent | problog/tasks/dcproblog/engine_builtin.py:235-242 | with no operand supports set, running a comparison twice gives the same results and the second run changes nothing |
| Comparison.ConstantComparison | problog/tasks/dcproblog/engine_builtin.py:61-106 | comparing two number constants gives the single result `((m, n), 0)` when the relation holds and `((m, n), None)` otherwise, with the circuit unchanged |
| Comparison.MakeComparisonArgs | problog/tasks/dcproblog/engine_builtin.py:247-251 | the method on `target` matches `MakeComparisonArgsSpec` |
| Comparison.CompareOne | problog/tasks/dcproblog/engine_builtin.py:184-243 | the loop body on `target` matches `CompareOneSpec` |
| Comparison.MakeComparison | problog/tasks/dcproblog/engine_builtin.py:181-244 | the method on `target` matches `MakeComparisonSpec` |
| Comparison.BuiltinLt | problog/tasks/dcproblog/engine_builtin.py:61-70 | `</2` is `make_comparison_args` then `make_comparison` with `<` |
| Comparison.BuiltinGt | problog/tasks/dcproblog/engine_builtin.py:73-82 | `>/2` is `make_comparison_args` then `make_comparison` with `>` |
| Comparison.BuiltinLe | problog/tasks/dcproblog/engine_builtin.py:85-94 | `=</2` is `make_comparison_args` then `make_comparison` with `<=` |
| Comparison.BuiltinGe | problog/tasks/dcproblog/engine_builtin.py:97-106 | `>=/2` is `make_comparison_args` then `make_comparison` with `>=` |
| Observation.EvidenceMeaning | problog/tasks/dcproblog/engine_builtin.py:139-143 | the evidence node of one grounding is never `0`; it is false for a `None` grounding node, and otherwise true exactly when the observation atom and a set grounding node are true |
| Observation.DisjoinMeaning | problog/tasks/dcproblog/engine_builtin.py:145-148 | the accumulated node is true exactly when a set accumulator or the new evidence is true |
| Observation.ObserveOneFacts | problog/tasks/dcproblog/engine_builtin.py:122-148 | one grounding succeeds exactly when the observation is symbolic (the assertion at line 132); the `observation_of(...)` atom is registered; the result is a valid node other than `0`; the circuit only grows and stays valid |
| Observation.ObserveOneMeaning | problog/tasks/dcproblog/engine_builtin.py:122-148 | after one grounding, the accumulated node is true exactly when the earlier accumulator was set and true, or this grounding supports the observation |
| Observation.ObserveAllErrSticky | problog/tasks/dcproblog/engine_builtin.py:122-148 | the first failing grounding aborts the loop |
| Observation.ObserveAllFacts | problog/tasks/dcproblog/engine_builtin.py:120-151 | the loop fails exactly when there is a grounding and the observation is not symbolic, and only with an assertion error; on success every grounding has its evidence atom, and the result is `0` exactly when there are no groundings |
| Observation.ObserveAllMeaning | problog/tasks/dcproblog/engine_builtin.py:121-148 | with at least one grounding, the observation node is true exactly when some grounding supports the observation |
| Observation.NoGroundingsObserveTrue | problog/tasks/dcproblog/engine_builtin.py:121-150 | observing a variable that has no groundings gives the single result `((term, observation), 0)` |
| Observation.ObserveOne | problog/tasks/dcproblog/engine_builtin.py:122-148 | the loop body on `target` matches `ObserveOneSpec` |
| Observation.BuiltinObservation | problog/tasks/dcproblog/engine_builtin.py:109-151 | the builtin on `target` matches `BuiltinObservationSpec`, including the early exit on a failed assertion |
| DensityQuery.GroupFacts | problog/tasks/dcproblog/engine_builtin.py:165-175 | the dictionary's keys are distinct and are exactly the variables of the groundings, in order of first appearance; each key's list holds the alternatives of that variable's groundings, in order, and is non-empty |
| DensityQuery.MixturesFacts | problog/tasks/dcproblog/engine_builtin.py:165-177 | the mixtures cover exactly the variables of the groundings; each holds the alternatives of that variable's groundings in order, with support `0` |
| DensityQuery.MixturesOrdered | problog/tasks/dcproblog/engine_builtin.py:165-177 | there is one mixture per distinct variable, in order of first appearance |
| DensityQuery.GroupKeys | problog/tasks/dcproblog/engine_builtin.py:165-177 | the keys of the `mixtures` dictionary are distinct and are exactly the variables that have a list |
| DensityQuery.GroupTotal | problog/tasks/dcproblog/engine_builtin.py:165-177 | the lists of the dictionary hold every resolved alternative, as many as there are groundings |
| DensityQuery.MixturesCount | problog/tasks/dcproblog/engine_builtin.py:177 | the mixtures built from the dictionary hold as many components as its lists |
| DensityQuery.QueryDensityFacts | problog/tasks/dcproblog/engine_builtin.py:162-178 | the query succeeds when the grounder does and changes only the density cache; it returns one mixture per distinct variable, in order of first appearance, each with node 0 and with the resolved alternatives of that variable's groundings, in order, as components; the mixtures hold exactly one component per grounding |
| DensityQuery.NoGroundingsNoMixtures | problog/tasks/dcproblog/engine_builtin.py:162-178 | a variable with no groundings gives no mixtures and leaves the circuit unchanged |
| DensityQuery.QueryDensity | problog/tasks/dcproblog/engine_builtin.py:162-178 | the loop with `components` and the `mixtures` dictionary on `target` matches `QueryDensitySpec` |
| DensityQuery.BuiltinQueryDensity | problog/tasks/dcproblog/engine_builtin.py:154-159 | the builtin is `_query_density` |
| Assignment.AssignValueFacts | problog/tasks/dcproblog/engine_builtin.py:39-53 | one value: a number becomes a constant; an unbound left side takes the value unchanged; a list on the left fails with a length error unless the value is a vector or a random-variable handle with as many components as the list has elements, and then becomes the list of the components (for a handle, its component constants in index order); a left side that is no proper list fails in `term2list` |
| Assignment.TermToListErrors | problog/tasks/dcproblog/engine_builtin.py:44 | `term2list` fails only with the not-a-list error |
| Assignment.RandomVariableListAssignment | problog/tasks/dcproblog/engine_builtin.py:44-47 | `[A] is x` for a one-dimensional random variable `x` binds `A` to the single component of `x` |
| Assignment.AssignAllFacts | problog/tasks/dcproblog/engine_builtin.py:35-56 | the loop skips `None` values; it succeeds exactly when every other value converts, and then gives one result per such value, in order, with the converted term, the right-hand side and the value's support |
| Assignment.AssignAllErrSticky | problog/tasks/dcproblog/engine_builtin.py:35-56 | the first failing conversion aborts the loop |
| Assignment.UnifyErrorGivesNoResults | problog/tasks/dcproblog/engine_builtin.py:57-58 | a unification error raised while evaluating the right-hand side gives no results, not an error |
| Assignment.ConstantAssignment | problog/tasks/dcproblog/engine_builtin.py:30-56 | `X is n` for a number `n` gives the single result `((n, n), 0)` and leaves the circuit unchanged |
| Assignment.AssignOne | problog/tasks/dcproblog/engine_builtin.py:39-53 | the loop body matches `AssignValue` |
| Assignment.AssignEach | problog/tasks/dcproblog/engine_builtin.py:34-56 | the loop matches `AssignAllSpec`, including its first error |
| Assignment.BuiltinIs | problog/tasks/dcproblog/engine_builtin.py:30-58 | the builtin on `target` matches `IsSpec` |

## Left out

- `problog/tasks/dcproblog/algebra/pyro.py` and `problog/tasks/dcproblog/parser.py` are not part of this model. They are the algebra backend and the parser, and the builtins do not call them directly.
- The host grounder `engine._ground` is a parameter (`Engine.ground`) that returns groundings or an error. It does not build circuit nodes in the model. Its own recursion into the program is not part of this model.
- `Engine.ground` also stands in for the term the grounder receives. The source builds `~(term, Distribution)` and renames variables with `_ReplaceVar` (lines 348-350); that construction is not modelled.
- The circuit node simplifications inside the formula's `add_and`, `add_or` and `add_atom` are not modelled. In the model these always append a node, or reuse the atom already registered under an identifier. The formula class lives in `formula.py`, which is not part of this model.
- `create_ast_representation` is not modelled on values that are already evaluated: they are kept as they are, and a number is treated as a symbolic constant with no free variables (`Values.CVariables` of a `Num` is empty). On terms it is a parameter (`Backend.ast`). `get_density_name` and `str(...)` are parameters too (`Backend.densityName`, `Backend.show`).
- `hash(str(condition))` at line 235 is modelled as the string itself, so hash collisions between different conditions are not modelled.
- Numbers are unbounded integers; Python floats are not modelled. The functions in `_arithmetic_functions` and `extra_functions` are parameters. Each one gives a value, a `ZeroDivisionError` or a `ValueError`.
- `Evaluator.ComputeFunction`: the name `extra_functions` at line 263 is neither defined nor imported in `engine_builtin.py`, so as written a name missing from `_arithmetic_functions` raises a NameError there and the "Unknown function" error of line 265 is never raised. `Engine.extraFunctions` stands for the table that line evidently means, and `Evaluator.UnknownFunctionFails` states the intended error. From the builtins the lookup at line 263 is not reached, because `evaluate_arithemtics` only calls `compute_function` for names found in `_arithmetic_functions`.
- `Evaluator.ComputeFunction`: a `ValueError` raised by the function is modelled as the arithmetic error the handler at line 295 evidently intends. As written, `err.message` does not exist on a Python 3 exception, so an AttributeError escapes instead; see "## Findings".
- `Evaluator.ApplyEach`: follows the same intended mapping of a `ValueError` to an arithmetic error carrying its message, not the AttributeError of line 295 as written.
- `unquote` on functor names is the identity.
- Exception message texts are not modelled. This includes the message of the vector length error, whose right-hand count is always 1.
- The `check_mode` calls become groundness preconditions. The error `check_mode` raises for a non-ground argument is not modelled as an error path.
- The test `args[0] is None or args[1] is None` at line 205 is left out. It looks at the pair's parts, which a value-support pair never makes `None`.
- `Backend.ast` of the observation is not evaluated first. The code passes the raw observation term to `create_ast_representation`. There is no check on the number of dimensions.
- A term `foo(1, 2)` with an unknown name is grounded as a random variable. It does not fail with "Unknown function", because `evaluate_arithemtics` only dispatches on `_arithmetic_functions`. The model follows the code.
- The assertion at line 131, that the handle is a `RandomVariableConstant`, always holds in the model, because handles come from `get_distribution`.
- An unbound left-hand side of `is/2` is told apart from a bound one by the `Var` constructor. A left-hand side written as Python's `None` is not modelled separately.
- `Assignment.AssignValueFacts`: a symbolic value or a single component assigned to a list on the left fails with the length error. `SymbolicConstant` and `RandomVariableComponentConstant` are defined in `problog/tasks/dcproblog/logic.py`, which is not part of this model; the model takes them to have no `components` attribute, so the read at line 46 raises inside the `try` and becomes that error. The components of a random-variable handle are likewise taken to be one `RandomVariableComponentConstant` per dimension, in index order, as `make_observation` and `make_values` in `algebra/pyro.py` (lines 175-194) use them.
- A component constant used as a term on the right of a builtin is not one of the pass-through kinds of lines 335-346 in the model and is grounded by the last branch; whether `logic.py` makes it a `SymbolicConstant` is not visible here.

## Findings

| source | as written | input that shows it | evidently intended | confidence | as-written member | corrected member |
|---|---|---|---|---|---|---|
| problog/tasks/dcproblog/engine_builtin.py:284 | `target.add_and(n, body_node)` passes the node id `n` as the children and `body_node` as the second argument. Iterating over an integer raises a TypeError. | an argument tuple with two set supports, e.g. alternatives `(1, node 1)` and `(2, node 2)` of a binary function | `target.add_and((n, body_node))`: conjoin the two supports, as lines 143, 148, 222 and 240 do | medium, not executed (it depends on the signature of the formula's `add_and`, which is consistent with every other call in the file) | Evaluator.ConjoinAsWrittenCounterexample | Evaluator.ConjoinFacts |
| problog/tasks/dcproblog/engine_builtin.py:294-295 | `raise ArithmeticError(err.message)` reads an attribute that Python 3 exceptions do not have, so the `raise` itself fails with an AttributeError | `X is sqrt(-1)`, where the math function raises `ValueError("math domain error")` | `raise ArithmeticError(str(err))`: an ArithmeticError carrying the ValueError's message | high, not executed (the attribute was removed in Python 3, which the backend `pyro.py` requires) | Evaluator.ValueErrorAsWrittenCounterexample | Evaluator.ValueErrorAborts |
