/** Values, terms and the interfaces of the two collaborators (the host
    grounding engine and the circuit backend) used by the hybrid builtins. */
module Values {

  /** The errors the builtins raise. */
  datatype Error =
    | UnknownFunction(functor: string, arity: nat)  // ArithmeticError "Unknown function"
    | DivisionByZero                                 // ArithmeticError "Division by zero."
    | ArithmeticDomain(message: string)              // ArithmeticError built from a ValueError
    | VectorLengthMismatch(lhs: nat)                 // ProbLogError "Vector lengths do not match"
    | NotAFixedList                                  // term2list on a term that is no proper list
    | AssertionFailed(condition: string)             // a failing `assert`
    | UnifyError                                     // raised by the host while grounding
    | ChildrenNotIterable                            // TypeError: a node id where a tuple of children is expected
    | NoMessageAttribute                             // AttributeError: a Python 3 ValueError has no `message`

  datatype Result<T> = Ok(value: T) | Err(error: Error)

  /** A circuit node reference: `None` (NODE_FALSE) or a node id, where
      id 0 (NODE_TRUE) is the "no support" sentinel. */
  datatype NodeRef = NodeFalse | Node(id: nat)

  const NodeTrue: NodeRef := Node(0)

  /** Python truthiness of a node reference: neither `None` nor `0`. */
  predicate Truthy(n: NodeRef) {
    n.Node? && n.id != 0
  }

  /** A value produced by evaluation: a plain number, a symbolic expression
      (SymbolicConstant), a random-variable handle (RandomVariableConstant),
      a vector of components (LogicVectorConstant), one dimension of a
      random variable (RandomVariableComponentConstant), or Python's None. */
  datatype Value =
    | Num(n: int)
    | Symbolic(functor: string, args: seq<Value>, cvariables: set<string>)
    | RandomVariable(rv: RandomVariableConstant)
    | Vector(components: seq<Value>)
    | Component(parent: RandomVariableConstant, index: nat)
    | NoneValue

  /** The canonical handle of one grounding of a random variable. */
  datatype RandomVariableConstant =
    RandomVariableConstant(functor: string, args: seq<Value>, densityName: string, dimensions: nat)

  /** The `components` of a random-variable handle: one component constant
      per dimension, in index order. */
  function RandomVariableComponents(rv: RandomVariableConstant): (cs: seq<Value>)
    ensures |cs| == rv.dimensions
    ensures forall i :: 0 <= i < |cs| ==> cs[i] == Component(rv, i)
  {
    seq(rv.dimensions, i requires 0 <= i < rv.dimensions => Component(rv, i))
  }

  /** The values that carry a `components` attribute: vectors and
      random-variable handles. */
  predicate HasComponents(v: Value)
  {
    v.Vector? || v.RandomVariable?
  }

  function ComponentsOf(v: Value): seq<Value>
    requires HasComponents(v)
  {
    if v.Vector? then v.components else RandomVariableComponents(v.rv)
  }

  /** Terms handed to the builtins. `Val` is an already evaluated value used
      as a term; `Var` is the host's integer placeholder for an unbound
      variable. */
  datatype Term =
    | Constant(n: int)
    | Val(v: Value)
    | Compound(functor: string, args: seq<Term>)
    | Var(index: nat)

  /** A distribution description found by the grounder. */
  datatype Distribution = Distribution(functor: string, args: seq<Term>, dimensions: nat)

  /** One grounding `((rv, distribution), node_id)` returned by the grounder. */
  datatype Grounding = Grounding(rv: Term, distribution: Distribution, node: NodeRef)

  /** The goal `~(rv, _)` handed to the grounder; `subcall` is set when the
      argument evaluator asks (goal `~(rv, Distribution)`), unset for
      observations and density queries (goal `~(rv, None)`). */
  datatype Goal = Goal(rv: Term, subcall: bool)

  /** An evaluation alternative: a value with its support node. */
  type Alternative = (Value, NodeRef)

  /** What a Python arithmetic function does when applied. */
  datatype FnOutcome = Returned(v: Value) | RaisedZeroDivision | RaisedValueError(message: string)

  /** A table from (name, arity) to a function. */
  type FunctionTable = map<(string, nat), seq<Value> -> FnOutcome>

  /** The host side: the re-entrant grounder and the two function tables
      (`_arithmetic_functions` and `extra_functions`). */
  datatype Engine = Engine(
    ground: Goal -> Result<seq<Grounding>>,
    arithmeticFunctions: FunctionTable,
    extraFunctions: FunctionTable)

  /** The parts of the circuit builder that the core only calls:
      `get_density_name`, `create_ast_representation` on terms, and the
      string form `str(...)` of a symbolic value. */
  datatype Backend = Backend(
    densityName: (Term, NodeRef) -> string,
    ast: Term -> Value,
    show: Value -> string)

  /** The free random variables of a value (`cvariables`), identified by
      their density names. */
  function CVariables(v: Value): set<string>
  {
    match v
    case Num(_) => {}
    case Symbolic(_, _, cv) => cv
    case RandomVariable(rv) => {rv.densityName}
    case Vector(cs) => CVariablesOfAll(cs)
    case Component(rv, _) => {rv.densityName}
    case NoneValue => {}
  }

  function CVariablesOfAll(vs: seq<Value>): set<string>
  {
    if |vs| == 0 then {} else CVariablesOfAll(vs[..|vs| - 1]) + CVariables(vs[|vs| - 1])
  }

  /** A term is ground when it contains no unbound variable. */
  predicate IsGround(t: Term)
  {
    match t
    case Var(_) => false
    case Compound(_, args) => forall i :: 0 <= i < |args| ==> IsGround(args[i])
    case _ => true
  }

  /** `list2term`: the Prolog list `[t1, ..., tn]` built from '.'/2 cells. */
  function ListTerm(ts: seq<Term>): Term
  {
    if |ts| == 0 then Compound("[]", [])
    else Compound(".", [ts[0], ListTerm(ts[1..])])
  }

  /** `term2list`: the elements of a proper list, an error otherwise. */
  function TermToList(t: Term): Result<seq<Term>>
  {
    match t
    case Compound(f, args) =>
      if f == "[]" && |args| == 0 then Ok([])
      else if f == "." && |args| == 2 then
        match TermToList(args[1])
        case Ok(rest) => Ok([args[0]] + rest)
        case Err(e) => Err(e)
      else Err(NotAFixedList)
    case _ => Err(NotAFixedList)
  }

  /** Decoding an encoded list gives back its elements. */
  lemma {:induction false} ListRoundTrip(ts: seq<Term>)
    ensures TermToList(ListTerm(ts)) == Ok(ts)
  {
    if |ts| > 0 {
      ListRoundTrip(ts[1..]);
      assert [ts[0]] + ts[1..] == ts;
    }
  }

  /** Whatever `term2list` decodes is the encoding of what it returns. */
  lemma {:induction false} ListDecodeEncode(t: Term)
    requires TermToList(t).Ok?
    ensures ListTerm(TermToList(t).value) == t
  {
    match t
    case Compound(f, args) =>
      if f == "." && |args| == 2 {
        ListDecodeEncode(args[1]);
        var rest := TermToList(args[1]).value;
        assert TermToList(t).value == [args[0]] + rest;
        assert ([args[0]] + rest)[1..] == rest;
        assert args == [args[0], args[1]];
      }
  }

  /** Each value as a term (the components placed in a `list2term`). */
  function ValuesAsTerms(vs: seq<Value>): (ts: seq<Term>)
    ensures |ts| == |vs| && forall i :: 0 <= i < |vs| ==> ts[i] == Val(vs[i])
  {
    seq(|vs|, i requires 0 <= i < |vs| => Val(vs[i]))
  }
}
