/** The comparison compiler (`make_comparison_args`, `make_comparison`) and
    the builtins `</2`, `>/2`, `=</2`, `>=/2`. */
module Comparison {
  import opened Values
  import opened Circuits
  import opened Products
  import opened Evaluator

  datatype CompareOp = Lt | Gt | Le | Ge

  /** The functor of the symbolic condition. */
  function Symbol(op: CompareOp): string
  {
    match op
    case Lt => "<"
    case Gt => ">"
    case Le => "<="
    case Ge => ">="
  }

  predicate Holds(op: CompareOp, a: int, b: int)
  {
    match op
    case Lt => a < b
    case Gt => a > b
    case Le => a <= b
    case Ge => a >= b
  }

  /** A pair of alternatives, one per operand. */
  type Pair = (Alternative, Alternative)

  /** One result: the resolved operands and the result node. */
  type Compared = ((Value, Value), NodeRef)

  // ---------------------------------------------------------------------
  // Specification

  /** `make_comparison_args`: evaluate both operands, left first, and pair
      their alternatives. */
  function MakeComparisonArgsSpec(env: Engine, be: Backend, st: CircuitState, a: Term, b: Term): (CircuitState, Result<seq<Pair>>)
    requires IsGround(a) && IsGround(b)
  {
    var (st1, ra) := EvaluateSpec(env, be, st, a);
    if ra.Err? then (st1, Err(ra.error))
    else
      var (st2, rb) := EvaluateSpec(env, be, st1, b);
      if rb.Err? then (st2, Err(rb.error)) else (st2, Ok(Pairs(ra.value, rb.value)))
  }

  /** An operand of a condition: a vector must have exactly one component
      and stands for it. */
  function Unwrap(v: Value): Result<Value>
  {
    if v.Vector? then
      if |v.components| == 1 then Ok(v.components[0]) else Err(AssertionFailed("len(arg.components) == 1"))
    else Ok(v)
  }

  /** The symbolic condition over two operands, whose free variables are
      those of both. */
  function Condition(op: CompareOp, arg1: Value, arg2: Value): Value
  {
    Symbolic(Symbol(op), [arg1, arg2], CVariables(arg1) + CVariables(arg2))
  }

  /** The support carried over from the two operands. */
  function BodyOf(st: CircuitState, b1: NodeRef, b2: NodeRef): (CircuitState, NodeRef)
  {
    if Truthy(b1) && Truthy(b2) then st.AddAnd([b1, b2])
    else if Truthy(b1) then (st, b1)
    else (st, b2)
  }

  predicate Numeric(p: Pair)
  {
    p.0.0.Num? && p.1.0.Num?
  }

  /** A pair the comparison accepts: numeric, or both operands scalar or
      one-component vectors. */
  predicate Admissible(p: Pair)
  {
    Numeric(p) || (Unwrap(p.0.0).Ok? && Unwrap(p.1.0).Ok?)
  }

  /** The atom identifier of a symbolic pair: the string form of its
      condition. */
  function KeyOf(be: Backend, op: CompareOp, p: Pair): AtomKey
    requires Admissible(p) && !Numeric(p)
  {
    ConditionKey(be.show(Condition(op, Unwrap(p.0.0).value, Unwrap(p.1.0).value)))
  }

  /** The body of the loop of `make_comparison` for one pair. */
  function CompareOneSpec(be: Backend, st: CircuitState, op: CompareOp, p: Pair): (CircuitState, Result<Compared>)
  {
    var x := p.0.0;
    var y := p.1.0;
    if x.Num? && y.Num? then (st, Ok(((x, y), if Holds(op, x.n, y.n) then NodeTrue else NodeFalse)))
    else if Unwrap(x).Err? then (st, Err(Unwrap(x).error))
    else if Unwrap(y).Err? then (st, Err(Unwrap(y).error))
    else
      var arg1 := Unwrap(x).value;
      var arg2 := Unwrap(y).value;
      var (st1, body) := BodyOf(st, p.0.1, p.1.1);
      var cond := Condition(op, arg1, arg2);
      var (st2, con) := st1.AddAtom(ConditionKey(be.show(cond)), cond);
      if Truthy(body) then
        var (st3, pass) := st2.AddAnd([body, Node(con)]);
        (st3, Ok(((arg1, arg2), pass)))
      else (st2, Ok(((arg1, arg2), Node(con))))
  }

  /** `make_comparison`: one result per pair, in order; an assertion
      failure aborts the call. */
  function MakeComparisonSpec(be: Backend, st: CircuitState, op: CompareOp, ps: seq<Pair>): (CircuitState, Result<seq<Compared>>)
  {
    if |ps| == 0 then (st, Ok([]))
    else
      var (st1, r) := MakeComparisonSpec(be, st, op, ps[..|ps| - 1]);
      if r.Err? then (st1, r)
      else
        var (st2, c) := CompareOneSpec(be, st1, op, ps[|ps| - 1]);
        if c.Err? then (st2, Err(c.error)) else (st2, Ok(r.value + [c.value]))
  }

  /** A comparison builtin: `make_comparison_args` then `make_comparison`. */
  function BuiltinCompareSpec(env: Engine, be: Backend, st: CircuitState, op: CompareOp, a: Term, b: Term): (CircuitState, Result<seq<Compared>>)
    requires IsGround(a) && IsGround(b)
  {
    var (st1, ps) := MakeComparisonArgsSpec(env, be, st, a, b);
    if ps.Err? then (st1, Err(ps.error)) else MakeComparisonSpec(be, st1, op, ps.value)
  }

  // ---------------------------------------------------------------------
  // Properties

  /** Every alternative of the left operand is paired with every alternative
      of the right one: |a| * |b| pairs, each combination present, in the
      order of the product (the position of each pair is `PairsAt`). */
  lemma ComparisonArgsProduct(env: Engine, be: Backend, st: CircuitState, a: Term, b: Term)
    requires IsGround(a) && IsGround(b)
    requires MakeComparisonArgsSpec(env, be, st, a, b).1.Ok?
    ensures var ra := EvaluateSpec(env, be, st, a).1;
      var rb := EvaluateSpec(env, be, EvaluateSpec(env, be, st, a).0, b).1;
      var ps := MakeComparisonArgsSpec(env, be, st, a, b).1.value;
      && ra.Ok? && rb.Ok? && ps == Pairs(ra.value, rb.value)
      && |ps| == |ra.value| * |rb.value|
      && forall p :: p in ps <==> p.0 in ra.value && p.1 in rb.value
  {
    var st1, ra := EvaluateSpec(env, be, st, a).0, EvaluateSpec(env, be, st, a).1;
    var rb := EvaluateSpec(env, be, st1, b).1;
    assert ra.Ok? && rb.Ok?;
    assert MakeComparisonArgsSpec(env, be, st, a, b).1 == Ok(Pairs(ra.value, rb.value));
    PairsLength(ra.value, rb.value);
    PairsOfAlternatives(ra.value, rb.value);
  }

  lemma PairsOfAlternatives(xs: seq<Alternative>, ys: seq<Alternative>)
    ensures forall p :: p in Pairs(xs, ys) <==> p.0 in xs && p.1 in ys
  {
    PairsMember(xs, ys);
  }

  /** One pair: numbers are compared directly, without touching the
      circuit; a symbolic pair fails exactly when an operand is a vector
      without exactly one component, and otherwise yields the unwrapped
      operands and registers the condition's atom. */
  lemma CompareOneFacts(be: Backend, st: CircuitState, op: CompareOp, p: Pair)
    ensures var (st2, r) := CompareOneSpec(be, st, op, p);
      && (r.Ok? <==> Admissible(p))
      && (r.Err? ==> r.error.AssertionFailed? && st2 == st)
      && Extends(st, st2) && st2.densityValues == st.densityValues
      && (st.Valid() ==> st2.Valid())
      && (Numeric(p) ==> st2 == st && r == Ok(((p.0.0, p.1.0), if Holds(op, p.0.0.n, p.1.0.n) then NodeTrue else NodeFalse)))
      && (r.Ok? && !Numeric(p) ==>
            && r.value.0 == (Unwrap(p.0.0).value, Unwrap(p.1.0).value)
            && KeyOf(be, op, p) in st2.atoms
            && (!Truthy(p.0.1) && !Truthy(p.1.1) ==> r.value.1 == Node(st2.atoms[KeyOf(be, op, p)])))
  {
    if Admissible(p) && !Numeric(p) {
      var (st1, body) := BodyOf(st, p.0.1, p.1.1);
      assert Extends(st, st1);
    }
  }

  /** The node of a symbolic pair holds exactly when the condition's atom
      and every set operand support hold. */
  lemma CompareOneMeaning(be: Backend, st: CircuitState, op: CompareOp, p: Pair, truth: AtomKey -> bool)
    requires st.Valid() && Admissible(p) && !Numeric(p)
    requires ValidRef(|st.nodes|, p.0.1) && ValidRef(|st.nodes|, p.1.1)
    ensures var (st2, r) := CompareOneSpec(be, st, op, p);
      && r.Ok?
      && Eval(st2.nodes, r.value.1, truth)
         == ((Truthy(p.0.1) ==> Eval(st.nodes, p.0.1, truth))
             && (Truthy(p.1.1) ==> Eval(st.nodes, p.1.1, truth))
             && truth(KeyOf(be, op, p)))
  {
    var (b1, b2) := (p.0.1, p.1.1);
    BodyMeaning(st, b1, b2, truth);
    var (st1, body) := BodyOf(st, b1, b2);
    var cond := Condition(op, Unwrap(p.0.0).value, Unwrap(p.1.0).value);
    var key := ConditionKey(be.show(cond));
    AddAtomMeaning(st1, key, cond, truth);
    var (st2, con) := st1.AddAtom(key, cond);
    if Truthy(body) {
      EvalExtends(st1.nodes, st2.nodes, body, truth);
      AddAndPairMeaning(st2, body, Node(con), truth);
    }
  }

  /** The support carried over from two operands holds exactly when every
      set operand support does; it is unset only when neither is set. */
  lemma BodyMeaning(st: CircuitState, b1: NodeRef, b2: NodeRef, truth: AtomKey -> bool)
    requires st.Valid() && ValidRef(|st.nodes|, b1) && ValidRef(|st.nodes|, b2)
    ensures var (st1, body) := BodyOf(st, b1, b2);
      && st1.Valid() && Extends(st, st1) && st1.atoms == st.atoms
      && ValidRef(|st1.nodes|, body)
      && (Truthy(body) <==> Truthy(b1) || Truthy(b2))
      && (Truthy(body) ==>
            Eval(st1.nodes, body, truth)
            == ((Truthy(b1) ==> Eval(st.nodes, b1, truth)) && (Truthy(b2) ==> Eval(st.nodes, b2, truth))))
  {
    if Truthy(b1) && Truthy(b2) {
      AddAndPairMeaning(st, b1, b2, truth);
    }
  }

  lemma {:induction false} MakeComparisonErrSticky(be: Backend, st: CircuitState, op: CompareOp, ps: seq<Pair>, k: nat)
    requires k <= |ps| && MakeComparisonSpec(be, st, op, ps[..k]).1.Err?
    ensures MakeComparisonSpec(be, st, op, ps) == MakeComparisonSpec(be, st, op, ps[..k])
  {
    if k < |ps| {
      assert ps[..|ps| - 1][..k] == ps[..k];
      MakeComparisonErrSticky(be, st, op, ps[..|ps| - 1], k);
    } else {
      assert ps[..k] == ps;
    }
  }

  /** The whole loop: it succeeds exactly when every pair is admissible,
      fails only with an assertion error, only grows the circuit, and leaves
      it unchanged on all-numeric input. */
  lemma {:induction false} MakeComparisonFacts(be: Backend, st: CircuitState, op: CompareOp, ps: seq<Pair>)
    ensures var (st2, r) := MakeComparisonSpec(be, st, op, ps);
      && (r.Ok? <==> forall i :: 0 <= i < |ps| ==> Admissible(ps[i]))
      && (r.Err? ==> r.error.AssertionFailed?)
      && Extends(st, st2) && st2.densityValues == st.densityValues
      && (st.Valid() ==> st2.Valid())
      && ((forall i :: 0 <= i < |ps| ==> Numeric(ps[i])) ==> st2 == st)
  {
    if |ps| > 0 {
      var front := ps[..|ps| - 1];
      var last := ps[|ps| - 1];
      MakeComparisonFacts(be, st, op, front);
      var (st1, r1) := MakeComparisonSpec(be, st, op, front);
      CompareOneFacts(be, st1, op, last);
      assert forall i :: 0 <= i < |front| ==> ps[i] == front[i];
    }
  }

  /** A successful loop gives one result per pair, in order: numeric pairs
      give the true node exactly when the relation holds and the false node
      otherwise; symbolic pairs give their unwrapped operands and have their
      condition's atom registered. */
  lemma {:induction false} MakeComparisonResults(be: Backend, st: CircuitState, op: CompareOp, ps: seq<Pair>)
    ensures var (st2, r) := MakeComparisonSpec(be, st, op, ps);
      r.Ok? ==>
        && |r.value| == |ps|
        && forall i :: 0 <= i < |ps| ==>
             if Numeric(ps[i]) then
               r.value[i] == ((ps[i].0.0, ps[i].1.0),
                              if Holds(op, ps[i].0.0.n, ps[i].1.0.n) then NodeTrue else NodeFalse)
             else
               && Admissible(ps[i])
               && r.value[i].0 == (Unwrap(ps[i].0.0).value, Unwrap(ps[i].1.0).value)
               && KeyOf(be, op, ps[i]) in st2.atoms
  {
    if |ps| > 0 {
      var front := ps[..|ps| - 1];
      var last := ps[|ps| - 1];
      MakeComparisonResults(be, st, op, front);
      var (st1, r1) := MakeComparisonSpec(be, st, op, front);
      CompareOneFacts(be, st1, op, last);
      var (st2, c) := CompareOneSpec(be, st1, op, last);
      assert forall i :: 0 <= i < |front| ==> ps[i] == front[i];
      if r1.Ok? && c.Ok? {
        var out := r1.value + [c.value];
        assert MakeComparisonSpec(be, st, op, ps) == (st2, Ok(out));
        forall i | 0 <= i < |front| && !Numeric(ps[i])
          ensures KeyOf(be, op, ps[i]) in st2.atoms
        {
          assert KeyOf(be, op, front[i]) in st1.atoms;
        }
      }
    }
  }

  /** No operand support is set. */
  predicate Unsupported(ps: seq<Pair>)
  {
    forall i :: 0 <= i < |ps| ==> !Truthy(ps[i].0.1) && !Truthy(ps[i].1.1)
  }

  /** Replaying a comparison in any later state of the same session gives
      the same results and leaves that state unchanged: each condition
      finds the atom its string form was given the first time. */
  lemma {:induction false} ComparisonReplay(be: Backend, st: CircuitState, later: CircuitState, op: CompareOp, ps: seq<Pair>)
    requires Unsupported(ps)
    requires MakeComparisonSpec(be, st, op, ps).1.Ok?
    requires Extends(MakeComparisonSpec(be, st, op, ps).0, later)
    ensures MakeComparisonSpec(be, later, op, ps) == (later, MakeComparisonSpec(be, st, op, ps).1)
  {
    if |ps| > 0 {
      var front := ps[..|ps| - 1];
      var last := ps[|ps| - 1];
      var (st1, r1) := MakeComparisonSpec(be, st, op, front);
      var (st2, c) := CompareOneSpec(be, st1, op, last);
      CompareOneFacts(be, st1, op, last);
      ExtendsTransitive(st1, st2, later);
      assert Unsupported(front) by {
        assert forall i :: 0 <= i < |front| ==> front[i] == ps[i];
      }
      ComparisonReplay(be, st, later, op, front);
      if !Numeric(last) {
        var key := KeyOf(be, op, last);
        assert later.atoms[key] == st2.atoms[key];
      }
    }
  }

  /** Compiling the same comparisons twice in a row in one session, with no
      operand support set, gives the same atoms and changes nothing the
      second time. */
  lemma ComparisonIdempotent(be: Backend, st: CircuitState, op: CompareOp, ps: seq<Pair>)
    requires Unsupported(ps)
    requires MakeComparisonSpec(be, st, op, ps).1.Ok?
    ensures var (st2, r) := MakeComparisonSpec(be, st, op, ps);
            MakeComparisonSpec(be, st2, op, ps) == (st2, r)
  {
    ComparisonReplay(be, st, MakeComparisonSpec(be, st, op, ps).0, op, ps);
  }

  /** Two constants are compared on the numeric path: one result, the true
      node exactly when the relation holds, no circuit growth. */
  lemma ConstantComparison(env: Engine, be: Backend, st: CircuitState, op: CompareOp, m: int, n: int)
    ensures BuiltinCompareSpec(env, be, st, op, Constant(m), Constant(n))
            == (st, Ok([((Num(m), Num(n)), if Holds(op, m, n) then NodeTrue else NodeFalse)]))
  {
    EvaluatePassThrough(env, be, st, Constant(m));
    EvaluatePassThrough(env, be, st, Constant(n));
    var ps := [((Num(m), NodeTrue), (Num(n), NodeTrue))];
    assert Pairs([(Num(m), NodeTrue)], [(Num(n), NodeTrue)]) == ps;
    assert MakeComparisonArgsSpec(env, be, st, Constant(m), Constant(n)) == (st, Ok(ps));
    assert ps[..0] == [];
    assert MakeComparisonSpec(be, st, op, ps[..0]) == (st, Ok([]));
    var c := ((Num(m), Num(n)), if Holds(op, m, n) then NodeTrue else NodeFalse);
    assert CompareOneSpec(be, st, op, ps[0]) == (st, Ok(c));
    assert [] + [c] == [c];
    assert MakeComparisonSpec(be, st, op, ps) == (st, Ok([c]));
  }

  // ---------------------------------------------------------------------
  // Implementation

  /** `make_comparison_args(arg1, arg2)`. */
  method MakeComparisonArgs(env: Engine, target: Circuit, a: Term, b: Term) returns (r: Result<seq<Pair>>)
    requires IsGround(a) && IsGround(b)
    modifies target
    ensures (target.State(), r) == MakeComparisonArgsSpec(env, target.backend, old(target.State()), a, b)
  {
    var aValues := Evaluate(env, target, a);
    if aValues.Err? {
      return Err(aValues.error);
    }
    var bValues := Evaluate(env, target, b);
    if bValues.Err? {
      return Err(bValues.error);
    }
    r := Ok(Pairs(aValues.value, bValues.value));
  }

  /** The body of `make_comparison`'s loop for one pair. */
  method CompareOne(target: Circuit, op: CompareOp, p: Pair) returns (r: Result<Compared>)
    modifies target
    ensures (target.State(), r) == CompareOneSpec(target.backend, old(target.State()), op, p)
  {
    var x, y := p.0.0, p.1.0;
    if x.Num? && y.Num? {
      var test := Holds(op, x.n, y.n);
      return Ok(((x, y), if test then NodeTrue else NodeFalse));
    }
    var arg1, arg2 := x, y;
    if arg1.Vector? {
      if |arg1.components| != 1 {
        return Err(AssertionFailed("len(arg.components) == 1"));
      }
      arg1 := arg1.components[0];
    }
    if arg2.Vector? {
      if |arg2.components| != 1 {
        return Err(AssertionFailed("len(arg.components) == 1"));
      }
      arg2 := arg2.components[0];
    }
    var bodyNode1, bodyNode2 := p.0.1, p.1.1;
    var bodyNode;
    if Truthy(bodyNode1) && Truthy(bodyNode2) {
      bodyNode := target.AddAnd([bodyNode1, bodyNode2]);
    } else if Truthy(bodyNode1) {
      bodyNode := bodyNode1;
    } else {
      bodyNode := bodyNode2;
    }
    var symbolicCondition := Symbolic(Symbol(op), [arg1, arg2], CVariables(arg1) + CVariables(arg2));
    var conNode := target.AddAtom(ConditionKey(target.backend.show(symbolicCondition)), symbolicCondition);
    var passNode;
    if Truthy(bodyNode) {
      passNode := target.AddAnd([bodyNode, Node(conNode)]);
    } else {
      passNode := Node(conNode);
    }
    r := Ok(((arg1, arg2), passNode));
  }

  /** `make_comparison(functor, ab_values)`. */
  method MakeComparison(target: Circuit, op: CompareOp, ps: seq<Pair>) returns (r: Result<seq<Compared>>)
    modifies target
    ensures (target.State(), r) == MakeComparisonSpec(target.backend, old(target.State()), op, ps)
  {
    var result: seq<Compared> := [];
    for i := 0 to |ps|
      invariant (target.State(), Ok(result)) == MakeComparisonSpec(target.backend, old(target.State()), op, ps[..i])
    {
      assert ps[..i + 1][..i] == ps[..i];
      var c := CompareOne(target, op, ps[i]);
      if c.Err? {
        MakeComparisonErrSticky(target.backend, old(target.State()), op, ps, i + 1);
        return Err(c.error);
      }
      result := result + [c.value];
    }
    assert ps[..|ps|] == ps;
    r := Ok(result);
  }

  /** `_builtin_lt`; the mode check asks for two ground arguments. */
  method BuiltinLt(env: Engine, target: Circuit, a: Term, b: Term) returns (r: Result<seq<Compared>>)
    requires IsGround(a) && IsGround(b)
    modifies target
    ensures (target.State(), r) == BuiltinCompareSpec(env, target.backend, old(target.State()), Lt, a, b)
  {
    var abValues := MakeComparisonArgs(env, target, a, b);
    if abValues.Err? {
      return Err(abValues.error);
    }
    r := MakeComparison(target, Lt, abValues.value);
  }

  /** `_builtin_gt`. */
  method BuiltinGt(env: Engine, target: Circuit, a: Term, b: Term) returns (r: Result<seq<Compared>>)
    requires IsGround(a) && IsGround(b)
    modifies target
    ensures (target.State(), r) == BuiltinCompareSpec(env, target.backend, old(target.State()), Gt, a, b)
  {
    var abValues := MakeComparisonArgs(env, target, a, b);
    if abValues.Err? {
      return Err(abValues.error);
    }
    r := MakeComparison(target, Gt, abValues.value);
  }

  /** `_builtin_le` (the Prolog `=<`, condition functor `<=`). */
  method BuiltinLe(env: Engine, target: Circuit, a: Term, b: Term) returns (r: Result<seq<Compared>>)
    requires IsGround(a) && IsGround(b)
    modifies target
    ensures (target.State(), r) == BuiltinCompareSpec(env, target.backend, old(target.State()), Le, a, b)
  {
    var abValues := MakeComparisonArgs(env, target, a, b);
    if abValues.Err? {
      return Err(abValues.error);
    }
    r := MakeComparison(target, Le, abValues.value);
  }

  /** `_builtin_ge`. */
  method BuiltinGe(env: Engine, target: Circuit, a: Term, b: Term) returns (r: Result<seq<Compared>>)
    requires IsGround(a) && IsGround(b)
    modifies target
    ensures (target.State(), r) == BuiltinCompareSpec(env, target.backend, old(target.State()), Ge, a, b)
  {
    var abValues := MakeComparisonArgs(env, target, a, b);
    if abValues.Err? {
      return Err(abValues.error);
    }
    r := MakeComparison(target, Ge, abValues.value);
  }
}
