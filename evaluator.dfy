/** The argument evaluator (`evaluate_arithemtics`) and the function
    applicator (`compute_function`), which call each other. */
module Evaluator {
  import opened Values
  import opened Circuits
  import opened Resolver
  import opened Products

  // ---------------------------------------------------------------------
  // Specification

  /** The values of a tuple of alternatives, in order. */
  function ValuesOf(combo: seq<Alternative>): (vs: seq<Value>)
    ensures |vs| == |combo| && forall i :: 0 <= i < |combo| ==> vs[i] == combo[i].0
  {
    seq(|combo|, i requires 0 <= i < |combo| => combo[i].0)
  }

  /** How many supports of a tuple are set (neither `0` nor `None`). */
  function SetSupports(combo: seq<Alternative>): nat
  {
    if |combo| == 0 then 0
    else SetSupports(combo[..|combo| - 1]) + (if Truthy(combo[|combo| - 1].1) then 1 else 0)
  }

  /** Every set support of the tuple holds. */
  ghost predicate SupportsHold(nodes: seq<CircuitNode>, combo: seq<Alternative>, truth: AtomKey -> bool)
  {
    forall i :: 0 <= i < |combo| && Truthy(combo[i].1) ==> Eval(nodes, combo[i].1, truth)
  }

  lemma SupportsHoldSplit(nodes: seq<CircuitNode>, combo: seq<Alternative>, truth: AtomKey -> bool)
    requires |combo| > 0
    ensures SupportsHold(nodes, combo, truth)
            == (SupportsHold(nodes, combo[..|combo| - 1], truth)
                && (Truthy(combo[|combo| - 1].1) ==> Eval(nodes, combo[|combo| - 1].1, truth)))
  {
    assert forall i :: 0 <= i < |combo| - 1 ==> combo[..|combo| - 1][i] == combo[i];
  }

  /** The inner loop of `compute_function` over one tuple: collect the
      values and AND the set supports into `body_node`, starting from `0`. */
  function ConjoinSpec(st: CircuitState, combo: seq<Alternative>): (CircuitState, (seq<Value>, NodeRef))
  {
    if |combo| == 0 then (st, ([], NodeTrue))
    else
      var (st1, acc) := ConjoinSpec(st, combo[..|combo| - 1]);
      var (a, n) := combo[|combo| - 1];
      if Truthy(n) && !Truthy(acc.1) then (st1, (acc.0 + [a], n))
      else if Truthy(n) then
        var (st2, m) := st1.AddAnd([n, acc.1]);
        (st2, (acc.0 + [a], m))
      else (st1, (acc.0 + [a], acc.1))
  }

  /** The inner loop as line 284 writes it: `add_and(n, body_node)` passes
      the node id `n` where `add_and` expects its tuple of children, so the
      second set support of a tuple makes the circuit builder iterate over an
      integer and raise. */
  function ConjoinAsWrittenSpec(st: CircuitState, combo: seq<Alternative>): (CircuitState, Result<(seq<Value>, NodeRef)>)
  {
    if |combo| == 0 then (st, Ok(([], NodeTrue)))
    else
      var (st1, r) := ConjoinAsWrittenSpec(st, combo[..|combo| - 1]);
      if r.Err? then (st1, r)
      else
        var acc := r.value;
        var (a, n) := combo[|combo| - 1];
        if Truthy(n) && !Truthy(acc.1) then (st1, Ok((acc.0 + [a], n)))
        else if Truthy(n) then (st1, Err(ChildrenNotIterable))
        else (st1, Ok((acc.0 + [a], acc.1)))
  }

  /** The outer loop over all tuples of the product. */
  function ConjoinAllSpec(st: CircuitState, combos: seq<seq<Alternative>>): (CircuitState, seq<(seq<Value>, NodeRef)>)
  {
    if |combos| == 0 then (st, [])
    else
      var (st1, out) := ConjoinAllSpec(st, combos[..|combos| - 1]);
      var (st2, c) := ConjoinSpec(st1, combos[|combos| - 1]);
      (st2, out + [c])
  }

  /** A call `function(*args)`, with ZeroDivisionError turned into
      ArithmeticError "Division by zero." and ValueError into an
      ArithmeticError carrying the ValueError's message, which is what the
      handler at line 295 of engine_builtin.py is evidently meant to do. */
  function ApplyOne(fn: seq<Value> -> FnOutcome, args: seq<Value>): Result<Value>
  {
    match fn(args)
    case Returned(v) => Ok(v)
    case RaisedZeroDivision => Err(DivisionByZero)
    case RaisedValueError(m) => Err(ArithmeticDomain(m))
  }

  /** The handler as written: `err.message` does not exist on a Python 3
      ValueError, so evaluating the `raise` raises an AttributeError instead. */
  function ApplyOneAsWritten(fn: seq<Value> -> FnOutcome, args: seq<Value>): Result<Value>
  {
    match fn(args)
    case Returned(v) => Ok(v)
    case RaisedZeroDivision => Err(DivisionByZero)
    case RaisedValueError(_) => Err(NoMessageAttribute)
  }

  /** The result loop: apply the function to every tuple; the first error
      aborts the whole call. */
  function ApplyAll(fn: seq<Value> -> FnOutcome, conj: seq<(seq<Value>, NodeRef)>): Result<seq<Alternative>>
  {
    if |conj| == 0 then Ok([])
    else
      match ApplyAll(fn, conj[..|conj| - 1])
      case Err(e) => Err(e)
      case Ok(out) =>
        match ApplyOne(fn, conj[|conj| - 1].0)
        case Err(e) => Err(e)
        case Ok(v) => Ok(out + [(v, conj[|conj| - 1].1)])
  }

  /** `evaluate_arithemtics`: dispatch on the kind of term. */
  function EvaluateSpec(env: Engine, be: Backend, st: CircuitState, t: Term): (CircuitState, Result<seq<Alternative>>)
    requires IsGround(t)
    decreases t, 2
  {
    if t.Constant? then (st, Ok([(Num(t.n), NodeTrue)]))
    else if t.Val? && (t.v.Symbolic? || t.v.RandomVariable? || t.v.Vector?) then (st, Ok([(t.v, NodeTrue)]))
    else if t.Compound? && (t.functor, |t.args|) in env.arithmeticFunctions then ComputeFunctionSpec(env, be, st, t)
    else GroundSpec(env, be, st, t)
  }

  /** The last branch: ground `~(t, Distribution)` as a subcall and resolve
      every grounding. */
  function GroundSpec(env: Engine, be: Backend, st: CircuitState, t: Term): (CircuitState, Result<seq<Alternative>>)
  {
    match env.ground(Goal(t, true))
    case Err(e) => (st, Err(e))
    case Ok(gs) =>
      var (st1, alts) := ResolveAllSpec(be, st, gs);
      (st1, Ok(alts))
  }

  /** `compute_function`: look the function up, evaluate the arguments,
      conjoin the supports of every tuple of the product, apply. */
  function ComputeFunctionSpec(env: Engine, be: Backend, st: CircuitState, t: Term): (CircuitState, Result<seq<Alternative>>)
    requires t.Compound? && IsGround(t)
    decreases t, 1
  {
    var key := (t.functor, |t.args|);
    if key !in env.arithmeticFunctions && key !in env.extraFunctions then
      (st, Err(UnknownFunction(t.functor, |t.args|)))
    else
      var fn := if key in env.arithmeticFunctions then env.arithmeticFunctions[key] else env.extraFunctions[key];
      var (st1, lists) := EvaluateArgsSpec(env, be, st, t, |t.args|);
      if lists.Err? then (st1, Err(lists.error))
      else
        var (st2, conj) := ConjoinAllSpec(st1, Product(lists.value));
        (st2, ApplyAll(fn, conj))
  }

  /** The value lists of the first `n` arguments, evaluated left to right. */
  function EvaluateArgsSpec(env: Engine, be: Backend, st: CircuitState, t: Term, n: nat): (CircuitState, Result<seq<seq<Alternative>>>)
    requires t.Compound? && IsGround(t) && n <= |t.args|
    decreases t, 0, n
  {
    if n == 0 then (st, Ok([]))
    else
      var (st1, lists) := EvaluateArgsSpec(env, be, st, t, n - 1);
      if lists.Err? then (st1, lists)
      else
        var (st2, vs) := EvaluateSpec(env, be, st1, t.args[n - 1]);
        if vs.Err? then (st2, Err(vs.error)) else (st2, Ok(lists.value + [vs.value]))
  }

  // ---------------------------------------------------------------------
  // Properties

  /** A constant gives the single alternative `(value, 0)`; a symbolic, a
      random-variable or a vector value is passed through with support `0`;
      none of them touches the circuit. */
  lemma EvaluatePassThrough(env: Engine, be: Backend, st: CircuitState, t: Term)
    requires t.Constant? || (t.Val? && (t.v.Symbolic? || t.v.RandomVariable? || t.v.Vector?))
    ensures EvaluateSpec(env, be, st, t) == (st, Ok([(if t.Constant? then Num(t.n) else t.v, NodeTrue)]))
  {
  }

  /** Any other term that is not a known arithmetic function is grounded:
      exactly one alternative per grounding, in the grounder's order, with
      the grounding's node as support and the session's cached handle as
      value. A grounder error is passed on. */
  lemma EvaluateGrounded(env: Engine, be: Backend, st: CircuitState, t: Term)
    requires IsGround(t)
    requires !t.Constant? && !(t.Val? && (t.v.Symbolic? || t.v.RandomVariable? || t.v.Vector?))
    requires !(t.Compound? && (t.functor, |t.args|) in env.arithmeticFunctions)
    ensures var (st2, r) := EvaluateSpec(env, be, st, t);
      match env.ground(Goal(t, true))
      case Err(e) => r == Err(e) && st2 == st
      case Ok(gs) =>
        && r.Ok? && |r.value| == |gs|
        && st2.nodes == st.nodes && st2.atoms == st.atoms && Extends(st, st2)
        && forall i :: 0 <= i < |gs| ==>
             && r.value[i].1 == gs[i].node && r.value[i].0.RandomVariable?
             && be.densityName(gs[i].rv, gs[i].node) in st2.densityValues
             && r.value[i].0.rv == st2.densityValues[be.densityName(gs[i].rv, gs[i].node)]
  {
    if env.ground(Goal(t, true)).Ok? {
      ResolveAllFacts(be, st, env.ground(Goal(t, true)).value);
    }
  }

  /** An unknown (name, arity) fails before any argument is evaluated. */
  lemma UnknownFunctionFails(env: Engine, be: Backend, st: CircuitState, t: Term)
    requires t.Compound? && IsGround(t)
    requires (t.functor, |t.args|) !in env.arithmeticFunctions && (t.functor, |t.args|) !in env.extraFunctions
    ensures ComputeFunctionSpec(env, be, st, t) == (st, Err(UnknownFunction(t.functor, |t.args|)))
  {
  }

  lemma {:induction false} EvaluateArgsLength(env: Engine, be: Backend, st: CircuitState, t: Term, n: nat)
    requires t.Compound? && IsGround(t) && n <= |t.args|
    ensures EvaluateArgsSpec(env, be, st, t, n).1.Ok? ==> |EvaluateArgsSpec(env, be, st, t, n).1.value| == n
  {
    if n > 0 {
      EvaluateArgsLength(env, be, st, t, n - 1);
    }
  }

  /** Once an argument fails, the later ones are never evaluated. */
  lemma {:induction false} EvaluateArgsErrSticky(env: Engine, be: Backend, st: CircuitState, t: Term, k: nat, m: nat)
    requires t.Compound? && IsGround(t) && k <= m <= |t.args|
    requires EvaluateArgsSpec(env, be, st, t, k).1.Err?
    ensures EvaluateArgsSpec(env, be, st, t, m) == EvaluateArgsSpec(env, be, st, t, k)
    decreases m
  {
    if m > k {
      EvaluateArgsErrSticky(env, be, st, t, k, m - 1);
    }
  }

  /** The conjunction of one tuple: the values in order; support `0`
      exactly when no chosen support is set; a single set support is taken
      as it is; n set supports cost n - 1 new AND nodes and nothing else;
      and the support means the conjunction of the set supports. */
  lemma {:induction false} ConjoinFacts(st: CircuitState, combo: seq<Alternative>, truth: AtomKey -> bool)
    requires forall i :: 0 <= i < |combo| ==> ValidRef(|st.nodes|, combo[i].1)
    ensures var (st2, (cargs, body)) := ConjoinSpec(st, combo);
      && cargs == ValuesOf(combo)
      && st2.atoms == st.atoms && st2.densityValues == st.densityValues && st.nodes <= st2.nodes
      && |st2.nodes| == |st.nodes| + (if SetSupports(combo) == 0 then 0 else SetSupports(combo) - 1)
      && (body == NodeTrue || Truthy(body)) && ValidRef(|st2.nodes|, body)
      && (body == NodeTrue <==> SetSupports(combo) == 0)
      && (SetSupports(combo) == 1 ==> exists i :: 0 <= i < |combo| && body == combo[i].1)
      && Eval(st2.nodes, body, truth) == SupportsHold(st.nodes, combo, truth)
  {
    if |combo| > 0 {
      var front := combo[..|combo| - 1];
      ConjoinFacts(st, front, truth);
      var (st1, acc) := ConjoinSpec(st, front);
      var (a, n) := combo[|combo| - 1];
      assert ValuesOf(combo) == ValuesOf(front) + [a];
      var (st2, (cargs, body)) := ConjoinSpec(st, combo);
      SupportsHoldSplit(st.nodes, combo, truth);
      EvalExtends(st.nodes, st1.nodes, n, truth);
      if Truthy(n) && Truthy(acc.1) {
        var cs := [n, acc.1];
        assert cs[0] == n && cs[1] == acc.1;
        AddAndMeaning(st1, cs, truth);
        assert (st2, body) == st1.AddAnd(cs);
        assert Eval(st2.nodes, body, truth) == (Eval(st1.nodes, n, truth) && Eval(st1.nodes, acc.1, truth));
      } else if Truthy(n) {
        assert acc.1 == NodeTrue;
        assert SetSupports(front) == 0;
      } else {
        if SetSupports(combo) == 1 {
          var i :| 0 <= i < |front| && acc.1 == front[i].1;
          assert combo[i] == front[i];
        }
      }
      assert forall i :: 0 <= i < |front| ==> combo[i] == front[i];
    }
  }

  /** The code as written fails on exactly the tuples with two or more set
      supports, and agrees with the intended conjunction on all others. */
  lemma {:induction false} ConjoinAsWrittenFails(st: CircuitState, combo: seq<Alternative>)
    ensures ConjoinAsWrittenSpec(st, combo).1.Err? <==> SetSupports(combo) >= 2
    ensures ConjoinAsWrittenSpec(st, combo).1.Err? ==> ConjoinAsWrittenSpec(st, combo).1.error == ChildrenNotIterable
    ensures SetSupports(combo) < 2 ==>
      ConjoinAsWrittenSpec(st, combo) == (ConjoinSpec(st, combo).0, Ok(ConjoinSpec(st, combo).1))
  {
    if |combo| > 0 {
      var front := combo[..|combo| - 1];
      ConjoinAsWrittenFails(st, front);
      ConjoinSupportShape(st, front);
    }
  }

  /** `1 + 2` with both operands supported by real nodes: the product has
      one tuple whose two supports are set, and the code as written raises. */
  lemma ConjoinAsWrittenCounterexample(st: CircuitState)
    ensures ConjoinAsWrittenSpec(st, [(Num(1), Node(1)), (Num(2), Node(2))]).1 == Err(ChildrenNotIterable)
  {
    var combo := [(Num(1), Node(1)), (Num(2), Node(2))];
    assert combo[..1][..0] == [];
    assert combo[..1] == [(Num(1), Node(1))];
    assert [] + [Num(1)] == [Num(1)];
    assert ConjoinAsWrittenSpec(st, combo[..1][..0]) == (st, Ok(([], NodeTrue)));
    assert ConjoinAsWrittenSpec(st, combo[..1]) == (st, Ok(([Num(1)], Node(1))));
  }

  /** The support of a tuple is `0` exactly when none of its supports is set,
      and a real node otherwise. */
  lemma {:induction false} ConjoinSupportShape(st: CircuitState, combo: seq<Alternative>)
    ensures var body := ConjoinSpec(st, combo).1.1;
      (body == NodeTrue || Truthy(body)) && (body == NodeTrue <==> SetSupports(combo) == 0)
  {
    if |combo| > 0 {
      ConjoinSupportShape(st, combo[..|combo| - 1]);
    }
  }

  /** The conjunction loop over all tuples: one entry per tuple, each with
      the tuple's values and a support meaning the conjunction of its set
      supports; only AND nodes are added. */
  lemma {:induction false} ConjoinAllFacts(st: CircuitState, combos: seq<seq<Alternative>>, truth: AtomKey -> bool)
    requires forall i, j :: 0 <= i < |combos| && 0 <= j < |combos[i]| ==> ValidRef(|st.nodes|, combos[i][j].1)
    ensures var (st2, out) := ConjoinAllSpec(st, combos);
      && |out| == |combos|
      && st2.atoms == st.atoms && st2.densityValues == st.densityValues && st.nodes <= st2.nodes
      && forall i :: 0 <= i < |combos| ==>
           && out[i].0 == ValuesOf(combos[i])
           && ValidRef(|st2.nodes|, out[i].1)
           && Eval(st2.nodes, out[i].1, truth) == SupportsHold(st.nodes, combos[i], truth)
  {
    if |combos| > 0 {
      var front := combos[..|combos| - 1];
      ConjoinAllFacts(st, front, truth);
      var (st1, out1) := ConjoinAllSpec(st, front);
      var last := combos[|combos| - 1];
      forall j | 0 <= j < |last| ensures ValidRef(|st1.nodes|, last[j].1) {
        assert ValidRef(|st.nodes|, combos[|combos| - 1][j].1);
      }
      ConjoinFacts(st1, last, truth);
      var (st2, c) := ConjoinSpec(st1, last);
      forall j | 0 <= j < |last| && Truthy(last[j].1)
        ensures Eval(st1.nodes, last[j].1, truth) == Eval(st.nodes, last[j].1, truth)
      {
        assert ValidRef(|st.nodes|, combos[|combos| - 1][j].1);
        EvalExtends(st.nodes, st1.nodes, last[j].1, truth);
      }
      assert SupportsHold(st1.nodes, last, truth) == SupportsHold(st.nodes, last, truth);
      forall i | 0 <= i < |front| ensures Eval(st2.nodes, out1[i].1, truth) == Eval(st1.nodes, out1[i].1, truth) {
        EvalExtends(st1.nodes, st2.nodes, out1[i].1, truth);
      }
      assert forall i :: 0 <= i < |front| ==> combos[i] == front[i];
    }
  }

  /** The function is applied to every tuple in order; the call succeeds
      exactly when no application raises, and then gives one result per
      tuple carrying that tuple's support. */
  lemma {:induction false} ApplyAllFacts(fn: seq<Value> -> FnOutcome, conj: seq<(seq<Value>, NodeRef)>)
    ensures ApplyAll(fn, conj).Ok? <==> forall i :: 0 <= i < |conj| ==> fn(conj[i].0).Returned?
    ensures ApplyAll(fn, conj).Ok? ==>
      && |ApplyAll(fn, conj).value| == |conj|
      && forall i :: 0 <= i < |conj| ==> ApplyAll(fn, conj).value[i] == (fn(conj[i].0).v, conj[i].1)
  {
    if |conj| > 0 {
      var front := conj[..|conj| - 1];
      ApplyAllFacts(fn, front);
      assert forall i :: 0 <= i < |front| ==> conj[i] == front[i];
    }
  }

  /** A division by zero in any tuple aborts the whole call. */
  lemma {:induction false} DivisionByZeroAborts(fn: seq<Value> -> FnOutcome, conj: seq<(seq<Value>, NodeRef)>, k: nat)
    requires k < |conj| && fn(conj[k].0).RaisedZeroDivision?
    requires forall i :: 0 <= i < k ==> fn(conj[i].0).Returned?
    ensures ApplyAll(fn, conj) == Err(DivisionByZero)
  {
    if k < |conj| - 1 {
      DivisionByZeroAborts(fn, conj[..|conj| - 1], k);
    } else {
      ApplyAllFacts(fn, conj[..|conj| - 1]);
    }
  }

  /** A ValueError in any tuple, after successful earlier tuples, aborts the
      whole call with an ArithmeticError carrying that ValueError's message. */
  lemma {:induction false} ValueErrorAborts(fn: seq<Value> -> FnOutcome, conj: seq<(seq<Value>, NodeRef)>, k: nat)
    requires k < |conj| && fn(conj[k].0).RaisedValueError?
    requires forall i :: 0 <= i < k ==> fn(conj[i].0).Returned?
    ensures ApplyAll(fn, conj) == Err(ArithmeticDomain(fn(conj[k].0).message))
  {
    if k < |conj| - 1 {
      ValueErrorAborts(fn, conj[..|conj| - 1], k);
    } else {
      ApplyAllFacts(fn, conj[..|conj| - 1]);
    }
  }

  /** `sqrt(-1)`: a function that raises a ValueError ends, as written, in an
      AttributeError rather than the intended ArithmeticError. */
  lemma ValueErrorAsWrittenCounterexample(fn: seq<Value> -> FnOutcome)
    requires fn([Num(-1)]) == RaisedValueError("math domain error")
    ensures ApplyOneAsWritten(fn, [Num(-1)]) == Err(NoMessageAttribute)
    ensures ApplyOne(fn, [Num(-1)]) == Err(ArithmeticDomain("math domain error"))
    ensures ApplyOneAsWritten(fn, [Num(-1)]) != ApplyOne(fn, [Num(-1)])
  {
  }

  lemma {:induction false} ApplyAllErrSticky(fn: seq<Value> -> FnOutcome, conj: seq<(seq<Value>, NodeRef)>, k: nat)
    requires k <= |conj| && ApplyAll(fn, conj[..k]).Err?
    ensures ApplyAll(fn, conj) == ApplyAll(fn, conj[..k])
  {
    if k < |conj| {
      assert conj[..|conj| - 1][..k] == conj[..k];
      ApplyAllErrSticky(fn, conj[..|conj| - 1], k);
    } else {
      assert conj[..k] == conj;
    }
  }

  /** A known function yields exactly k1 * ... * kn results for argument
      lists of k1, ..., kn alternatives. */
  lemma ComputeFunctionCount(env: Engine, be: Backend, st: CircuitState, t: Term)
    requires t.Compound? && IsGround(t)
    requires ComputeFunctionSpec(env, be, st, t).1.Ok?
    ensures var lists := EvaluateArgsSpec(env, be, st, t, |t.args|).1;
      && lists.Ok? && |lists.value| == |t.args|
      && |ComputeFunctionSpec(env, be, st, t).1.value| == LengthProduct(lists.value)
  {
    var (st1, lists) := EvaluateArgsSpec(env, be, st, t, |t.args|);
    EvaluateArgsLength(env, be, st, t, |t.args|);
    var key := (t.functor, |t.args|);
    var fn := if key in env.arithmeticFunctions then env.arithmeticFunctions[key] else env.extraFunctions[key];
    var combos := Product(lists.value);
    ProductLength(lists.value);
    var (st2, conj) := ConjoinAllSpec(st1, combos);
    ConjoinAllLength(st1, combos);
    ApplyAllFacts(fn, conj);
  }

  lemma {:induction false} ConjoinAllLength(st: CircuitState, combos: seq<seq<Alternative>>)
    ensures |ConjoinAllSpec(st, combos).1| == |combos|
  {
    if |combos| > 0 {
      ConjoinAllLength(st, combos[..|combos| - 1]);
    }
  }

  lemma {:induction false} ConjoinExtends(st: CircuitState, combo: seq<Alternative>)
    ensures Extends(st, ConjoinSpec(st, combo).0)
    ensures st.Valid() ==> ConjoinSpec(st, combo).0.Valid()
  {
    if |combo| > 0 {
      ConjoinExtends(st, combo[..|combo| - 1]);
    }
  }

  lemma {:induction false} ConjoinAllExtends(st: CircuitState, combos: seq<seq<Alternative>>)
    ensures Extends(st, ConjoinAllSpec(st, combos).0)
    ensures st.Valid() ==> ConjoinAllSpec(st, combos).0.Valid()
  {
    if |combos| > 0 {
      var front := combos[..|combos| - 1];
      ConjoinAllExtends(st, front);
      ConjoinExtends(ConjoinAllSpec(st, front).0, combos[|combos| - 1]);
    }
  }

  /** Evaluation only grows the session: nodes are appended, atoms and
      cached handles never change once present, and validity is kept. */
  lemma {:induction false} EvaluateExtends(env: Engine, be: Backend, st: CircuitState, t: Term)
    requires IsGround(t)
    ensures Extends(st, EvaluateSpec(env, be, st, t).0)
    ensures st.Valid() ==> EvaluateSpec(env, be, st, t).0.Valid()
    decreases t, 2
  {
    if t.Constant? || (t.Val? && (t.v.Symbolic? || t.v.RandomVariable? || t.v.Vector?)) {
    } else if t.Compound? && (t.functor, |t.args|) in env.arithmeticFunctions {
      ComputeFunctionExtends(env, be, st, t);
    } else if env.ground(Goal(t, true)).Ok? {
      ResolveAllFacts(be, st, env.ground(Goal(t, true)).value);
    }
  }

  lemma {:induction false} ComputeFunctionExtends(env: Engine, be: Backend, st: CircuitState, t: Term)
    requires t.Compound? && IsGround(t)
    ensures Extends(st, ComputeFunctionSpec(env, be, st, t).0)
    ensures st.Valid() ==> ComputeFunctionSpec(env, be, st, t).0.Valid()
    decreases t, 1
  {
    var key := (t.functor, |t.args|);
    if key in env.arithmeticFunctions || key in env.extraFunctions {
      EvaluateArgsExtends(env, be, st, t, |t.args|);
      var (st1, lists) := EvaluateArgsSpec(env, be, st, t, |t.args|);
      if lists.Ok? {
        ConjoinAllExtends(st1, Product(lists.value));
      }
    }
  }

  lemma {:induction false} EvaluateArgsExtends(env: Engine, be: Backend, st: CircuitState, t: Term, n: nat)
    requires t.Compound? && IsGround(t) && n <= |t.args|
    ensures Extends(st, EvaluateArgsSpec(env, be, st, t, n).0)
    ensures st.Valid() ==> EvaluateArgsSpec(env, be, st, t, n).0.Valid()
    decreases t, 0, n
  {
    if n > 0 {
      EvaluateArgsExtends(env, be, st, t, n - 1);
      var (st1, lists) := EvaluateArgsSpec(env, be, st, t, n - 1);
      if lists.Ok? {
        EvaluateExtends(env, be, st1, t.args[n - 1]);
      }
    }
  }

  // ---------------------------------------------------------------------
  // Implementation

  /** `evaluate_arithemtics(term)` with `target`. */
  method Evaluate(env: Engine, target: Circuit, t: Term) returns (r: Result<seq<Alternative>>)
    requires IsGround(t)
    modifies target
    ensures (target.State(), r) == EvaluateSpec(env, target.backend, old(target.State()), t)
    decreases t, 2
  {
    if t.Constant? {
      r := Ok([(Num(t.n), NodeTrue)]);
    } else if t.Val? && (t.v.Symbolic? || t.v.RandomVariable? || t.v.Vector?) {
      r := Ok([(t.v, NodeTrue)]);
    } else if t.Compound? && (t.functor, |t.args|) in env.arithmeticFunctions {
      r := ComputeFunction(env, target, t);
    } else {
      var grounded := env.ground(Goal(t, true));
      if grounded.Err? {
        return Err(grounded.error);
      }
      var gs := grounded.value;
      var values: seq<Alternative> := [];
      for i := 0 to |gs|
        invariant (target.State(), values) == ResolveAllSpec(target.backend, old(target.State()), gs[..i])
      {
        assert gs[..i + 1][..i] == gs[..i];
        var a := GetDistribution(target, gs[i]);
        values := values + [a];
      }
      assert gs[..|gs|] == gs;
      r := Ok(values);
    }
  }

  /** `compute_function(term)` with `target`. */
  method ComputeFunction(env: Engine, target: Circuit, t: Term) returns (r: Result<seq<Alternative>>)
    requires t.Compound? && IsGround(t)
    modifies target
    ensures (target.State(), r) == ComputeFunctionSpec(env, target.backend, old(target.State()), t)
    decreases t, 1
  {
    var key := (t.functor, |t.args|);
    var fn: seq<Value> -> FnOutcome;
    if key in env.arithmeticFunctions {
      fn := env.arithmeticFunctions[key];
    } else if key in env.extraFunctions {
      fn := env.extraFunctions[key];
    } else {
      return Err(UnknownFunction(t.functor, |t.args|));
    }
    ghost var st0 := target.State();
    var valueLists: seq<seq<Alternative>> := [];
    for i := 0 to |t.args|
      invariant (target.State(), Ok(valueLists)) == EvaluateArgsSpec(env, target.backend, st0, t, i)
    {
      var vs := Evaluate(env, target, t.args[i]);
      if vs.Err? {
        EvaluateArgsErrSticky(env, target.backend, st0, t, i + 1, |t.args|);
        return Err(vs.error);
      }
      valueLists := valueLists + [vs.value];
    }
    var combos := Product(valueLists);
    var conjoined := ConjoinEach(target, combos);
    r := ApplyEach(fn, conjoined);
  }

  /** The inner loop of `compute_function` over one tuple. */
  method ConjoinSupports(target: Circuit, combo: seq<Alternative>) returns (cargs: seq<Value>, body: NodeRef)
    modifies target
    ensures (target.State(), (cargs, body)) == ConjoinSpec(old(target.State()), combo)
  {
    cargs, body := [], NodeTrue;
    for j := 0 to |combo|
      invariant (target.State(), (cargs, body)) == ConjoinSpec(old(target.State()), combo[..j])
    {
      assert combo[..j + 1][..j] == combo[..j];
      var (a, n) := combo[j];
      cargs := cargs + [a];
      if Truthy(n) && !Truthy(body) {
        body := n;
      } else if Truthy(n) {
        body := target.AddAnd([n, body]);
      }
    }
    assert combo[..|combo|] == combo;
  }

  /** The loop of `compute_function` over the tuples of the product. */
  method ConjoinEach(target: Circuit, combos: seq<seq<Alternative>>) returns (conjoined: seq<(seq<Value>, NodeRef)>)
    modifies target
    ensures (target.State(), conjoined) == ConjoinAllSpec(old(target.State()), combos)
  {
    conjoined := [];
    for i := 0 to |combos|
      invariant (target.State(), conjoined) == ConjoinAllSpec(old(target.State()), combos[..i])
    {
      assert combos[..i + 1][..i] == combos[..i];
      var cargs, body := ConjoinSupports(target, combos[i]);
      conjoined := conjoined + [(cargs, body)];
    }
    assert combos[..|combos|] == combos;
  }

  /** The result loop of `compute_function`. */
  method ApplyEach(fn: seq<Value> -> FnOutcome, conjoined: seq<(seq<Value>, NodeRef)>) returns (r: Result<seq<Alternative>>)
    ensures r == ApplyAll(fn, conjoined)
  {
    var results: seq<Alternative> := [];
    for i := 0 to |conjoined|
      invariant Ok(results) == ApplyAll(fn, conjoined[..i])
    {
      assert conjoined[..i + 1][..i] == conjoined[..i];
      var out := ApplyOne(fn, conjoined[i].0);
      if out.Err? {
        ApplyAllErrSticky(fn, conjoined, i + 1);
        return Err(out.error);
      }
      results := results + [(out.value, conjoined[i].1)];
    }
    assert conjoined[..|conjoined|] == conjoined;
    r := Ok(results);
  }
}
