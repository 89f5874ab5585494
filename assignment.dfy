/** The builtin `is/2`: evaluate the right-hand side and pair every
    alternative value, converted to a term, with its support. */
module Assignment {
  import opened Values
  import opened Circuits
  import opened Evaluator

  /** One result: the assigned term, the right-hand side, the support. */
  type Assigned = ((Term, Term), NodeRef)

  /** The term an alternative value is unified with when the left-hand side
      is `a`: a number becomes a constant; otherwise an unbound left-hand side
      takes the value as it is, and a list on the left takes the value's
      components (those of a vector or of a random-variable handle) as a
      list of the same length. */
  function AssignValue(a: Term, v: Value): Result<Term>
  {
    if v.Num? then Ok(Constant(v.n))
    else if a.Var? then Ok(Val(v))
    else
      match TermToList(a)
      case Err(e) => Err(e)
      case Ok(list) =>
        if HasComponents(v) && |list| == |ComponentsOf(v)| then Ok(ListTerm(ValuesAsTerms(ComponentsOf(v))))
        else Err(VectorLengthMismatch(|list|))
  }

  /** The loop over the alternatives: `None` values are skipped. */
  function AssignAllSpec(a: Term, b: Term, alts: seq<Alternative>): Result<seq<Assigned>>
  {
    if |alts| == 0 then Ok([])
    else
      match AssignAllSpec(a, b, alts[..|alts| - 1])
      case Err(e) => Err(e)
      case Ok(out) =>
        var alt := alts[|alts| - 1];
        if alt.0.NoneValue? then Ok(out)
        else
          match AssignValue(a, alt.0)
          case Err(e) => Err(e)
          case Ok(c) => Ok(out + [((c, b), alt.1)])
  }

  /** `_builtin_is(a, b)`; the mode check asks for a ground `b`. A
      unification error during evaluation gives no results. */
  function IsSpec(env: Engine, be: Backend, st: CircuitState, a: Term, b: Term): (CircuitState, Result<seq<Assigned>>)
    requires IsGround(b)
  {
    var (st1, r) := EvaluateSpec(env, be, st, b);
    if r.Err? then (st1, if r.error.UnifyError? then Ok([]) else Err(r.error))
    else (st1, AssignAllSpec(a, b, r.value))
  }

  // ---------------------------------------------------------------------
  // Reference definitions

  /** The alternatives whose value is not `None`, in order. */
  function Kept(alts: seq<Alternative>): seq<Alternative>
  {
    if |alts| == 0 then []
    else (if alts[0].0.NoneValue? then [] else [alts[0]]) + Kept(alts[1..])
  }

  // ---------------------------------------------------------------------
  // Properties

  /** The conversion fails only for a non-numeric value assigned to a bound
      left-hand side: with an error when that side is not a proper list, and
      with a length mismatch when the value has no components or not as many
      as the list has elements. A successful list assignment is a proper list
      of the components, as long as the left-hand side; for a random variable
      these are its component constants 0, 1, ... in order. */
  lemma AssignValueFacts(a: Term, v: Value)
    ensures AssignValue(a, v).Ok? <==>
      v.Num? || a.Var? || (TermToList(a).Ok? && HasComponents(v) && |TermToList(a).value| == |ComponentsOf(v)|)
    ensures v.Num? ==> AssignValue(a, v) == Ok(Constant(v.n))
    ensures !v.Num? && a.Var? ==> AssignValue(a, v) == Ok(Val(v))
    ensures !v.Num? && !a.Var? && TermToList(a).Err? ==> AssignValue(a, v) == Err(NotAFixedList)
    ensures !v.Num? && !a.Var? && TermToList(a).Ok? && AssignValue(a, v).Err? ==>
      AssignValue(a, v) == Err(VectorLengthMismatch(|TermToList(a).value|))
    ensures !v.Num? && !a.Var? && AssignValue(a, v).Ok? ==>
      HasComponents(v)
      && TermToList(AssignValue(a, v).value) == Ok(ValuesAsTerms(ComponentsOf(v)))
      && |ValuesAsTerms(ComponentsOf(v))| == |TermToList(a).value|
    ensures v.RandomVariable? && !a.Var? && AssignValue(a, v).Ok? ==>
      var elems := TermToList(AssignValue(a, v).value).value;
      && |elems| == v.rv.dimensions
      && forall i :: 0 <= i < |elems| ==> elems[i] == Val(Component(v.rv, i))
  {
    if !v.Num? && !a.Var? {
      TermToListErrors(a);
      if AssignValue(a, v).Ok? {
        ListRoundTrip(ValuesAsTerms(ComponentsOf(v)));
      }
    }
  }

  /** `[A] is x` for a one-dimensional random variable `x`: `A` is bound to
      the handle's single component. */
  lemma RandomVariableListAssignment(rv: RandomVariableConstant)
    requires rv.dimensions == 1
    ensures AssignValue(ListTerm([Var(0)]), RandomVariable(rv)) == Ok(ListTerm([Val(Component(rv, 0))]))
  {
    ListRoundTrip([Var(0)]);
    assert ValuesAsTerms(RandomVariableComponents(rv)) == [Val(Component(rv, 0))];
  }

  /** `term2list` fails only with the not-a-list error. */
  lemma {:induction false} TermToListErrors(t: Term)
    ensures TermToList(t).Err? ==> TermToList(t).error == NotAFixedList
  {
    match t
    case Compound(f, args) =>
      if f == "." && |args| == 2 {
        TermToListErrors(args[1]);
      }
    case _ =>
  }

  lemma {:induction false} KeptSnoc(alts: seq<Alternative>)
    requires |alts| > 0
    ensures Kept(alts) == Kept(alts[..|alts| - 1])
                          + (if alts[|alts| - 1].0.NoneValue? then [] else [alts[|alts| - 1]])
  {
    if |alts| > 1 {
      KeptSnoc(alts[1..]);
      assert alts[1..][..|alts| - 2] == alts[..|alts| - 1][1..];
    }
  }

  /** The loop succeeds exactly when every value that is not `None`
      converts, and then gives one result per such value, in order, with
      the converted term, the right-hand side and the value's support. */
  lemma {:induction false} AssignAllFacts(a: Term, b: Term, alts: seq<Alternative>)
    ensures AssignAllSpec(a, b, alts).Ok? <==>
      forall i :: 0 <= i < |alts| ==> alts[i].0.NoneValue? || AssignValue(a, alts[i].0).Ok?
    ensures AssignAllSpec(a, b, alts).Err? ==>
      AssignAllSpec(a, b, alts).error.NotAFixedList? || AssignAllSpec(a, b, alts).error.VectorLengthMismatch?
    ensures AssignAllSpec(a, b, alts).Ok? ==>
      var out := AssignAllSpec(a, b, alts).value;
      var kept := Kept(alts);
      && |out| == |kept|
      && forall j :: 0 <= j < |kept| ==>
           !kept[j].0.NoneValue? && AssignValue(a, kept[j].0).Ok?
           && out[j] == ((AssignValue(a, kept[j].0).value, b), kept[j].1)
  {
    if |alts| > 0 {
      var front := alts[..|alts| - 1];
      var alt := alts[|alts| - 1];
      AssignAllFacts(a, b, front);
      KeptSnoc(alts);
      assert forall i :: 0 <= i < |front| ==> front[i] == alts[i];
      if !alt.0.NoneValue? {
        AssignValueFacts(a, alt.0);
        TermToListErrors(a);
      }
    }
  }

  /** A unification error raised while evaluating the right-hand side gives
      no results, not an error. */
  lemma UnifyErrorGivesNoResults(env: Engine, be: Backend, st: CircuitState, a: Term, b: Term)
    requires IsGround(b)
    requires EvaluateSpec(env, be, st, b).1 == Err(UnifyError)
    ensures IsSpec(env, be, st, a, b) == (EvaluateSpec(env, be, st, b).0, Ok([]))
  {
  }

  /** `X is n` for a number `n`: one result, the constant, with the true
      node as support, and the circuit unchanged. */
  lemma ConstantAssignment(env: Engine, be: Backend, st: CircuitState, a: Term, n: int)
    ensures IsSpec(env, be, st, a, Constant(n)) == (st, Ok([((Constant(n), Constant(n)), NodeTrue)]))
  {
    EvaluatePassThrough(env, be, st, Constant(n));
    var alts := [(Num(n), NodeTrue)];
    assert alts[..0] == [];
    assert AssignAllSpec(a, Constant(n), alts[..0]) == Ok([]);
    var one := ((Constant(n), Constant(n)), NodeTrue);
    assert [] + [one] == [one];
    assert AssignAllSpec(a, Constant(n), alts) == Ok([one]);
  }

  // ---------------------------------------------------------------------
  // Implementation

  lemma {:induction false} AssignAllErrSticky(a: Term, b: Term, alts: seq<Alternative>, k: nat)
    requires k <= |alts| && AssignAllSpec(a, b, alts[..k]).Err?
    ensures AssignAllSpec(a, b, alts) == AssignAllSpec(a, b, alts[..k])
  {
    if k < |alts| {
      assert alts[..|alts| - 1][..k] == alts[..k];
      AssignAllErrSticky(a, b, alts[..|alts| - 1], k);
    } else {
      assert alts[..k] == alts;
    }
  }

  /** The body of the loop of `_builtin_is` for one value that is not
      `None`. */
  method AssignOne(a: Term, v: Value) returns (r: Result<Term>)
    ensures r == AssignValue(a, v)
  {
    if v.Num? {
      return Ok(Constant(v.n));
    }
    if a.Var? {
      return Ok(Val(v));
    }
    var list := TermToList(a);
    if list.Err? {
      return Err(list.error);
    }
    var unificationLen := |list.value|;
    if !(HasComponents(v) && unificationLen == |ComponentsOf(v)|) {
      return Err(VectorLengthMismatch(unificationLen));
    }
    r := Ok(ListTerm(ValuesAsTerms(ComponentsOf(v))));
  }

  /** The loop of `_builtin_is` over the alternatives. */
  method AssignEach(a: Term, b: Term, alts: seq<Alternative>) returns (r: Result<seq<Assigned>>)
    ensures r == AssignAllSpec(a, b, alts)
  {
    var results: seq<Assigned> := [];
    for i := 0 to |alts|
      invariant AssignAllSpec(a, b, alts[..i]) == Ok(results)
    {
      assert alts[..i + 1][..i] == alts[..i];
      if alts[i].0.NoneValue? {
        continue;
      }
      var constantVal := AssignOne(a, alts[i].0);
      if constantVal.Err? {
        assert AssignAllSpec(a, b, alts[..i + 1]) == Err(constantVal.error);
        AssignAllErrSticky(a, b, alts, i + 1);
        return Err(constantVal.error);
      }
      results := results + [((constantVal.value, b), alts[i].1)];
    }
    assert alts[..|alts|] == alts;
    r := Ok(results);
  }

  /** `_builtin_is(a, b)`. */
  method BuiltinIs(env: Engine, target: Circuit, a: Term, b: Term) returns (r: Result<seq<Assigned>>)
    requires IsGround(b)
    modifies target
    ensures (target.State(), r) == IsSpec(env, target.backend, old(target.State()), a, b)
  {
    var bValues := Evaluate(env, target, b);
    if bValues.Err? {
      if bValues.error.UnifyError? {
        return Ok([]);
      }
      return Err(bValues.error);
    }
    r := AssignEach(a, b, bValues.value);
  }
}
