/** The builtin `observation/2`: an evidence atom per grounding of the
    random variable, disjoined into one observation node. */
module Observation {
  import opened Values
  import opened Circuits
  import opened Resolver

  /** One result of the builtin: the two arguments and the observation node. */
  type Observed = ((Term, Term), NodeRef)

  /** The identifier of the evidence atom for a grounding with node `node`. */
  function ObservationKey(be: Backend, term: Term, node: NodeRef): AtomKey
  {
    ObservationOf(be.densityName(term, node))
  }

  /** The evidence node of a grounding with atom `o` and node `node`. */
  function EvidenceSpec(st: CircuitState, o: nat, node: NodeRef): (CircuitState, NodeRef)
  {
    if node.NodeFalse? then (st, NodeFalse)
    else if Truthy(node) then st.AddAnd([Node(o), node])
    else (st, Node(o))
  }

  /** The running disjunction: a falsy accumulator is replaced. */
  function DisjoinSpec(st: CircuitState, acc: NodeRef, oNode: NodeRef): (CircuitState, NodeRef)
  {
    if !Truthy(acc) then (st, oNode) else st.AddOr([acc, oNode])
  }

  /** The evidence of one grounding, disjoined into `acc`. */
  function ObserveOneSpec(be: Backend, st: CircuitState, term: Term, observation: Term, g: Grounding, acc: NodeRef): (CircuitState, Result<NodeRef>)
  {
    var (st1, d) := GetDistributionSpec(be, st, g);
    var identifier := ObservationKey(be, term, d.1);
    var arg1 := d.0;
    var arg2 := be.ast(observation);
    if !arg2.Symbolic? then (st1, Err(AssertionFailed("isinstance(arg2, SymbolicConstant)")))
    else
      var probability := Symbolic("observation", [arg1, arg2], CVariables(arg1));
      var (st2, o) := st1.AddAtom(identifier, probability);
      var (st3, oNode) := EvidenceSpec(st2, o, d.1);
      var (st4, n) := DisjoinSpec(st3, acc, oNode);
      (st4, Ok(n))
  }

  /** The loop over the groundings, from the true node. */
  function ObserveAllSpec(be: Backend, st: CircuitState, term: Term, observation: Term, gs: seq<Grounding>): (CircuitState, Result<NodeRef>)
  {
    if |gs| == 0 then (st, Ok(NodeTrue))
    else
      var (st1, r) := ObserveAllSpec(be, st, term, observation, gs[..|gs| - 1]);
      if r.Err? then (st1, r)
      else ObserveOneSpec(be, st1, term, observation, gs[|gs| - 1], r.value)
  }

  /** `_builtin_observation(term, observation)`: ground `~(term, _)` and
      observe every grounding; a single result. */
  function BuiltinObservationSpec(env: Engine, be: Backend, st: CircuitState, term: Term, observation: Term): (CircuitState, Result<seq<Observed>>)
  {
    match env.ground(Goal(term, false))
    case Err(e) => (st, Err(e))
    case Ok(gs) =>
      var (st1, r) := ObserveAllSpec(be, st, term, observation, gs);
      if r.Err? then (st1, Err(r.error)) else (st1, Ok([((term, observation), r.value)]))
  }

  // ---------------------------------------------------------------------
  // Properties

  /** Grounding `g` supports the observation: its node is not false, its
      evidence atom holds, and so does its node when that is a real node. */
  ghost predicate ObservedBy(be: Backend, nodes: seq<CircuitNode>, term: Term, g: Grounding, truth: AtomKey -> bool)
  {
    && g.node != NodeFalse
    && truth(ObservationKey(be, term, g.node))
    && (Truthy(g.node) ==> Eval(nodes, g.node, truth))
  }

  /** The evidence node is never the true node; it holds exactly when the
      grounding's node is not false, the atom holds, and so does the
      grounding's node when that is a real node. */
  lemma EvidenceMeaning(st: CircuitState, o: nat, node: NodeRef, truth: AtomKey -> bool)
    requires 1 <= o <= |st.nodes| && ValidRef(|st.nodes|, node)
    ensures var (st2, n) := EvidenceSpec(st, o, node);
      && Extends(st, st2) && (st.Valid() ==> st2.Valid())
      && n != NodeTrue && ValidRef(|st2.nodes|, n)
      && Eval(st2.nodes, n, truth)
         == (node != NodeFalse && Eval(st.nodes, Node(o), truth) && (Truthy(node) ==> Eval(st.nodes, node, truth)))
  {
    if Truthy(node) {
      var cs := [Node(o), node];
      assert cs[0] == Node(o) && cs[1] == node;
      AddAndMeaning(st, cs, truth);
    }
  }

  /** The new disjunction holds exactly when a truthy accumulator or the
      new evidence holds. */
  lemma DisjoinMeaning(st: CircuitState, acc: NodeRef, oNode: NodeRef, truth: AtomKey -> bool)
    requires ValidRef(|st.nodes|, acc) && ValidRef(|st.nodes|, oNode) && oNode != NodeTrue
    ensures var (st2, n) := DisjoinSpec(st, acc, oNode);
      && Extends(st, st2) && (st.Valid() ==> st2.Valid())
      && n != NodeTrue && ValidRef(|st2.nodes|, n)
      && Eval(st2.nodes, n, truth) == ((Truthy(acc) && Eval(st.nodes, acc, truth)) || Eval(st.nodes, oNode, truth))
  {
    if Truthy(acc) {
      var cs := [acc, oNode];
      assert cs[0] == acc && cs[1] == oNode;
      AddOrMeaning(st, cs, truth);
    }
  }

  /** One step: it fails exactly when the observation is not symbolic;
      otherwise the grounding's evidence atom is in the table and the new
      node is never the true node. */
  lemma ObserveOneFacts(be: Backend, st: CircuitState, term: Term, observation: Term, g: Grounding, acc: NodeRef)
    requires st.Valid() && ValidRef(|st.nodes|, g.node) && ValidRef(|st.nodes|, acc)
    ensures var (st2, r) := ObserveOneSpec(be, st, term, observation, g, acc);
      && (r.Ok? <==> be.ast(observation).Symbolic?)
      && (r.Err? ==> r.error.AssertionFailed?)
      && st2.Valid() && Extends(st, st2)
      && (r.Ok? ==>
            && ObservationKey(be, term, g.node) in st2.atoms
            && r.value != NodeTrue && ValidRef(|st2.nodes|, r.value))
  {
    var (st1, d) := GetDistributionSpec(be, st, g);
    var arg2 := be.ast(observation);
    if arg2.Symbolic? {
      var identifier := ObservationKey(be, term, g.node);
      var probability := Symbolic("observation", [d.0, arg2], CVariables(d.0));
      var (st2, o) := st1.AddAtom(identifier, probability);
      assert st1.Valid() && st1.nodes == st.nodes;
      var (st3, oNode) := EvidenceSpec(st2, o, g.node);
      EvidenceMeaning(st2, o, g.node, _ => true);
      var (st4, n) := DisjoinSpec(st3, acc, oNode);
      DisjoinMeaning(st3, acc, oNode, _ => true);
      assert ObserveOneSpec(be, st, term, observation, g, acc) == (st4, Ok(n));
      ExtendsTransitive(st, st2, st3);
      ExtendsTransitive(st, st3, st4);
      assert identifier in st4.atoms;
    }
  }

  /** One step means the old disjunction, when it is set, or this
      grounding's evidence. */
  lemma ObserveOneMeaning(be: Backend, st: CircuitState, term: Term, observation: Term, g: Grounding, acc: NodeRef, truth: AtomKey -> bool)
    requires st.Valid() && ValidRef(|st.nodes|, g.node) && ValidRef(|st.nodes|, acc)
    requires be.ast(observation).Symbolic?
    ensures var (st2, r) := ObserveOneSpec(be, st, term, observation, g, acc);
      && r.Ok?
      && Eval(st2.nodes, r.value, truth)
         == ((Truthy(acc) && Eval(st.nodes, acc, truth)) || ObservedBy(be, st.nodes, term, g, truth))
  {
    var (st1, d) := GetDistributionSpec(be, st, g);
    var arg2 := be.ast(observation);
    var identifier := ObservationKey(be, term, g.node);
    var probability := Symbolic("observation", [d.0, arg2], CVariables(d.0));
    var (st2, o) := st1.AddAtom(identifier, probability);
    assert st1.Valid() && st1.nodes == st.nodes;
    AddAtomMeaning(st1, identifier, probability, truth);
    var (st3, oNode) := EvidenceSpec(st2, o, g.node);
    EvidenceMeaning(st2, o, g.node, truth);
    EvalExtends(st.nodes, st2.nodes, g.node, truth);
    var (st4, n) := DisjoinSpec(st3, acc, oNode);
    DisjoinMeaning(st3, acc, oNode, truth);
    EvalExtends(st.nodes, st3.nodes, acc, truth);
    assert ObserveOneSpec(be, st, term, observation, g, acc) == (st4, Ok(n));
  }

  lemma {:induction false} ObserveAllErrSticky(be: Backend, st: CircuitState, term: Term, observation: Term, gs: seq<Grounding>, k: nat)
    requires k <= |gs| && ObserveAllSpec(be, st, term, observation, gs[..k]).1.Err?
    ensures ObserveAllSpec(be, st, term, observation, gs) == ObserveAllSpec(be, st, term, observation, gs[..k])
  {
    if k < |gs| {
      assert gs[..|gs| - 1][..k] == gs[..k];
      ObserveAllErrSticky(be, st, term, observation, gs[..|gs| - 1], k);
    } else {
      assert gs[..k] == gs;
    }
  }

  /** The evidence keys of a prefix carry over into a later state. */
  lemma EvidenceKeysCarry(be: Backend, term: Term, gs: seq<Grounding>, front: seq<Grounding>, st1: CircuitState, st2: CircuitState)
    requires |gs| > 0 && front == gs[..|gs| - 1] && Extends(st1, st2)
    requires forall i :: 0 <= i < |front| ==> ObservationKey(be, term, front[i].node) in st1.atoms
    requires ObservationKey(be, term, gs[|gs| - 1].node) in st2.atoms
    ensures forall i :: 0 <= i < |gs| ==> ObservationKey(be, term, gs[i].node) in st2.atoms
  {
    forall i | 0 <= i < |gs| ensures ObservationKey(be, term, gs[i].node) in st2.atoms {
      if i < |gs| - 1 {
        assert front[i] == gs[i];
      }
    }
  }

  /** Some grounding supports the observation exactly when some grounding
      of the prefix or the last one does. */
  lemma ObservedBySplit(be: Backend, nodes: seq<CircuitNode>, term: Term, gs: seq<Grounding>, front: seq<Grounding>, truth: AtomKey -> bool)
    requires |gs| > 0 && front == gs[..|gs| - 1]
    ensures (exists i :: 0 <= i < |gs| && ObservedBy(be, nodes, term, gs[i], truth))
            == ((exists i :: 0 <= i < |front| && ObservedBy(be, nodes, term, front[i], truth))
                || ObservedBy(be, nodes, term, gs[|gs| - 1], truth))
  {
    if exists i :: 0 <= i < |gs| && ObservedBy(be, nodes, term, gs[i], truth) {
      var i :| 0 <= i < |gs| && ObservedBy(be, nodes, term, gs[i], truth);
      if i < |front| {
        assert front[i] == gs[i];
      }
    }
    if exists i :: 0 <= i < |front| && ObservedBy(be, nodes, term, front[i], truth) {
      var i :| 0 <= i < |front| && ObservedBy(be, nodes, term, front[i], truth);
      assert gs[i] == front[i];
    }
  }

  /** The whole loop, in a valid session whose groundings name existing
      nodes: it fails exactly when there is a grounding and the observation
      is not symbolic; otherwise every grounding has its evidence atom and
      the result is the true node exactly when there are no groundings. */
  lemma {:induction false} ObserveAllFacts(be: Backend, st: CircuitState, term: Term, observation: Term, gs: seq<Grounding>)
    requires st.Valid()
    requires forall i :: 0 <= i < |gs| ==> ValidRef(|st.nodes|, gs[i].node)
    ensures var (st2, r) := ObserveAllSpec(be, st, term, observation, gs);
      && (r.Ok? <==> |gs| == 0 || be.ast(observation).Symbolic?)
      && (r.Err? ==> r.error.AssertionFailed?)
      && st2.Valid() && Extends(st, st2)
      && (r.Ok? ==>
            && ValidRef(|st2.nodes|, r.value)
            && (forall i :: 0 <= i < |gs| ==> ObservationKey(be, term, gs[i].node) in st2.atoms)
            && (r.value == NodeTrue <==> |gs| == 0))
  {
    if |gs| > 0 {
      var front := gs[..|gs| - 1];
      var last := gs[|gs| - 1];
      forall i | 0 <= i < |front| ensures ValidRef(|st.nodes|, front[i].node) {
        assert front[i] == gs[i];
      }
      ObserveAllFacts(be, st, term, observation, front);
      var (st1, r1) := ObserveAllSpec(be, st, term, observation, front);
      if r1.Ok? {
        ObserveOneFacts(be, st1, term, observation, last, r1.value);
        var (st2, r) := ObserveOneSpec(be, st1, term, observation, last, r1.value);
        assert ObserveAllSpec(be, st, term, observation, gs) == (st2, r);
        ExtendsTransitive(st, st1, st2);
        if r.Ok? {
          EvidenceKeysCarry(be, term, gs, front, st1, st2);
        }
      }
    }
  }

  /** The meaning of the observation node over at least one grounding: it
      holds exactly when some grounding supports the observation. */
  lemma {:induction false} ObserveAllMeaning(be: Backend, st: CircuitState, term: Term, observation: Term, gs: seq<Grounding>, truth: AtomKey -> bool)
    requires st.Valid() && |gs| > 0
    requires forall i :: 0 <= i < |gs| ==> ValidRef(|st.nodes|, gs[i].node)
    requires ObserveAllSpec(be, st, term, observation, gs).1.Ok?
    ensures var (st2, r) := ObserveAllSpec(be, st, term, observation, gs);
      Eval(st2.nodes, r.value, truth) == exists i :: 0 <= i < |gs| && ObservedBy(be, st.nodes, term, gs[i], truth)
  {
    var front := gs[..|gs| - 1];
    var last := gs[|gs| - 1];
    forall i | 0 <= i < |front| ensures ValidRef(|st.nodes|, front[i].node) {
      assert front[i] == gs[i];
    }
    ObserveAllFacts(be, st, term, observation, front);
    var (st1, r1) := ObserveAllSpec(be, st, term, observation, front);
    assert r1.Ok?;
    ObserveOneFacts(be, st1, term, observation, last, r1.value);
    ObserveOneMeaning(be, st1, term, observation, last, r1.value, truth);
    var (st2, r) := ObserveOneSpec(be, st1, term, observation, last, r1.value);
    assert ObserveAllSpec(be, st, term, observation, gs) == (st2, r);
    EvalExtends(st.nodes, st1.nodes, last.node, truth);
    assert ObservedBy(be, st1.nodes, term, last, truth) == ObservedBy(be, st.nodes, term, last, truth);
    var earlier := Truthy(r1.value) && Eval(st1.nodes, r1.value, truth);
    assert Eval(st2.nodes, r.value, truth) == (earlier || ObservedBy(be, st.nodes, term, last, truth));
    ObservedBySplit(be, st.nodes, term, gs, front, truth);
    if |front| == 0 {
      assert !earlier;
    } else {
      ObserveAllMeaning(be, st, term, observation, front, truth);
      assert earlier == exists i :: 0 <= i < |front| && ObservedBy(be, st.nodes, term, front[i], truth);
    }
  }

  /** Observing a variable with no groundings gives the true node. */
  lemma NoGroundingsObserveTrue(env: Engine, be: Backend, st: CircuitState, term: Term, observation: Term)
    requires env.ground(Goal(term, false)) == Ok([])
    ensures BuiltinObservationSpec(env, be, st, term, observation) == (st, Ok([((term, observation), NodeTrue)]))
  {
  }

  // ---------------------------------------------------------------------
  // Implementation

  method ObserveOne(target: Circuit, term: Term, observation: Term, g: Grounding, acc: NodeRef) returns (r: Result<NodeRef>)
    modifies target
    ensures (target.State(), r) == ObserveOneSpec(target.backend, old(target.State()), term, observation, g, acc)
  {
    var distribution := GetDistribution(target, g);
    var identifier := ObservationOf(target.backend.densityName(term, distribution.1));
    var arg1 := distribution.0;
    var arg2 := target.backend.ast(observation);
    if !arg2.Symbolic? {
      return Err(AssertionFailed("isinstance(arg2, SymbolicConstant)"));
    }
    var probability := Symbolic("observation", [arg1, arg2], CVariables(arg1));
    var o := target.AddAtom(identifier, probability);
    var oNode;
    if distribution.1.NodeFalse? {
      oNode := NodeFalse;
    } else if Truthy(distribution.1) {
      oNode := target.AddAnd([Node(o), distribution.1]);
    } else {
      oNode := Node(o);
    }
    if !Truthy(acc) {
      r := Ok(oNode);
    } else {
      var n := target.AddOr([acc, oNode]);
      r := Ok(n);
    }
  }

  /** `_builtin_observation`; its mode check accepts any arguments. */
  method BuiltinObservation(env: Engine, target: Circuit, term: Term, observation: Term) returns (r: Result<seq<Observed>>)
    modifies target
    ensures (target.State(), r) == BuiltinObservationSpec(env, target.backend, old(target.State()), term, observation)
  {
    var dNodes := env.ground(Goal(term, false));
    if dNodes.Err? {
      return Err(dNodes.error);
    }
    var gs := dNodes.value;
    var observationNode := NodeTrue;
    for i := 0 to |gs|
      invariant (target.State(), Ok(observationNode)) == ObserveAllSpec(target.backend, old(target.State()), term, observation, gs[..i])
    {
      assert gs[..i + 1][..i] == gs[..i];
      var o := ObserveOne(target, term, observation, gs[i], observationNode);
      if o.Err? {
        assert ObserveAllSpec(target.backend, old(target.State()), term, observation, gs[..i + 1]) == (target.State(), Err(o.error));
        ObserveAllErrSticky(target.backend, old(target.State()), term, observation, gs, i + 1);
        return Err(o.error);
      }
      observationNode := o.value;
    }
    assert gs[..|gs|] == gs;
    r := Ok([((term, observation), observationNode)]);
  }
}
