/** The distribution resolver (`get_distribution`): a memo table, kept in the
    circuit, from density name to the canonical random-variable handle. */
module Resolver {
  import opened Values
  import opened Circuits

  /** `create_ast_representation` applied to each distribution argument. */
  function AstOfAll(be: Backend, ts: seq<Term>): (vs: seq<Value>)
    ensures |vs| == |ts| && forall i :: 0 <= i < |ts| ==> vs[i] == be.ast(ts[i])
  {
    seq(|ts|, i requires 0 <= i < |ts| => be.ast(ts[i]))
  }

  /** The handle a fresh grounding gets. */
  function NewHandle(be: Backend, g: Grounding, name: string): RandomVariableConstant
  {
    RandomVariableConstant(g.distribution.functor, AstOfAll(be, g.distribution.args), name, g.distribution.dimensions)
  }

  /** `get_distribution`: the handle cached under the grounding's density
      name, created and cached on first use; paired with the grounding's
      node. Only the density cache changes, and only under that name. */
  function GetDistributionSpec(be: Backend, st: CircuitState, g: Grounding): (r: (CircuitState, Alternative))
    ensures var name := be.densityName(g.rv, g.node);
      && r.1.1 == g.node && r.1.0.RandomVariable?
      && r.0 == st.(densityValues := st.densityValues[name := r.1.0.rv])
      && (name in st.densityValues ==> r.1.0.rv == st.densityValues[name])
      && (name !in st.densityValues ==> r.1.0.rv == NewHandle(be, g, name))
      && (st.Valid() ==> r.1.0.rv.densityName == name && r.0.Valid())
      && Extends(st, r.0)
  {
    var name := be.densityName(g.rv, g.node);
    if name in st.densityValues then (st, (RandomVariable(st.densityValues[name]), g.node))
    else
      var value := NewHandle(be, g, name);
      (st.(densityValues := st.densityValues[name := value]), (RandomVariable(value), g.node))
  }

  /** Resolving the same (variable, node) pair again, even with another
      distribution description, gives the identical handle and leaves the
      circuit as the first resolution left it. */
  lemma ResolveTwice(be: Backend, st: CircuitState, g1: Grounding, g2: Grounding)
    requires g1.rv == g2.rv && g1.node == g2.node
    ensures var (st1, a1) := GetDistributionSpec(be, st, g1);
            GetDistributionSpec(be, st1, g2) == (st1, a1)
  {
  }

  /** `get_distribution` with `target`. */
  method GetDistribution(target: Circuit, g: Grounding) returns (r: Alternative)
    modifies target
    ensures (target.State(), r) == GetDistributionSpec(target.backend, old(target.State()), g)
  {
    var name := target.backend.densityName(g.rv, g.node);
    var value: RandomVariableConstant;
    if name in target.densityValues {
      value := target.densityValues[name];
    } else {
      var args := AstOfAll(target.backend, g.distribution.args);
      value := RandomVariableConstant(g.distribution.functor, args, name, g.distribution.dimensions);
      target.CacheDensity(name, value);
    }
    r := (RandomVariable(value), g.node);
  }

  /** Resolving each grounding in turn, as the loops over the grounder's
      results do. */
  function ResolveAllSpec(be: Backend, st: CircuitState, gs: seq<Grounding>): (CircuitState, seq<Alternative>)
  {
    if |gs| == 0 then (st, [])
    else
      var (st1, alts) := ResolveAllSpec(be, st, gs[..|gs| - 1]);
      var (st2, a) := GetDistributionSpec(be, st1, gs[|gs| - 1]);
      (st2, alts + [a])
  }

  /** One alternative per grounding, in the grounder's order, each carrying
      its grounding's node; each handle is a random variable and, in a
      valid session, it is the one the final cache holds under the
      grounding's density name. Only the cache grows. */
  lemma {:induction false} ResolveAllFacts(be: Backend, st: CircuitState, gs: seq<Grounding>)
    ensures var (st2, alts) := ResolveAllSpec(be, st, gs);
      && |alts| == |gs|
      && Extends(st, st2) && st2.nodes == st.nodes && st2.atoms == st.atoms
      && (st.Valid() ==> st2.Valid())
      && forall i :: 0 <= i < |gs| ==>
           && alts[i].1 == gs[i].node && alts[i].0.RandomVariable?
           && var name := be.densityName(gs[i].rv, gs[i].node);
              name in st2.densityValues && alts[i].0.rv == st2.densityValues[name]
              && (st.Valid() ==> alts[i].0.rv.densityName == name)
  {
    if |gs| > 0 {
      var prefix := gs[..|gs| - 1];
      ResolveAllFacts(be, st, prefix);
      var (st1, alts1) := ResolveAllSpec(be, st, prefix);
      var (st2, a) := GetDistributionSpec(be, st1, gs[|gs| - 1]);
      assert ResolveAllSpec(be, st, gs) == (st2, alts1 + [a]);
      forall i | 0 <= i < |gs| - 1
        ensures var name := be.densityName(gs[i].rv, gs[i].node);
          name in st2.densityValues && alts1[i].0.rv == st2.densityValues[name]
      {
        assert gs[i] == prefix[i];
      }
    }
  }

  /** The density names of the groundings. */
  function DensityNames(be: Backend, gs: seq<Grounding>): set<string>
  {
    set i | 0 <= i < |gs| :: be.densityName(gs[i].rv, gs[i].node)
  }

  /** The cache gains exactly the density names of the groundings, and the
      entries it already held keep their handles. */
  lemma {:induction false} ResolveAllCache(be: Backend, st: CircuitState, gs: seq<Grounding>)
    ensures var st2 := ResolveAllSpec(be, st, gs).0;
      && st2.densityValues.Keys == st.densityValues.Keys + DensityNames(be, gs)
      && forall k :: k in st.densityValues ==> st2.densityValues[k] == st.densityValues[k]
  {
    if |gs| > 0 {
      var prefix := gs[..|gs| - 1];
      ResolveAllCache(be, st, prefix);
      var g := gs[|gs| - 1];
      var st1 := ResolveAllSpec(be, st, prefix).0;
      var st2 := GetDistributionSpec(be, st1, g).0;
      assert ResolveAllSpec(be, st, gs).0 == st2;
      DensityNamesSnoc(be, gs);
    }
  }

  lemma DensityNamesSnoc(be: Backend, gs: seq<Grounding>)
    requires |gs| > 0
    ensures DensityNames(be, gs)
            == DensityNames(be, gs[..|gs| - 1]) + {be.densityName(gs[|gs| - 1].rv, gs[|gs| - 1].node)}
  {
    var prefix := gs[..|gs| - 1];
    forall i | 0 <= i < |prefix|
      ensures be.densityName(gs[i].rv, gs[i].node) in DensityNames(be, prefix)
    {
      assert gs[i] == prefix[i];
    }
    forall i | 0 <= i < |prefix|
      ensures be.densityName(prefix[i].rv, prefix[i].node) in DensityNames(be, gs)
    {
      assert gs[i] == prefix[i];
    }
  }
}
