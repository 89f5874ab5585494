/** The density query (`_query_density`, `query_density/1`): the groundings
    of a random variable, resolved and grouped into one mixture per ground
    variable in the order the variables first appear. */
module DensityQuery {
  import opened Values
  import opened Circuits
  import opened Resolver

  /** A mixture of the components resolved for one ground variable. */
  datatype Mixture = Mixture(variable: Term, components: seq<Alternative>)

  /** The variable `d_node[0][0]` of each grounding. */
  function Variables(gs: seq<Grounding>): (vs: seq<Term>)
    ensures |vs| == |gs| && forall i :: 0 <= i < |gs| ==> vs[i] == gs[i].rv
  {
    seq(|gs|, i requires 0 <= i < |gs| => gs[i].rv)
  }

  /** The dictionary built by the loop, as its keys in insertion order and
      its contents. */
  function Group(gs: seq<Grounding>, alts: seq<Alternative>): (seq<Term>, map<Term, seq<Alternative>>)
    requires |gs| == |alts|
  {
    if |gs| == 0 then ([], map[])
    else
      var (keys, buckets) := Group(gs[..|gs| - 1], alts[..|alts| - 1]);
      var key := gs[|gs| - 1].rv;
      var a := alts[|alts| - 1];
      if key in buckets then (keys, buckets[key := buckets[key] + [a]])
      else (keys + [key], buckets[key := [a]])
  }

  /** The list comprehension: each mixture paired with the true node (every
      key of the dictionary has a list). */
  function MixturesOf(keys: seq<Term>, buckets: map<Term, seq<Alternative>>): (ms: seq<(Mixture, NodeRef)>)
    ensures |ms| == |keys|
    ensures forall j :: 0 <= j < |keys| && keys[j] in buckets ==> ms[j] == (Mixture(keys[j], buckets[keys[j]]), NodeTrue)
  {
    seq(|keys|, j requires 0 <= j < |keys| =>
      (Mixture(keys[j], if keys[j] in buckets then buckets[keys[j]] else []), NodeTrue))
  }

  /** `_query_density(term)`: ground `~(term, _)`, resolve every grounding,
      group by variable. */
  function QueryDensitySpec(env: Engine, be: Backend, st: CircuitState, term: Term): (CircuitState, Result<seq<(Mixture, NodeRef)>>)
  {
    match env.ground(Goal(term, false))
    case Err(e) => (st, Err(e))
    case Ok(gs) =>
      var (st1, alts) := ResolveAllSpec(be, st, gs);
      ResolveAllFacts(be, st, gs);
      var (keys, buckets) := Group(gs, alts);
      (st1, Ok(MixturesOf(keys, buckets)))
  }

  // ---------------------------------------------------------------------
  // Reference definitions

  /** The alternatives of the groundings of variable `k`, in order. */
  function Select(gs: seq<Grounding>, alts: seq<Alternative>, k: Term): seq<Alternative>
    requires |gs| == |alts|
  {
    if |gs| == 0 then []
    else (if gs[0].rv == k then [alts[0]] else []) + Select(gs[1..], alts[1..], k)
  }

  /** The position where `k` first occurs in `s`. */
  function FirstIndex(s: seq<Term>, k: Term): (i: nat)
    requires k in s
    ensures i < |s| && s[i] == k && k !in s[..i]
  {
    if s[0] == k then 0
    else
      var i := 1 + FirstIndex(s[1..], k);
      assert s[..i] == [s[0]] + s[1..][..i - 1];
      i
  }

  // ---------------------------------------------------------------------
  // Properties

  lemma {:induction false} SelectSnoc(gs: seq<Grounding>, alts: seq<Alternative>, k: Term)
    requires |gs| == |alts| > 0
    ensures Select(gs, alts, k)
            == Select(gs[..|gs| - 1], alts[..|alts| - 1], k) + (if gs[|gs| - 1].rv == k then [alts[|alts| - 1]] else [])
  {
    if |gs| > 1 {
      SelectSnoc(gs[1..], alts[1..], k);
      assert gs[1..][..|gs| - 2] == gs[..|gs| - 1][1..];
      assert alts[1..][..|alts| - 2] == alts[..|alts| - 1][1..];
    }
  }

  lemma {:induction false} FirstIndexSnoc(s: seq<Term>, x: Term, k: Term)
    requires k in s + [x]
    ensures k in s ==> FirstIndex(s + [x], k) == FirstIndex(s, k)
    ensures k !in s ==> FirstIndex(s + [x], k) == |s|
  {
    var j := FirstIndex(s + [x], k);
    if k in s {
      var i := FirstIndex(s, k);
      assert (s + [x])[i] == k && (s + [x])[..i] == s[..i];
    }
  }

  /** The grouping loses and invents nothing: its keys are distinct, are
      exactly the variables of the groundings, and come in the order of
      first appearance; each variable's list holds the alternatives of that
      variable's groundings, in order. */
  lemma {:induction false} GroupFacts(gs: seq<Grounding>, alts: seq<Alternative>)
    requires |gs| == |alts|
    ensures var keys, buckets := Group(gs, alts).0, Group(gs, alts).1;
      && (forall j, l :: 0 <= j < l < |keys| ==> keys[j] != keys[l])
      && (forall k :: k in keys ==> k in buckets)
      && (forall k :: k in buckets ==> k in keys)
      && (forall k :: k in buckets <==> k in Variables(gs))
      && (forall k :: k in buckets ==> buckets[k] == Select(gs, alts, k) && |buckets[k]| > 0)
      && (forall k :: k !in buckets ==> Select(gs, alts, k) == [])
      && (forall j, l :: 0 <= j < l < |keys| ==>
            FirstIndex(Variables(gs), keys[j]) < FirstIndex(Variables(gs), keys[l]))
  {
    if |gs| > 0 {
      var n := |gs| - 1;
      var front, afront := gs[..n], alts[..n];
      GroupFacts(front, afront);
      var (keys, buckets) := Group(front, afront);
      var key := gs[n].rv;
      var a := alts[n];
      var (keys2, buckets2) := Group(gs, alts);
      assert Variables(gs) == Variables(front) + [key];
      forall k
        ensures k in buckets2 ==> buckets2[k] == Select(gs, alts, k) && |buckets2[k]| > 0
        ensures k !in buckets2 ==> Select(gs, alts, k) == []
      {
        SelectSnoc(gs, alts, k);
        assert gs[..|gs| - 1] == front && alts[..|alts| - 1] == afront;
      }
      forall j, l | 0 <= j < l < |keys2|
        ensures FirstIndex(Variables(gs), keys2[j]) < FirstIndex(Variables(gs), keys2[l])
      {
        FirstIndexSnoc(Variables(front), key, keys2[j]);
        FirstIndexSnoc(Variables(front), key, keys2[l]);
        if l == |keys| {
          assert keys2[j] == keys[j];
        }
      }
    }
  }

  /** The mixtures built from a grouping cover exactly the variables of
      the groundings, each with the alternatives of that variable's
      groundings in order and the true node as support. */
  lemma MixturesFacts(gs: seq<Grounding>, alts: seq<Alternative>)
    requires |gs| == |alts|
    ensures var ms := MixturesOf(Group(gs, alts).0, Group(gs, alts).1);
      && (forall k :: k in Variables(gs) <==> exists j :: 0 <= j < |ms| && ms[j].0.variable == k)
      && (forall j :: 0 <= j < |ms| ==>
            && ms[j].1 == NodeTrue
            && ms[j].0.variable in Variables(gs)
            && ms[j].0.components == Select(gs, alts, ms[j].0.variable))
  {
    GroupFacts(gs, alts);
    assert forall k :: k in Group(gs, alts).0 ==> k in Group(gs, alts).1;
    assert forall k :: k in Group(gs, alts).1 ==> k in Group(gs, alts).0;
    assert forall k :: k in Group(gs, alts).1 <==> k in Variables(gs);
    assert forall k :: k in Group(gs, alts).1 ==> Group(gs, alts).1[k] == Select(gs, alts, k);
    MixturesCover(gs, alts, Group(gs, alts).0, Group(gs, alts).1);
  }

  lemma MixturesCover(gs: seq<Grounding>, alts: seq<Alternative>, keys: seq<Term>, buckets: map<Term, seq<Alternative>>)
    requires |gs| == |alts|
    requires forall k :: k in keys ==> k in buckets
    requires forall k :: k in buckets ==> k in keys
    requires forall k :: k in buckets <==> k in Variables(gs)
    requires forall k :: k in buckets ==> buckets[k] == Select(gs, alts, k)
    ensures var ms := MixturesOf(keys, buckets);
      && (forall k :: k in Variables(gs) <==> exists j :: 0 <= j < |ms| && ms[j].0.variable == k)
      && (forall j :: 0 <= j < |ms| ==>
            && ms[j].1 == NodeTrue
            && ms[j].0.variable in Variables(gs)
            && ms[j].0.components == Select(gs, alts, ms[j].0.variable))
  {
    MixturesOfKeys(keys, buckets);
    var ms := MixturesOf(keys, buckets);
    forall k | k in Variables(gs)
      ensures exists j :: 0 <= j < |ms| && ms[j].0.variable == k
    {
      var j :| 0 <= j < |keys| && keys[j] == k;
      assert ms[j].0.variable == k;
    }
    forall j | 0 <= j < |ms| ensures ms[j].0.variable in Variables(gs) {
      assert keys[j] in keys;
    }
  }

  /** One mixture per distinct variable, in order of first appearance. */
  lemma MixturesOrdered(gs: seq<Grounding>, alts: seq<Alternative>)
    requires |gs| == |alts|
    ensures var ms := MixturesOf(Group(gs, alts).0, Group(gs, alts).1);
      && (forall j, l :: 0 <= j < l < |ms| ==> ms[j].0.variable != ms[l].0.variable)
      && (forall j, l :: 0 <= j < l < |ms| ==>
            ms[j].0.variable in Variables(gs) && ms[l].0.variable in Variables(gs)
            && FirstIndex(Variables(gs), ms[j].0.variable) < FirstIndex(Variables(gs), ms[l].0.variable))
  {
    GroupFacts(gs, alts);
    assert forall k :: k in Group(gs, alts).0 ==> k in Group(gs, alts).1;
    MixturesOfKeys(Group(gs, alts).0, Group(gs, alts).1);
  }

  /** When every key has a list, mixture `j` is key `j` with its list. */
  lemma MixturesOfKeys(keys: seq<Term>, buckets: map<Term, seq<Alternative>>)
    requires forall k :: k in keys ==> k in buckets
    ensures forall j :: 0 <= j < |keys| ==>
      MixturesOf(keys, buckets)[j] == (Mixture(keys[j], buckets[keys[j]]), NodeTrue)
  {
    var ms := MixturesOf(keys, buckets);
    forall j | 0 <= j < |keys| ensures ms[j] == (Mixture(keys[j], buckets[keys[j]]), NodeTrue) {
      assert keys[j] in keys;
    }
  }

  /** The number of components over all mixtures. */
  function ComponentCount(ms: seq<(Mixture, NodeRef)>): nat
  {
    if |ms| == 0 then 0 else ComponentCount(ms[..|ms| - 1]) + |ms[|ms| - 1].0.components|
  }

  /** The total size of the lists of the given keys. */
  function BucketTotal(keys: seq<Term>, buckets: map<Term, seq<Alternative>>): nat
  {
    if |keys| == 0 then 0
    else
      var k := keys[|keys| - 1];
      BucketTotal(keys[..|keys| - 1], buckets) + (if k in buckets then |buckets[k]| else 0)
  }

  /** Changing the list of a key that is not listed leaves the total alone;
      growing the list of a listed key (listed once) adds one. */
  lemma {:induction false} BucketTotalUpdate(keys: seq<Term>, buckets: map<Term, seq<Alternative>>, key: Term, b: seq<Alternative>)
    requires forall j, l :: 0 <= j < l < |keys| ==> keys[j] != keys[l]
    ensures key !in keys ==> BucketTotal(keys, buckets[key := b]) == BucketTotal(keys, buckets)
    ensures key in keys && key in buckets && |b| == |buckets[key]| + 1 ==>
      BucketTotal(keys, buckets[key := b]) == BucketTotal(keys, buckets) + 1
  {
    if |keys| > 0 {
      var front := keys[..|keys| - 1];
      BucketTotalUpdate(front, buckets, key, b);
      if keys[|keys| - 1] == key {
        assert key !in front by {
          forall j | 0 <= j < |front| ensures front[j] != key {
            assert front[j] == keys[j];
          }
        }
      } else {
        assert key in keys ==> key in front by {
          if key in keys {
            var j :| 0 <= j < |keys| && keys[j] == key;
            assert front[j] == key;
          }
        }
      }
    }
  }

  /** The keys of a grouping are distinct and are exactly its lists' keys. */
  lemma GroupKeys(gs: seq<Grounding>, alts: seq<Alternative>)
    requires |gs| == |alts|
    ensures forall j, l :: 0 <= j < l < |Group(gs, alts).0| ==> Group(gs, alts).0[j] != Group(gs, alts).0[l]
    ensures forall k :: k in Group(gs, alts).1 <==> k in Group(gs, alts).0
  {
    GroupFacts(gs, alts);
  }

  /** The grouping keeps every alternative: its lists hold |gs| of them in
      all. */
  lemma {:induction false} GroupTotal(gs: seq<Grounding>, alts: seq<Alternative>)
    requires |gs| == |alts|
    ensures BucketTotal(Group(gs, alts).0, Group(gs, alts).1) == |gs|
  {
    if |gs| > 0 {
      var n := |gs| - 1;
      GroupTotal(gs[..n], alts[..n]);
      GroupKeys(gs[..n], alts[..n]);
      var keys, buckets := Group(gs[..n], alts[..n]).0, Group(gs[..n], alts[..n]).1;
      var key := gs[n].rv;
      if key in buckets {
        assert Group(gs, alts) == (keys, buckets[key := buckets[key] + [alts[n]]]);
        BucketTotalUpdate(keys, buckets, key, buckets[key] + [alts[n]]);
      } else {
        assert Group(gs, alts) == (keys + [key], buckets[key := [alts[n]]]);
        BucketTotalUpdate(keys, buckets, key, [alts[n]]);
        assert (keys + [key])[..|keys|] == keys;
      }
    }
  }

  /** The mixtures of a grouping hold as many components as its lists. */
  lemma {:induction false} MixturesCount(keys: seq<Term>, buckets: map<Term, seq<Alternative>>)
    ensures ComponentCount(MixturesOf(keys, buckets)) == BucketTotal(keys, buckets)
  {
    if |keys| > 0 {
      var front := keys[..|keys| - 1];
      MixturesCount(front, buckets);
      assert MixturesOf(keys, buckets)[..|keys| - 1] == MixturesOf(front, buckets);
    }
  }

  /** The whole query succeeds when the grounder does; it resolves every
      grounding (only the density cache changes) and returns one mixture per
      distinct variable, in order of first appearance, whose components are
      the resolved alternatives of that variable's groundings in order, each
      with the true node; together the mixtures hold every grounding once. */
  lemma QueryDensityFacts(env: Engine, be: Backend, st: CircuitState, term: Term)
    requires env.ground(Goal(term, false)).Ok?
    ensures var gs := env.ground(Goal(term, false)).value;
      var st2, r := QueryDensitySpec(env, be, st, term).0, QueryDensitySpec(env, be, st, term).1;
      var st1, alts := ResolveAllSpec(be, st, gs).0, ResolveAllSpec(be, st, gs).1;
      && |alts| == |gs| && r.Ok? && st2 == st1
      && st2.nodes == st.nodes && st2.atoms == st.atoms && Extends(st, st2)
      && (forall k :: k in Variables(gs) <==> exists j :: 0 <= j < |r.value| && r.value[j].0.variable == k)
      && (forall j :: 0 <= j < |r.value| ==>
            && r.value[j].1 == NodeTrue
            && r.value[j].0.variable in Variables(gs)
            && r.value[j].0.components == Select(gs, alts, r.value[j].0.variable))
      && (forall j, l :: 0 <= j < l < |r.value| ==>
            && r.value[j].0.variable != r.value[l].0.variable
            && FirstIndex(Variables(gs), r.value[j].0.variable) < FirstIndex(Variables(gs), r.value[l].0.variable))
      && ComponentCount(r.value) == |gs|
  {
    var gs := env.ground(Goal(term, false)).value;
    ResolveAllFacts(be, st, gs);
    var alts := ResolveAllSpec(be, st, gs).1;
    assert QueryDensitySpec(env, be, st, term).1 == Ok(MixturesOf(Group(gs, alts).0, Group(gs, alts).1));
    MixturesFacts(gs, alts);
    MixturesOrdered(gs, alts);
    GroupTotal(gs, alts);
    MixturesCount(Group(gs, alts).0, Group(gs, alts).1);
  }

  /** A variable with no groundings has no mixtures. */
  lemma NoGroundingsNoMixtures(env: Engine, be: Backend, st: CircuitState, term: Term)
    requires env.ground(Goal(term, false)) == Ok([])
    ensures QueryDensitySpec(env, be, st, term) == (st, Ok([]))
  {
  }

  // ---------------------------------------------------------------------
  // Implementation

  /** `_query_density`. `components` collects every resolved alternative. */
  method QueryDensity(env: Engine, target: Circuit, term: Term) returns (r: Result<seq<(Mixture, NodeRef)>>)
    modifies target
    ensures (target.State(), r) == QueryDensitySpec(env, target.backend, old(target.State()), term)
  {
    var dNodes := env.ground(Goal(term, false));
    if dNodes.Err? {
      return Err(dNodes.error);
    }
    var gs := dNodes.value;
    var components: seq<Alternative> := [];
    var keys: seq<Term> := [];
    var mixtures: map<Term, seq<Alternative>> := map[];
    for i := 0 to |gs|
      invariant (target.State(), components) == ResolveAllSpec(target.backend, old(target.State()), gs[..i])
      invariant |components| == i
      invariant (keys, mixtures) == Group(gs[..i], components)
    {
      ResolveAllFacts(target.backend, old(target.State()), gs[..i]);
      assert gs[..i + 1][..i] == gs[..i];
      var distribution := GetDistribution(target, gs[i]);
      var key := gs[i].rv;
      if key in mixtures {
        mixtures := mixtures[key := mixtures[key] + [distribution]];
      } else {
        keys := keys + [key];
        mixtures := mixtures[key := [distribution]];
      }
      assert (components + [distribution])[..i] == components;
      components := components + [distribution];
    }
    assert gs[..|gs|] == gs;
    GroupFacts(gs, components);
    r := Ok(MixturesOf(keys, mixtures));
  }

  /** `_builtin_query_density`; its mode check accepts any argument. */
  method BuiltinQueryDensity(env: Engine, target: Circuit, term: Term) returns (r: Result<seq<(Mixture, NodeRef)>>)
    modifies target
    ensures (target.State(), r) == QueryDensitySpec(env, target.backend, old(target.State()), term)
  {
    r := QueryDensity(env, target, term);
  }
}
