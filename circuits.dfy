/** The weighted AND/OR circuit that the builtins grow (the `target`):
    a value-level specification `CircuitState` with its Boolean meaning, and
    the class `Circuit` whose methods implement it in place. */
module Circuits {
  import opened Values

  /** Atom identifiers: `hash(str(condition))` of a comparison, modelled by
      the string itself, or the evidence identifier `observation_of(name)`
      of the density called `name`. */
  datatype AtomKey = ConditionKey(form: string) | ObservationOf(densityName: string)

  datatype CircuitNode =
    | AtomNode(key: AtomKey, payload: Value)
    | AndNode(children: seq<NodeRef>)
    | OrNode(children: seq<NodeRef>)

  /** Node `k >= 1` is `nodes[k - 1]`; `atoms` is the atom table of
      `add_atom`; `densityValues` is the session's density cache. */
  datatype CircuitState = CircuitState(
    nodes: seq<CircuitNode>,
    atoms: map<AtomKey, nat>,
    densityValues: map<string, RandomVariableConstant>)
  {
    /** Every entry of the atom table names an atom node with that key, and every
        cached handle carries the density name it is cached under. */
    ghost predicate Valid()
    {
      && (forall key :: key in atoms ==>
            1 <= atoms[key] <= |nodes| && nodes[atoms[key] - 1].AtomNode? && nodes[atoms[key] - 1].key == key)
      && (forall name :: name in densityValues ==> densityValues[name].densityName == name)
    }

    /** `add_atom(identifier, payload)`: an identifier already in the table
        gives back its node and changes nothing; a new one gets a new node. */
    function AddAtom(key: AtomKey, payload: Value): (r: (CircuitState, nat))
      ensures r.0.atoms.Keys == atoms.Keys + {key} && r.1 == r.0.atoms[key]
      ensures key in atoms ==> r.0 == this
      ensures key !in atoms ==> r.1 == |nodes| + 1 && r.0.nodes == nodes + [AtomNode(key, payload)]
      ensures r.0.densityValues == densityValues
      ensures Extends(this, r.0)
      ensures Valid() ==> r.0.Valid()
    {
      if key in atoms then (this, atoms[key])
      else (this.(nodes := nodes + [AtomNode(key, payload)], atoms := atoms[key := |nodes| + 1]), |nodes| + 1)
    }

    /** `add_and(children)`: a new AND node over the children. */
    function AddAnd(children: seq<NodeRef>): (r: (CircuitState, NodeRef))
      ensures r.0 == this.(nodes := nodes + [AndNode(children)]) && r.1 == Node(|r.0.nodes|)
      ensures Extends(this, r.0) && Truthy(r.1)
      ensures Valid() ==> r.0.Valid()
    {
      (this.(nodes := nodes + [AndNode(children)]), Node(|nodes| + 1))
    }

    /** `add_or(children)`: a new OR node over the children. */
    function AddOr(children: seq<NodeRef>): (r: (CircuitState, NodeRef))
      ensures r.0 == this.(nodes := nodes + [OrNode(children)]) && r.1 == Node(|r.0.nodes|)
      ensures Extends(this, r.0) && Truthy(r.1)
      ensures Valid() ==> r.0.Valid()
    {
      (this.(nodes := nodes + [OrNode(children)]), Node(|nodes| + 1))
    }
  }

  const EmptyCircuit := CircuitState([], map[], map[])

  /** `st2` is `st` grown: old nodes kept in place, old atoms and old cached
      handles kept under the same keys. */
  ghost predicate Extends(st: CircuitState, st2: CircuitState)
  {
    && st.nodes <= st2.nodes
    && (forall key :: key in st.atoms ==> key in st2.atoms && st2.atoms[key] == st.atoms[key])
    && (forall name :: name in st.densityValues ==>
          name in st2.densityValues && st2.densityValues[name] == st.densityValues[name])
  }

  /** A reference that names no node beyond the first `n`. */
  predicate ValidRef(n: nat, r: NodeRef)
  {
    r.NodeFalse? || r.id <= n
  }

  predicate Below(c: NodeRef, k: nat)
  {
    c.NodeFalse? || c.id < k
  }

  /** The Boolean meaning of a node under a truth assignment of the atoms:
      `None` is false, `0` is true, AND/OR over their children. A child
      that does not precede its parent counts as false. */
  ghost function Eval(nodes: seq<CircuitNode>, r: NodeRef, truth: AtomKey -> bool): bool
    decreases if r.Node? then r.id else 0
  {
    if r.NodeFalse? then false
    else if r.id == 0 then true
    else if r.id > |nodes| then false
    else
      match nodes[r.id - 1]
      case AtomNode(key, _) => truth(key)
      case AndNode(cs) => forall i :: 0 <= i < |cs| ==> Below(cs[i], r.id) && Eval(nodes, cs[i], truth)
      case OrNode(cs) => exists i :: 0 <= i < |cs| && Below(cs[i], r.id) && Eval(nodes, cs[i], truth)
  }

  /** Growing the circuit does not change the meaning of existing nodes. */
  lemma {:induction false} EvalPrefix(nodes: seq<CircuitNode>, more: seq<CircuitNode>, r: NodeRef, truth: AtomKey -> bool)
    requires ValidRef(|nodes|, r)
    ensures Eval(nodes + more, r, truth) == Eval(nodes, r, truth)
    decreases if r.Node? then r.id else 0
  {
    if r.Node? && 1 <= r.id <= |nodes| {
      assert (nodes + more)[r.id - 1] == nodes[r.id - 1];
      match nodes[r.id - 1]
      case AtomNode(_, _) =>
      case AndNode(cs) =>
        forall i | 0 <= i < |cs| && Below(cs[i], r.id) {
          EvalPrefix(nodes, more, cs[i], truth);
        }
      case OrNode(cs) =>
        forall i | 0 <= i < |cs| && Below(cs[i], r.id) {
          EvalPrefix(nodes, more, cs[i], truth);
        }
    }
  }

  lemma EvalExtends(nodes: seq<CircuitNode>, nodes2: seq<CircuitNode>, r: NodeRef, truth: AtomKey -> bool)
    requires nodes <= nodes2 && ValidRef(|nodes|, r)
    ensures Eval(nodes2, r, truth) == Eval(nodes, r, truth)
  {
    assert nodes2 == nodes + nodes2[|nodes|..];
    EvalPrefix(nodes, nodes2[|nodes|..], r, truth);
  }

  /** A new AND node is the conjunction of its (existing) children. */
  lemma AddAndMeaning(st: CircuitState, cs: seq<NodeRef>, truth: AtomKey -> bool)
    requires forall i :: 0 <= i < |cs| ==> ValidRef(|st.nodes|, cs[i])
    ensures Eval(st.AddAnd(cs).0.nodes, st.AddAnd(cs).1, truth)
            == (forall i :: 0 <= i < |cs| ==> Eval(st.nodes, cs[i], truth))
  {
    var nodes2 := st.AddAnd(cs).0.nodes;
    assert nodes2[|nodes2| - 1] == AndNode(cs);
    forall i | 0 <= i < |cs| {
      EvalPrefix(st.nodes, [AndNode(cs)], cs[i], truth);
    }
  }

  /** A new AND node over two existing children holds when both do. */
  lemma AddAndPairMeaning(st: CircuitState, x: NodeRef, y: NodeRef, truth: AtomKey -> bool)
    requires ValidRef(|st.nodes|, x) && ValidRef(|st.nodes|, y)
    ensures Eval(st.AddAnd([x, y]).0.nodes, st.AddAnd([x, y]).1, truth)
            == (Eval(st.nodes, x, truth) && Eval(st.nodes, y, truth))
  {
    var cs := [x, y];
    assert cs[0] == x && cs[1] == y;
    AddAndMeaning(st, cs, truth);
  }

  /** A new OR node is the disjunction of its (existing) children. */
  lemma AddOrMeaning(st: CircuitState, cs: seq<NodeRef>, truth: AtomKey -> bool)
    requires forall i :: 0 <= i < |cs| ==> ValidRef(|st.nodes|, cs[i])
    ensures Eval(st.AddOr(cs).0.nodes, st.AddOr(cs).1, truth)
            == (exists i :: 0 <= i < |cs| && Eval(st.nodes, cs[i], truth))
  {
    var nodes2 := st.AddOr(cs).0.nodes;
    assert nodes2[|nodes2| - 1] == OrNode(cs);
    forall i | 0 <= i < |cs| {
      EvalPrefix(st.nodes, [OrNode(cs)], cs[i], truth);
    }
  }

  /** The node `add_atom` returns is true exactly when its identifier is. */
  lemma AddAtomMeaning(st: CircuitState, key: AtomKey, payload: Value, truth: AtomKey -> bool)
    requires st.Valid()
    ensures Eval(st.AddAtom(key, payload).0.nodes, Node(st.AddAtom(key, payload).1), truth) == truth(key)
  {
  }

  /** Distinct identifiers are never given the same atom node. */
  lemma AtomsDistinct(st: CircuitState, k1: AtomKey, k2: AtomKey)
    requires st.Valid() && k1 in st.atoms && k2 in st.atoms && k1 != k2
    ensures st.atoms[k1] != st.atoms[k2]
  {
    assert st.nodes[st.atoms[k1] - 1].key == k1;
    assert st.nodes[st.atoms[k2] - 1].key == k2;
  }

  lemma ExtendsTransitive(st1: CircuitState, st2: CircuitState, st3: CircuitState)
    requires Extends(st1, st2) && Extends(st2, st3)
    ensures Extends(st1, st3)
  {
  }

  /** The circuit builder handed to the builtins as `target`. */
  class Circuit {
    var nodes: seq<CircuitNode>
    var atoms: map<AtomKey, nat>
    var densityValues: map<string, RandomVariableConstant>
    const backend: Backend

    ghost function State(): CircuitState
      reads this
    {
      CircuitState(nodes, atoms, densityValues)
    }

    /** A fresh circuit starts a session with an empty density cache. */
    constructor (backend: Backend)
      ensures State() == EmptyCircuit && State().Valid()
      ensures this.backend == backend
    {
      this.backend := backend;
      nodes, atoms, densityValues := [], map[], map[];
    }

    method AddAtom(key: AtomKey, payload: Value) returns (id: nat)
      modifies this
      ensures (State(), id) == old(State()).AddAtom(key, payload)
    {
      if key in atoms {
        id := atoms[key];
      } else {
        nodes := nodes + [AtomNode(key, payload)];
        id := |nodes|;
        atoms := atoms[key := id];
      }
    }

    method AddAnd(children: seq<NodeRef>) returns (n: NodeRef)
      modifies this
      ensures (State(), n) == old(State()).AddAnd(children)
    {
      nodes := nodes + [AndNode(children)];
      n := Node(|nodes|);
    }

    method AddOr(children: seq<NodeRef>) returns (n: NodeRef)
      modifies this
      ensures (State(), n) == old(State()).AddOr(children)
    {
      nodes := nodes + [OrNode(children)];
      n := Node(|nodes|);
    }

    /** Records a handle in the density cache. */
    method CacheDensity(name: string, value: RandomVariableConstant)
      modifies this
      ensures State() == old(State()).(densityValues := old(densityValues)[name := value])
    {
      densityValues := densityValues[name := value];
    }
  }
}
