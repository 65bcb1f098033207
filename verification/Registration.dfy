/** Registration: what Provide, Scope, Decorate and Invoke do to the tables of the container (provide.go,
    scope.go, graph.go, decorate.go, invoke.go, and the newParam functions of param.go). */
module Registration {
  import opened Values
  import opened ResultTree
  import opened Registry
  import opened Digraph

  // ---------------------------------------------------------------------------------------------
  // Dependency graphs

  /** The orders of constructors in the graph of scope `s` */
  function CtorOrders(reg: Registry, ns: seq<nat>, s: nat): (os: seq<nat>)
    ensures |os| == |ns| && forall i :: 0 <= i < |ns| ==> os[i] == reg.Order(CtorNode(ns[i]), s)
  {
    seq(|ns|, i requires 0 <= i < |ns| => reg.Order(CtorNode(ns[i]), s))
  }

  /** getParamOrder */
  function ParamOrders(reg: Registry, p: Param, s: nat): seq<nat>
    decreases p, 1
  {
    match p
    case SingleParam(k, _) => CtorOrders(reg, reg.AllProviders(s, k), s)
    case GroupParam(id, _, _, _) => [reg.Order(GroupNode(id), s)]
    case ObjectParam(fields) => FieldOrders(reg, fields, s)
  }

  function FieldOrders(reg: Registry, fields: seq<ParamField>, s: nat): seq<nat>
    decreases fields, 0
  {
    if fields == [] then [] else
      assert (fields[0] decreases to fields[0].param);
      ParamOrders(reg, fields[0].param, s) + FieldOrders(reg, fields[1..], s)
  }

  function ListOrders(reg: Registry, ps: seq<Param>, s: nat): seq<nat> {
    if ps == [] then [] else ParamOrders(reg, ps[0], s) + ListOrders(reg, ps[1..], s)
  }

  /** The constructors and group parameters that have been numbered */
  predicate Numbered(reg: Registry, n: Node) {
    match n
    case CtorNode(i) => i < |reg.ctors|
    case GroupNode(i) => i < |reg.groupKeys|
  }

  /** EdgesFrom: the dependencies of a node as seen from scope `s` */
  function EdgesOf(reg: Registry, n: Node, s: nat): seq<nat>
    requires Numbered(reg, n)
  {
    match n
    case CtorNode(i) => ListOrders(reg, reg.ctors[i].params, s)
    case GroupNode(i) => CtorOrders(reg, reg.AllProviders(s, reg.groupKeys[i]), s)
  }

  ghost predicate NodesNumbered(reg: Registry) {
    forall s, i :: 0 <= s < |reg.nodes| && 0 <= i < |reg.nodes[s]| ==> Numbered(reg, reg.nodes[s][i])
  }

  /** The graphHolder of scope `s` as a graph */
  function GraphOf(reg: Registry, s: nat): (g: Graph)
    requires s < |reg.nodes| && forall i :: 0 <= i < |reg.nodes[s]| ==> Numbered(reg, reg.nodes[s][i])
    ensures |g| == |reg.nodes[s]| && forall u :: 0 <= u < |g| ==> g[u] == EdgesOf(reg, reg.nodes[s][u], s)
  {
    seq(|reg.nodes[s]|, u requires 0 <= u < |reg.nodes[s]| => EdgesOf(reg, reg.nodes[s][u], s))
  }

  // ---------------------------------------------------------------------------------------------
  // The scope tree

  predicate Within(reg: Registry, s: nat, c: nat) {
    c < |reg.parents| && s in reg.PathToRoot(c)
  }

  ghost predicate Sized(reg: Registry) {
    && |reg.children| == |reg.deferred| == |reg.verified| == |reg.nodes| == |reg.snaps| == |reg.parents|
  }

  /** Parents and children mirror each other, and a child is younger than its parent. */
  ghost predicate TreeOk(reg: Registry) {
    && Sized(reg)
    && (forall s :: 0 <= s < |reg.parents| && reg.parents[s].Some? ==>
          reg.parents[s].value < s && s in reg.children[reg.parents[s].value])
    && (forall p, c {:trigger c in reg.children[p]} :: 0 <= p < |reg.children| && c in reg.children[p] ==>
          c < |reg.parents| && reg.parents[c] == Some(p))
    && (forall p :: 0 <= p < |reg.children| ==> Distinct(reg.children[p]))
  }

  /** appendSubscopes: `s` and its descendants, parents before children */
  ghost function Subscopes(reg: Registry, s: nat): seq<nat>
    requires TreeOk(reg) && s < |reg.parents|
    decreases |reg.parents| - s, 1, 0
  {
    [s] + SubscopesOf(reg, s, reg.children[s])
  }

  ghost function SubscopesOf(reg: Registry, s: nat, cs: seq<nat>): seq<nat>
    requires TreeOk(reg) && s < |reg.parents| && forall c :: c in cs ==> c in reg.children[s]
    decreases |reg.parents| - s, 0, |cs|
  {
    if cs == [] then [] else
      assert cs[0] in cs && cs[0] in reg.children[s];
      Subscopes(reg, cs[0]) + SubscopesOf(reg, s, cs[1..])
  }

  // ---------------------------------------------------------------------------------------------
  // Graph nodes

  /** newGraphNode: the node is added to scope `s` and all its descendants. */
  function AddNode(reg: Registry, s: nat, n: Node): Registry
    requires |reg.nodes| == |reg.parents|
  {
    reg.(nodes := seq(|reg.nodes|, c requires 0 <= c < |reg.nodes| =>
                        if Within(reg, s, c) then reg.nodes[c] + [n] else reg.nodes[c]),
         orders := reg.orders + map c | 0 <= c < |reg.nodes| && Within(reg, s, c) :: Place(n, c) := |reg.nodes[c]|)
  }

  /** Snapshot of the graphs of `s` and its descendants */
  function Snapshot(reg: Registry, s: nat): Registry
    requires |reg.nodes| == |reg.parents| == |reg.snaps|
  {
    reg.(snaps := seq(|reg.nodes|, c requires 0 <= c < |reg.nodes| =>
                        if Within(reg, s, c) then |reg.nodes[c]| else reg.snaps[c]))
  }

  /** Rollback of one graph; a no-op without a snapshot */
  function RolledBack(nodes: seq<Node>, snap: int): seq<Node> {
    if 0 <= snap <= |nodes| then nodes[..snap] else nodes
  }

  function Rollback(reg: Registry, s: nat): Registry
    requires |reg.nodes| == |reg.parents| == |reg.snaps|
  {
    reg.(nodes := seq(|reg.nodes|, c requires 0 <= c < |reg.nodes| =>
                        if Within(reg, s, c) then RolledBack(reg.nodes[c], reg.snaps[c]) else reg.nodes[c]),
         snaps := seq(|reg.nodes|, c requires 0 <= c < |reg.nodes| => if Within(reg, s, c) then -1 else reg.snaps[c]))
  }

  // ---------------------------------------------------------------------------------------------
  // Parameters

  /** A declared parameter: `Unusable` is one that newParam refuses. */
  datatype ParamSpec =
    | SingleSpec(key: Key, optional: bool)
    | GroupSpec(elem: Key, slice: Key, soft: bool)
    | ObjectSpec(fields: seq<FieldSpec>)
    | Unusable

  datatype FieldSpec = FieldSpec(index: nat, spec: ParamSpec)

  /** newParam; a group parameter is given a node in the graphs of `s` and its descendants. */
  function NewParam(reg: Registry, s: nat, spec: ParamSpec): (r: (Option<Param>, Registry))
    requires |reg.nodes| == |reg.parents|
    ensures r.1.parents == reg.parents && |r.1.nodes| == |reg.nodes|
    decreases spec, 1
  {
    match spec
    case SingleSpec(k, optional) => (Some(SingleParam(k, optional)), reg)
    case GroupSpec(elem, slice, soft) =>
      (Some(GroupParam(|reg.groupKeys|, elem, slice, soft)), NewGroupNode(reg, s, elem))
    case ObjectSpec(fields) =>
      var (fs, reg1) := NewFields(reg, s, fields);
      (if fs.Some? then Some(ObjectParam(fs.value)) else None, reg1)
    case Unusable => (None, reg)
  }

  function NewGroupNode(reg: Registry, s: nat, elem: Key): Registry
    requires |reg.nodes| == |reg.parents|
  {
    AddNode(reg.(groupKeys := reg.groupKeys + [elem]), s, GroupNode(|reg.groupKeys|))
  }

  function NewFields(reg: Registry, s: nat, fields: seq<FieldSpec>): (r: (Option<seq<ParamField>>, Registry))
    requires |reg.nodes| == |reg.parents|
    ensures r.1.parents == reg.parents && |r.1.nodes| == |reg.nodes|
    decreases fields, 0
  {
    if fields == [] then (Some([]), reg) else
      assert (fields[0] decreases to fields[0].spec);
      var (p, reg1) := NewParam(reg, s, fields[0].spec);
      if p.None? then (None, reg1) else
        var (fs, reg2) := NewFields(reg1, s, fields[1..]);
        (if fs.None? then None else Some([ParamField(fields[0].index, p.value)] + fs.value), reg2)
  }

  /** newParamList */
  function NewParams(reg: Registry, s: nat, specs: seq<ParamSpec>): (r: (Option<seq<Param>>, Registry))
    requires |reg.nodes| == |reg.parents|
    ensures r.1.parents == reg.parents && |r.1.nodes| == |reg.nodes|
    decreases |specs|
  {
    if specs == [] then (Some([]), reg) else
      var (p, reg1) := NewParam(reg, s, specs[0]);
      if p.None? then (None, reg1) else
        var (ps, reg2) := NewParams(reg1, s, specs[1..]);
        (if ps.None? then None else Some([p.value] + ps.value), reg2)
  }

  // ---------------------------------------------------------------------------------------------
  // Provide

  datatype ProvideOutcome = Provided | BadParam | BadResult | Conflict | NoKeys | CycleIn(scope: nat)

  /** rootScope */
  function Root(reg: Registry, s: nat): nat {
    var path := reg.PathToRoot(s);
    path[|path| - 1]
  }

  function KeysOfCtor(ctor: Ctor): set<Key> {
    KeysOf(ListEntries(ctor.results.results))
  }

  /** The keys for which `s` itself has providers */
  ghost predicate Provides(reg: Registry, s: nat, k: Key) {
    reg.Providers(s, k) != []
  }

  /** The keys for which `s` itself has providers, as a set */
  function ProvidedBy(reg: Registry, s: nat): (ks: set<Key>)
    ensures forall k :: k in ks <==> Provides(reg, s, k)
  {
    set slot | slot in reg.providers && slot.scope == s && reg.providers[slot] != [] :: slot.key
  }

  /** No single key of the results is provided by `s` already, or met twice. */
  ghost predicate Acceptable(reg: Registry, s: nat, es: seq<Entry>) {
    NoConflict(es, ProvidedBy(reg, s))
  }

  /** The tables with constructor `n` listed for its keys */
  function List(reg: Registry, s: nat, keys: set<Key>, n: nat): Registry {
    reg.(providers := reg.providers + map k | k in keys :: Slot(s, k) := reg.Providers(s, k) + [n])
  }

  /** The tables of `c` with the lists that `old` has for `s`: the scope that the check rejects is given back
      the lists of the scope that was provided to. */
  function Restore(reg: Registry, c: nat, keys: set<Key>, old_: Registry, s: nat): Registry {
    reg.(providers := reg.providers + map k | k in keys :: Slot(c, k) := old_.Providers(s, k))
  }

  /** A constructor node and its place in the graphs of `s` and its descendants */
  function NewCtor(reg: Registry, s: nat, ctor: Ctor): Registry
    requires |reg.nodes| == |reg.parents|
  {
    AddNode(reg.(ctors := reg.ctors + [ctor]), s, CtorNode(|reg.ctors|))
  }

  /** The check of all affected scopes, up to the first one that has a cycle */
  ghost function CheckScopes(reg: Registry, cs: seq<nat>): (r: (Option<nat>, Registry))
    requires Sized(reg) && NodesNumbered(reg) && forall c :: c in cs ==> c < |reg.parents|
    ensures r.1 == reg.(verified := r.1.verified) && |r.1.verified| == |reg.verified|
    decreases |cs|
  {
    if cs == [] then (None, reg) else
      assert cs[0] in cs && forall c :: c in cs[1..] ==> c in cs;
      if reg.deferred[cs[0]] then CheckScopes(reg.(verified := reg.verified[cs[0] := false]), cs[1..])
      else if !IsDag(GraphOf(reg, cs[0])) then (Some(cs[0]), reg.(verified := reg.verified[cs[0] := false]))
      else CheckScopes(reg.(verified := reg.verified[cs[0] := true]), cs[1..])
  }

  /** The scope a constructor is put in: an exported one goes to the root. */
  function Target(reg: Registry, s: nat, exported: bool): nat {
    if exported then Root(reg, s) else s
  }

  // ---------------------------------------------------------------------------------------------
  // Growth: what numbering and adding nodes does to the tables

  /** Node `x` stands in the graph of `c` where its order says. */
  ghost predicate Placed(reg: Registry, x: Node, c: nat) {
    && c < |reg.nodes|
    && Place(x, c) in reg.orders
    && reg.orders[Place(x, c)] < |reg.nodes[c]|
    && reg.nodes[c][reg.orders[Place(x, c)]] == x
  }

  /** What was numbered before keeps its place or absence; new places are in existing scopes. */
  ghost predicate OrdersKept(reg: Registry, reg': Registry) {
    && (forall place: Place :: Numbered(reg, place.node) ==>
          && (place in reg'.orders <==> place in reg.orders)
          && (place in reg.orders ==> reg'.orders[place] == reg.orders[place]))
    && (forall place: Place :: place in reg'.orders ==> place in reg.orders || place.scope < |reg.parents|)
  }

  /** The graphs of `s` and its descendants are extended, by nodes that were not numbered before. */
  ghost predicate NodesExtended(reg: Registry, reg': Registry, s: nat) {
    && |reg'.nodes| == |reg.nodes|
    && (forall c :: 0 <= c < |reg.nodes| ==> reg.nodes[c] <= reg'.nodes[c])
    && (forall c :: 0 <= c < |reg.nodes| && !Within(reg, s, c) ==> reg'.nodes[c] == reg.nodes[c])
    && (forall c, i :: 0 <= c < |reg.nodes| && |reg.nodes[c]| <= i < |reg'.nodes[c]| ==>
          && !Numbered(reg, reg'.nodes[c][i]) && Numbered(reg', reg'.nodes[c][i])
          && Place(reg'.nodes[c][i], c) in reg'.orders && reg'.orders[Place(reg'.nodes[c][i], c)] == i)
  }

  /** Every node numbered meanwhile has its place in the graphs of `s` and its descendants. */
  ghost predicate NewPlaced(reg: Registry, reg': Registry, s: nat) {
    forall x, c :: !Numbered(reg, x) && Numbered(reg', x) && Within(reg, s, c) ==> Placed(reg', x, c)
  }

  /** `reg'` is `reg` with new constructors and group parameters put in the graphs of `s` and its descendants. */
  ghost predicate Grown(reg: Registry, reg': Registry, s: nat) {
    && reg' == reg.(nodes := reg'.nodes, orders := reg'.orders, groupKeys := reg'.groupKeys, ctors := reg'.ctors)
    && reg.groupKeys <= reg'.groupKeys
    && reg.ctors <= reg'.ctors
    && OrdersKept(reg, reg')
    && NodesExtended(reg, reg', s)
    && NewPlaced(reg, reg', s)
  }

  lemma GrownReflexive(reg: Registry, s: nat)
    ensures Grown(reg, reg, s)
  {}

  lemma NumberedStays(reg: Registry, reg': Registry, x: Node)
    requires reg.groupKeys <= reg'.groupKeys && reg.ctors <= reg'.ctors && Numbered(reg, x)
    ensures Numbered(reg', x)
  {}

  lemma GrownTransitive(a: Registry, b: Registry, c: Registry, s: nat)
    requires Grown(a, b, s) && Grown(b, c, s)
    ensures Grown(a, c, s)
  {
    forall x | Numbered(a, x) ensures Numbered(b, x) { NumberedStays(a, b, x); }
    assert forall p :: Within(a, s, p) == Within(b, s, p);
    assert OrdersKept(a, c);
    forall p, i | 0 <= p < |a.nodes| && |a.nodes[p]| <= i < |c.nodes[p]|
      ensures !Numbered(a, c.nodes[p][i]) && Numbered(c, c.nodes[p][i])
      ensures Place(c.nodes[p][i], p) in c.orders && c.orders[Place(c.nodes[p][i], p)] == i
    {
      if i < |b.nodes[p]| {
        assert c.nodes[p][i] == b.nodes[p][i];
        NumberedStays(b, c, b.nodes[p][i]);
      }
    }
    forall x, p | !Numbered(a, x) && Numbered(c, x) && Within(a, s, p) ensures Placed(c, x, p) {
      if Numbered(b, x) { assert Placed(b, x, p); }
    }
  }

  /** AddNode, place by place */
  ghost predicate NodeAdded(reg: Registry, reg': Registry, s: nat, x: Node) {
    && reg' == reg.(nodes := reg'.nodes, orders := reg'.orders)
    && |reg'.nodes| == |reg.nodes|
    && (forall c: nat :: c < |reg.nodes| ==>
          reg'.nodes[c] == if Within(reg, s, c) then reg.nodes[c] + [x] else reg.nodes[c])
    && (forall c: nat :: c < |reg.nodes| && Within(reg, s, c) ==>
          Place(x, c) in reg'.orders && reg'.orders[Place(x, c)] == |reg.nodes[c]|)
    && (forall place: Place :: place.node != x ==>
          && (place in reg'.orders <==> place in reg.orders)
          && (place in reg.orders ==> reg'.orders[place] == reg.orders[place]))
    && (forall place: Place :: place in reg'.orders ==> place in reg.orders || place.scope < |reg.nodes|)
  }

  lemma AddNodeAdds(reg: Registry, s: nat, x: Node)
    requires |reg.nodes| == |reg.parents|
    ensures NodeAdded(reg, AddNode(reg, s, x), s, x)
  {}

  lemma NodeAddedGrows(reg: Registry, reg1: Registry, reg': Registry, s: nat, x: Node)
    requires |reg.nodes| == |reg.parents| && !Numbered(reg, x) && Numbered(reg1, x)
    requires reg1 == reg.(groupKeys := reg1.groupKeys, ctors := reg1.ctors)
    requires reg.groupKeys <= reg1.groupKeys && reg.ctors <= reg1.ctors
    requires forall y :: Numbered(reg1, y) ==> Numbered(reg, y) || y == x
    requires NodeAdded(reg1, reg', s, x)
    ensures Grown(reg, reg', s)
  {
    assert forall c :: Within(reg1, s, c) == Within(reg, s, c);
    assert forall y :: Numbered(reg', y) == Numbered(reg1, y);
    assert OrdersKept(reg, reg');
    assert NodesExtended(reg, reg', s);
  }

  lemma NewGroupNodeGrows(reg: Registry, s: nat, elem: Key)
    requires |reg.nodes| == |reg.parents|
    ensures Grown(reg, NewGroupNode(reg, s, elem), s)
  {
    var reg1 := reg.(groupKeys := reg.groupKeys + [elem]);
    AddNodeAdds(reg1, s, GroupNode(|reg.groupKeys|));
    NodeAddedGrows(reg, reg1, NewGroupNode(reg, s, elem), s, GroupNode(|reg.groupKeys|));
  }

  lemma NewCtorGrows(reg: Registry, s: nat, ctor: Ctor)
    requires |reg.nodes| == |reg.parents|
    ensures Grown(reg, NewCtor(reg, s, ctor), s)
  {
    var reg1 := reg.(ctors := reg.ctors + [ctor]);
    AddNodeAdds(reg1, s, CtorNode(|reg.ctors|));
    NodeAddedGrows(reg, reg1, NewCtor(reg, s, ctor), s, CtorNode(|reg.ctors|));
  }

  lemma {:induction false} NewParamGrows(reg: Registry, s: nat, spec: ParamSpec)
    requires |reg.nodes| == |reg.parents|
    ensures Grown(reg, NewParam(reg, s, spec).1, s) && NewParam(reg, s, spec).1.ctors == reg.ctors
    decreases spec, 1
  {
    match spec
    case SingleSpec(_, _) => GrownReflexive(reg, s);
    case GroupSpec(elem, _, _) => NewGroupNodeGrows(reg, s, elem);
    case ObjectSpec(fields) => NewFieldsGrow(reg, s, fields);
    case Unusable => GrownReflexive(reg, s);
  }

  lemma {:induction false} NewFieldsGrow(reg: Registry, s: nat, fields: seq<FieldSpec>)
    requires |reg.nodes| == |reg.parents|
    ensures Grown(reg, NewFields(reg, s, fields).1, s) && NewFields(reg, s, fields).1.ctors == reg.ctors
    decreases fields, 0
  {
    hide Grown;
    if fields == [] {
      GrownReflexive(reg, s);
    } else {
      assert (fields[0] decreases to fields[0].spec);
      var (p, reg1) := NewParam(reg, s, fields[0].spec);
      NewParamGrows(reg, s, fields[0].spec);
      if p.Some? {
        NewFieldsGrow(reg1, s, fields[1..]);
        GrownTransitive(reg, reg1, NewFields(reg1, s, fields[1..]).1, s);
      }
    }
  }

  lemma {:induction false} NewParamsGrow(reg: Registry, s: nat, specs: seq<ParamSpec>)
    requires |reg.nodes| == |reg.parents|
    ensures Grown(reg, NewParams(reg, s, specs).1, s) && NewParams(reg, s, specs).1.ctors == reg.ctors
    decreases |specs|
  {
    hide Grown;
    if specs == [] {
      GrownReflexive(reg, s);
    } else {
      var (p, reg1) := NewParam(reg, s, specs[0]);
      NewParamGrows(reg, s, specs[0]);
      if p.Some? {
        NewParamsGrow(reg1, s, specs[1..]);
        GrownTransitive(reg, reg1, NewParams(reg1, s, specs[1..]).1, s);
      }
    }
  }
}
