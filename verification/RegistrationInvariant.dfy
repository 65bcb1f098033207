/** What every registration step keeps. */
module RegistrationInvariant {
  import opened Values
  import opened ResultTree
  import opened Registry
  import opened Registration
  import opened Digraph

  // ---------------------------------------------------------------------------------------------
  // Leaves of parameters

  /** A group parameter's node number and group key */
  datatype GroupLeaf = GroupLeaf(id: nat, key: Key)

  function GroupLeaves(p: Param): set<GroupLeaf>
    decreases p, 1
  {
    match p
    case SingleParam(_, _) => {}
    case GroupParam(id, elem, _, _) => {GroupLeaf(id, elem)}
    case ObjectParam(fields) => FieldGroupLeaves(fields)
  }

  function FieldGroupLeaves(fields: seq<ParamField>): set<GroupLeaf>
    decreases fields, 0
  {
    if fields == [] then {} else
      assert (fields[0] decreases to fields[0].param);
      GroupLeaves(fields[0].param) + FieldGroupLeaves(fields[1..])
  }

  function ListGroupLeaves(ps: seq<Param>): set<GroupLeaf> {
    if ps == [] then {} else GroupLeaves(ps[0]) + ListGroupLeaves(ps[1..])
  }

  // ---------------------------------------------------------------------------------------------
  // The invariant

  /** A constructor at index i of a graph has order i in it. */
  ghost predicate CtorsOrdered(reg: Registry) {
    forall c, i :: 0 <= c < |reg.nodes| && 0 <= i < |reg.nodes[c]| && reg.nodes[c][i].CtorNode? ==>
      Place(reg.nodes[c][i], c) in reg.orders && reg.orders[Place(reg.nodes[c][i], c)] == i
  }

  /** The group parameter `x` of a constructor in the graph of `c`: numbered, and if it has an order there, in place. */
  ghost predicate GroupOrdered(reg: Registry, x: GroupLeaf, c: nat) {
    && x.id < |reg.groupKeys|
    && reg.groupKeys[x.id] == x.key
    && (Place(GroupNode(x.id), c) in reg.orders ==> Placed(reg, GroupNode(x.id), c))
  }

  ghost predicate GroupsOrdered(reg: Registry) {
    forall c, n: nat, x ::
      (0 <= c < |reg.nodes| && CtorNode(n) in reg.nodes[c] && n < |reg.ctors| &&
       x in ListGroupLeaves(reg.ctors[n].params)) ==>
      GroupOrdered(reg, x, c) && (c == reg.ctors[n].scope ==> Place(GroupNode(x.id), c) in reg.orders)
  }

  /** A listed constructor belongs to the scope that lists it, which lists it under its keys only. */
  ghost predicate ListedOk(reg: Registry, slot: Slot, n: nat) {
    && slot.scope < |reg.parents|
    && n < |reg.ctors|
    && reg.ctors[n].scope == slot.scope
    && reg.ctors[n].results.Valid()
    && slot.key in KeysOfCtor(reg.ctors[n])
  }

  ghost predicate ProvidersListed(reg: Registry) {
    forall slot, n :: n in Listed(reg.providers, slot) ==> ListedOk(reg, slot, n)
  }

  /** Every visible provider has its place in the graph. */
  ghost predicate ProvidersPlaced(reg: Registry) {
    forall slot, n, c :: n in Listed(reg.providers, slot) && Within(reg, slot.scope, c) ==> Placed(reg, CtorNode(n), c)
  }

  /** Every constructor in a graph is visible from its scope, and listed under all its keys, of which it has some. */
  ghost predicate CtorsListed(reg: Registry) {
    forall c, n: nat :: 0 <= c < |reg.nodes| && CtorNode(n) in reg.nodes[c] ==>
      && n < |reg.ctors|
      && Within(reg, reg.ctors[n].scope, c)
      && reg.ctors[n].results.Valid()
      && KeysOfCtor(reg.ctors[n]) != {}
      && forall k :: k in KeysOfCtor(reg.ctors[n]) ==> n in reg.Providers(reg.ctors[n].scope, k)
  }

  function SingleKeysOfCtor(ctor: Ctor): set<Key> {
    SingleKeysOf(ListEntries(ctor.results.results))
  }

  ghost predicate SingleFor(reg: Registry, k: Key, n: nat) {
    n < |reg.ctors| && k in SingleKeysOfCtor(reg.ctors[n])
  }

  /** No scope lists a constructor twice under a key, or two constructors with the same single key. */
  ghost predicate ProvidersApart(reg: Registry) {
    && (forall slot :: Distinct(Listed(reg.providers, slot)))
    && (forall slot, n, n' ::
          n in Listed(reg.providers, slot) && n' in Listed(reg.providers, slot) ==>
          SingleFor(reg, slot.key, n) && SingleFor(reg, slot.key, n') ==> n == n')
  }

  ghost predicate OrdersScoped(reg: Registry) {
    forall place: Place :: place in reg.orders ==> place.scope < |reg.parents|
  }

  /** The tables fit together: order indices are exact. */
  ghost predicate Tables(reg: Registry) {
    && TreeOk(reg)
    && NodesNumbered(reg)
    && CtorsOrdered(reg)
    && GroupsOrdered(reg)
    && ProvidersListed(reg)
    && ProvidersPlaced(reg)
    && CtorsListed(reg)
    && ProvidersApart(reg)
    && OrdersScoped(reg)
  }

  /** A scope that is flagged as verified has no cycle, nor has a scope that provides something and does not
      defer its check. */
  ghost predicate FlagsSound(reg: Registry)
    requires TreeOk(reg) && NodesNumbered(reg)
  {
    forall c :: 0 <= c < |reg.nodes| && (reg.verified[c] || (!reg.deferred[c] && exists k :: Provides(reg, c, k))) ==>
      IsDag(GraphOf(reg, c))
  }

  ghost predicate Inv(reg: Registry) {
    Tables(reg) && FlagsSound(reg)
  }

  // ---------------------------------------------------------------------------------------------
  // Edges

  lemma {:induction false} ParamOrdersBound(reg: Registry, p: Param, c: nat, bound: nat)
    requires forall k, n :: n in reg.AllProviders(c, k) ==> reg.Order(CtorNode(n), c) < bound
    requires forall x :: x in GroupLeaves(p) ==> reg.Order(GroupNode(x.id), c) < bound
    ensures forall o :: o in ParamOrders(reg, p, c) ==> o < bound
    decreases p, 1
  {
    match p
    case SingleParam(k, _) =>
    case GroupParam(id, elem, _, _) => assert GroupLeaf(id, elem) in GroupLeaves(p);
    case ObjectParam(fields) => FieldOrdersBound(reg, fields, c, bound);
  }

  lemma {:induction false} FieldOrdersBound(reg: Registry, fields: seq<ParamField>, c: nat, bound: nat)
    requires forall k, n :: n in reg.AllProviders(c, k) ==> reg.Order(CtorNode(n), c) < bound
    requires forall x :: x in FieldGroupLeaves(fields) ==> reg.Order(GroupNode(x.id), c) < bound
    ensures forall o :: o in FieldOrders(reg, fields, c) ==> o < bound
    decreases fields, 0
  {
    if fields != [] {
      assert (fields[0] decreases to fields[0].param);
      ParamOrdersBound(reg, fields[0].param, c, bound);
      FieldOrdersBound(reg, fields[1..], c, bound);
    }
  }

  lemma {:induction false} ListOrdersBound(reg: Registry, ps: seq<Param>, c: nat, bound: nat)
    requires forall k, n :: n in reg.AllProviders(c, k) ==> reg.Order(CtorNode(n), c) < bound
    requires forall x :: x in ListGroupLeaves(ps) ==> reg.Order(GroupNode(x.id), c) < bound
    ensures forall o :: o in ListOrders(reg, ps, c) ==> o < bound
  {
    if ps != [] {
      ParamOrdersBound(reg, ps[0], c, bound);
      ListOrdersBound(reg, ps[1..], c, bound);
    }
  }

  lemma VisibleProviderPlaced(reg: Registry, c: nat, k: Key, n: nat)
    requires ProvidersListed(reg) && ProvidersPlaced(reg) && c < |reg.parents| && n in reg.AllProviders(c, k)
    ensures Placed(reg, CtorNode(n), c) && n < |reg.ctors|
  {
    ProvidersOnMember(reg, reg.PathToRoot(c), k, n);
    var s :| s in reg.PathToRoot(c) && n in reg.Providers(s, k);
    assert n in Listed(reg.providers, Slot(s, k)) && Within(reg, s, c);
    assert ListedOk(reg, Slot(s, k), n);
  }

  /** The edges of every graph are in range. */
  lemma EdgesInRange(reg: Registry, c: nat)
    requires Tables(reg) && c < |reg.parents|
    ensures InRange(GraphOf(reg, c))
  {
    var g := GraphOf(reg, c);
    forall k, n | n in reg.AllProviders(c, k) ensures reg.Order(CtorNode(n), c) < |g| {
      VisibleProviderPlaced(reg, c, k, n);
    }
    forall u | 0 <= u < |g| ensures forall o :: o in g[u] ==> o < |g| {
      match reg.nodes[c][u]
      case GroupNode(i) =>
      case CtorNode(n) =>
        assert CtorNode(n) in reg.nodes[c];
        forall x | x in ListGroupLeaves(reg.ctors[n].params) ensures reg.Order(GroupNode(x.id), c) < |g| {
          assert GroupOrdered(reg, x, c);
        }
        ListOrdersBound(reg, reg.ctors[n].params, c, |g|);
    }
    forall u, j | 0 <= u < |g| && 0 <= j < |g[u]| ensures g[u][j] < |g| {
      assert g[u][j] in g[u];
    }
  }

  // ---------------------------------------------------------------------------------------------
  // When scope `c` sees the same after a step as before

  /** Numbered constructors and group parameters stay as they are. */
  ghost predicate NumberingExtended(reg: Registry, reg': Registry) {
    reg.ctors <= reg'.ctors && reg.groupKeys <= reg'.groupKeys && OrdersKept(reg, reg')
  }

  /** Scope `c` finds the numbered constructors and group parameters where they were. */
  ghost predicate NumberingKept(reg: Registry, reg': Registry, c: nat) {
    reg.ctors <= reg'.ctors && reg.groupKeys <= reg'.groupKeys
    && forall x :: Numbered(reg, x) ==> reg'.Order(x, c) == reg.Order(x, c)
  }

  lemma ExtendedIsKept(reg: Registry, reg': Registry, c: nat)
    requires NumberingExtended(reg, reg')
    ensures NumberingKept(reg, reg', c)
  {
    forall x | Numbered(reg, x) ensures reg'.Order(x, c) == reg.Order(x, c) {
      assert Numbered(reg, Place(x, c).node);
    }
  }

  ghost predicate SameView(reg: Registry, reg': Registry, c: nat) {
    && reg'.PathToRoot(c) == reg.PathToRoot(c)
    && forall s, k :: s in reg.PathToRoot(c) ==> reg'.Providers(s, k) == reg.Providers(s, k)
  }

  lemma {:induction false} ProvidersOnSame(reg: Registry, reg': Registry, path: seq<nat>, k: Key)
    requires forall s :: s in path ==> reg'.Providers(s, k) == reg.Providers(s, k)
    ensures reg'.ProvidersOn(path, k) == reg.ProvidersOn(path, k)
  {
    if path != [] { ProvidersOnSame(reg, reg', path[1..], k); }
  }

  lemma ProviderOrdersSame(reg: Registry, reg': Registry, k: Key, c: nat)
    requires NumberingKept(reg, reg', c) && SameView(reg, reg', c)
    requires forall n :: n in reg.AllProviders(c, k) ==> n < |reg.ctors|
    ensures CtorOrders(reg', reg'.AllProviders(c, k), c) == CtorOrders(reg, reg.AllProviders(c, k), c)
  {
    ProvidersOnSame(reg, reg', reg.PathToRoot(c), k);
    var ns := reg.AllProviders(c, k);
    forall i | 0 <= i < |ns| ensures reg'.Order(CtorNode(ns[i]), c) == reg.Order(CtorNode(ns[i]), c) {
      assert ns[i] in ns;
      assert Numbered(reg, CtorNode(ns[i]));
    }
  }

  ghost predicate ProvidersNumbered(reg: Registry, c: nat) {
    forall k, n :: n in reg.AllProviders(c, k) ==> n < |reg.ctors|
  }

  lemma {:induction false} ParamOrdersSame(reg: Registry, reg': Registry, p: Param, c: nat)
    requires NumberingKept(reg, reg', c) && SameView(reg, reg', c) && ProvidersNumbered(reg, c)
    requires forall x :: x in GroupLeaves(p) ==> x.id < |reg.groupKeys|
    ensures ParamOrders(reg', p, c) == ParamOrders(reg, p, c)
    decreases p, 1
  {
    match p
    case SingleParam(k, _) => ProviderOrdersSame(reg, reg', k, c);
    case GroupParam(id, elem, _, _) =>
      assert GroupLeaf(id, elem) in GroupLeaves(p);
      assert Numbered(reg, GroupNode(id));
    case ObjectParam(fields) => FieldOrdersSame(reg, reg', fields, c);
  }

  lemma {:induction false} FieldOrdersSame(reg: Registry, reg': Registry, fields: seq<ParamField>, c: nat)
    requires NumberingKept(reg, reg', c) && SameView(reg, reg', c) && ProvidersNumbered(reg, c)
    requires forall x :: x in FieldGroupLeaves(fields) ==> x.id < |reg.groupKeys|
    ensures FieldOrders(reg', fields, c) == FieldOrders(reg, fields, c)
    decreases fields, 0
  {
    if fields != [] {
      assert (fields[0] decreases to fields[0].param);
      ParamOrdersSame(reg, reg', fields[0].param, c);
      FieldOrdersSame(reg, reg', fields[1..], c);
    }
  }

  lemma {:induction false} ListOrdersSame(reg: Registry, reg': Registry, ps: seq<Param>, c: nat)
    requires NumberingKept(reg, reg', c) && SameView(reg, reg', c) && ProvidersNumbered(reg, c)
    requires forall x :: x in ListGroupLeaves(ps) ==> x.id < |reg.groupKeys|
    ensures ListOrders(reg', ps, c) == ListOrders(reg, ps, c)
  {
    if ps != [] {
      ParamOrdersSame(reg, reg', ps[0], c);
      ListOrdersSame(reg, reg', ps[1..], c);
    }
  }

  /** A scope that sees the same keeps the edges of the nodes that it had. */
  lemma GraphKept(reg: Registry, reg': Registry, c: nat)
    requires Tables(reg) && c < |reg.nodes| == |reg.parents| && c < |reg'.nodes| && NodesNumbered(reg')
    requires NumberingKept(reg, reg', c) && SameView(reg, reg', c) && reg.nodes[c] <= reg'.nodes[c]
    ensures GraphOf(reg, c) <= GraphOf(reg', c)
  {
    forall k, n | n in reg.AllProviders(c, k) ensures n < |reg.ctors| { VisibleProviderPlaced(reg, c, k, n); }
    forall u | 0 <= u < |reg.nodes[c]| ensures GraphOf(reg', c)[u] == GraphOf(reg, c)[u] {
      assert reg'.nodes[c][u] == reg.nodes[c][u];
      match reg.nodes[c][u]
      case GroupNode(i) =>
        assert Numbered(reg, reg.nodes[c][u]);
        ProviderOrdersSame(reg, reg', reg.groupKeys[i], c);
      case CtorNode(n) =>
        assert CtorNode(n) in reg.nodes[c];
        forall x | x in ListGroupLeaves(reg.ctors[n].params) ensures x.id < |reg.groupKeys| {
          assert GroupOrdered(reg, x, c);
        }
        ListOrdersSame(reg, reg', reg.ctors[n].params, c);
    }
  }

  /** Nodes without incoming edges do not close a cycle. */
  lemma DagExtended(g: Graph, g': Graph)
    requires IsDag(g) && g <= g' && forall u, v :: |g| <= u < |g'| && v in g'[u] ==> v < |g|
    ensures IsDag(g')
  {
    var rank :| Ranks(g, rank);
    var ranks := map u: nat | u < |rank| :: rank[u];
    var top := MaxValue(ranks, ranks.Keys);
    forall u: nat | u < |rank| ensures rank[u] <= top { assert u in ranks.Keys && ranks[u] == rank[u]; }
    var rank' := rank + seq(|g'| - |g|, _ => top + 1);
    forall u: nat, v: nat | Edge(g', u, v) ensures v < |g'| && rank'[v] < rank'[u] {
      if u < |g| { assert Edge(g, u, v); }
    }
    assert Ranks(g', rank');
  }
}
