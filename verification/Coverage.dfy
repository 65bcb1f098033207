/** What the check for cycles is worth to the resolver: it covers everything that an Invoke can reach. */
module Coverage {
  import opened Values
  import opened ResultTree
  import opened Registry
  import opened Registration
  import opened RegistrationInvariant
  import opened RegistrationSteps
  import opened Resolver
  import opened Runs
  import opened Digraph

  // ---------------------------------------------------------------------------------------------
  // From the leaves of a parameter to the edges of the graph

  /** Every provider of leaf `k` that is visible from `c` is in `orders`, or else a group node for `k` is. */
  ghost predicate LeafCovered(reg: Registry, orders: seq<nat>, leaves: set<GroupLeaf>, c: nat, k: Key) {
    || (forall m :: m in reg.AllProviders(c, k) ==> reg.Order(CtorNode(m), c) in orders)
    || (exists x :: x in leaves && x.key == k && reg.Order(GroupNode(x.id), c) in orders)
  }

  lemma {:induction false} ParamLeafCovered(reg: Registry, p: Param, c: nat, k: Key)
    requires k in Leaves(p)
    ensures LeafCovered(reg, ParamOrders(reg, p, c), GroupLeaves(p), c, k)
    decreases p, 1
  {
    match p
    case SingleParam(_, _) =>
      var ns := reg.AllProviders(c, k);
      forall m | m in ns ensures reg.Order(CtorNode(m), c) in ParamOrders(reg, p, c) {
        var i :| 0 <= i < |ns| && ns[i] == m;
        assert CtorOrders(reg, ns, c)[i] == reg.Order(CtorNode(m), c);
      }
    case GroupParam(id, elem, _, _) => assert GroupLeaf(id, elem) in GroupLeaves(p);
    case ObjectParam(fields) => FieldLeafCovered(reg, fields, c, k);
  }

  lemma {:induction false} FieldLeafCovered(reg: Registry, fields: seq<ParamField>, c: nat, k: Key)
    requires k in FieldLeaves(fields)
    ensures LeafCovered(reg, FieldOrders(reg, fields, c), FieldGroupLeaves(fields), c, k)
    decreases fields, 0
  {
    assert (fields[0] decreases to fields[0].param);
    var a, b := ParamOrders(reg, fields[0].param, c), FieldOrders(reg, fields[1..], c);
    var xs, ys := GroupLeaves(fields[0].param), FieldGroupLeaves(fields[1..]);
    if k in Leaves(fields[0].param) {
      ParamLeafCovered(reg, fields[0].param, c, k);
      CoveredByMore(reg, a, xs, a + b, xs + ys, c, k);
    } else {
      FieldLeafCovered(reg, fields[1..], c, k);
      CoveredByMore(reg, b, ys, a + b, xs + ys, c, k);
    }
  }

  lemma {:induction false} ListLeafCovered(reg: Registry, ps: seq<Param>, c: nat, k: Key)
    requires k in ListLeaves(ps)
    ensures LeafCovered(reg, ListOrders(reg, ps, c), ListGroupLeaves(ps), c, k)
    decreases |ps|
  {
    var a, b := ParamOrders(reg, ps[0], c), ListOrders(reg, ps[1..], c);
    var xs, ys := GroupLeaves(ps[0]), ListGroupLeaves(ps[1..]);
    if k in Leaves(ps[0]) {
      ParamLeafCovered(reg, ps[0], c, k);
      CoveredByMore(reg, a, xs, a + b, xs + ys, c, k);
    } else {
      ListLeafCovered(reg, ps[1..], c, k);
      CoveredByMore(reg, b, ys, a + b, xs + ys, c, k);
    }
  }

  lemma CoveredByMore(reg: Registry, a: seq<nat>, xs: set<GroupLeaf>, b: seq<nat>,
          ys: set<GroupLeaf>, c: nat, k: Key)
    requires LeafCovered(reg, a, xs, c, k) && xs <= ys && forall o :: o in a ==> o in b
    ensures LeafCovered(reg, b, ys, c, k)
  {}

  // ---------------------------------------------------------------------------------------------
  // Ranks from graphs

  /** The group parameters of constructor `n` have an order in the graph of `c`: `c` existed when it was provided. */
  ghost predicate GroupsKnown(reg: Registry, n: nat, c: nat) {
    n < |reg.ctors| && forall x :: x in ListGroupLeaves(reg.ctors[n].params) ==> Place(GroupNode(x.id), c) in reg.orders
  }

  /** A call edge is an edge, or two edges, of the graph: the rank of the caller is above that of the callee. */
  lemma CallFalls(reg: Registry, c: nat, rank: seq<nat>, n: nat, k: Key, m: nat)
    requires Tables(reg) && c < |reg.parents| && Ranks(GraphOf(reg, c), rank)
    requires CtorNode(n) in reg.nodes[c] && n < |reg.ctors| && GroupsKnown(reg, n, c)
    requires k in ListLeaves(reg.ctors[n].params) && m in reg.AllProviders(c, k)
    ensures Placed(reg, CtorNode(n), c) && Placed(reg, CtorNode(m), c)
    ensures rank[reg.Order(CtorNode(m), c)] < rank[reg.Order(CtorNode(n), c)]
  {
    var g := GraphOf(reg, c);
    CtorPlaced(reg, c, n);
    VisibleProviderPlaced(reg, c, k, m);
    var u, v := reg.Order(CtorNode(n), c), reg.Order(CtorNode(m), c);
    ListLeafCovered(reg, reg.ctors[n].params, c, k);
    assert g[u] == ListOrders(reg, reg.ctors[n].params, c);
    if v in g[u] {
      assert Edge(g, u, v);
    } else {
      var x :| x in ListGroupLeaves(reg.ctors[n].params) && x.key == k && reg.Order(GroupNode(x.id), c) in g[u];
      assert GroupOrdered(reg, x, c);
      var w := reg.Order(GroupNode(x.id), c);
      assert Edge(g, u, w);
      GroupNodeEdge(reg, c, x, m);
      assert Edge(g, w, v);
    }
  }

  lemma GroupNodeEdge(reg: Registry, c: nat, x: GroupLeaf, m: nat)
    requires NodesNumbered(reg) && c < |reg.nodes| && GroupOrdered(reg, x, c) && Place(GroupNode(x.id), c) in reg.orders
    requires m in reg.AllProviders(c, x.key)
    ensures reg.Order(CtorNode(m), c) in GraphOf(reg, c)[reg.Order(GroupNode(x.id), c)]
  {
    var ns := reg.AllProviders(c, x.key);
    var i :| 0 <= i < |ns| && ns[i] == m;
    assert CtorOrders(reg, ns, c)[i] == reg.Order(CtorNode(m), c);
  }

  lemma CtorPlaced(reg: Registry, c: nat, n: nat)
    requires CtorsOrdered(reg) && c < |reg.nodes| && CtorNode(n) in reg.nodes[c]
    ensures Placed(reg, CtorNode(n), c)
  {
    var i :| 0 <= i < |reg.nodes[c]| && reg.nodes[c][i] == CtorNode(n);
  }

  // ---------------------------------------------------------------------------------------------
  // The graph has a cycle exactly if the calls have one

  /** As seen from scope `c`, every constructor in its graph is above the providers of its parameters. */
  ghost predicate Falls(reg: Registry, c: nat, f: nat -> nat) {
    c < |reg.nodes| && forall n: nat, k, m ::
      (CtorNode(n) in reg.nodes[c] && n < |reg.ctors| && k in ListLeaves(reg.ctors[n].params) &&
       m in reg.AllProviders(c, k)) ==>
        f(m) < f(n)
  }

  /** The constructors in the graph of `c` have their group parameters in it. */
  ghost predicate AllGroupsKnown(reg: Registry, c: nat) {
    c < |reg.nodes| && forall n: nat :: CtorNode(n) in reg.nodes[c] && n < |reg.ctors| ==> GroupsKnown(reg, n, c)
  }

  /** An edge leads to a provider of a leaf, or to the node of a group leaf. */
  ghost predicate Explained(reg: Registry, c: nat, leaves: set<Key>, groups: set<GroupLeaf>, v: nat) {
    || (exists k, m :: k in leaves && m in reg.AllProviders(c, k) && v == reg.Order(CtorNode(m), c))
    || (exists x :: x in groups && x.key in leaves && v == reg.Order(GroupNode(x.id), c))
  }

  lemma ProviderExplains(reg: Registry, c: nat, k: Key, v: nat, leaves: set<Key>, groups: set<GroupLeaf>)
    requires v in CtorOrders(reg, reg.AllProviders(c, k), c) && k in leaves
    ensures Explained(reg, c, leaves, groups, v)
  {
    var ns := reg.AllProviders(c, k);
    var i :| 0 <= i < |ns| && v == CtorOrders(reg, ns, c)[i];
    assert ns[i] in ns;
  }

  lemma {:induction false} ParamExplained(reg: Registry, p: Param, c: nat, v: nat)
    requires v in ParamOrders(reg, p, c)
    ensures Explained(reg, c, Leaves(p), GroupLeaves(p), v)
    decreases p, 1
  {
    match p
    case SingleParam(k, _) => ProviderExplains(reg, c, k, v, Leaves(p), GroupLeaves(p));
    case GroupParam(id, elem, _, _) => assert GroupLeaf(id, elem) in GroupLeaves(p) && elem in Leaves(p);
    case ObjectParam(fields) => FieldExplained(reg, fields, c, v);
  }

  lemma {:induction false} FieldExplained(reg: Registry, fields: seq<ParamField>, c: nat, v: nat)
    requires v in FieldOrders(reg, fields, c)
    ensures Explained(reg, c, FieldLeaves(fields), FieldGroupLeaves(fields), v)
    decreases fields, 0
  {
    hide Explained;
    assert (fields[0] decreases to fields[0].param);
    if v in ParamOrders(reg, fields[0].param, c) {
      ParamExplained(reg, fields[0].param, c, v);
      ExplainedByMore(reg, c, Leaves(fields[0].param), GroupLeaves(fields[0].param), FieldLeaves(fields),
                      FieldGroupLeaves(fields), v);
    } else {
      FieldExplained(reg, fields[1..], c, v);
      ExplainedByMore(reg, c, FieldLeaves(fields[1..]), FieldGroupLeaves(fields[1..]), FieldLeaves(fields),
                      FieldGroupLeaves(fields), v);
    }
  }

  lemma {:induction false} ListExplained(reg: Registry, ps: seq<Param>, c: nat, v: nat)
    requires v in ListOrders(reg, ps, c)
    ensures Explained(reg, c, ListLeaves(ps), ListGroupLeaves(ps), v)
  {
    hide Explained;
    if v in ParamOrders(reg, ps[0], c) {
      ParamExplained(reg, ps[0], c, v);
      ExplainedByMore(reg, c, Leaves(ps[0]), GroupLeaves(ps[0]), ListLeaves(ps), ListGroupLeaves(ps), v);
    } else {
      ListExplained(reg, ps[1..], c, v);
      ExplainedByMore(reg, c, ListLeaves(ps[1..]), ListGroupLeaves(ps[1..]), ListLeaves(ps), ListGroupLeaves(ps), v);
    }
  }

  lemma ExplainedByMore(reg: Registry, c: nat, leaves: set<Key>, groups: set<GroupLeaf>,
          leaves': set<Key>, groups': set<GroupLeaf>, v: nat)
    requires Explained(reg, c, leaves, groups, v) && leaves <= leaves' && groups <= groups'
    ensures Explained(reg, c, leaves', groups', v)
  {
    hide Registry.AllProviders, Registry.Order;
  }

  /** Twice the highest rank among `ns`, and above it */
  ghost function AboveAll(f: nat -> nat, ns: seq<nat>): (top: nat)
    ensures forall n :: n in ns ==> 2 * f(n) + 1 < top
    ensures forall bound: nat :: (forall n :: n in ns ==> f(n) < bound) ==> top <= 2 * bound
  {
    if ns == [] then 0 else
      var rest := AboveAll(f, ns[1..]);
      assert ns[0] in ns && forall n :: n in ns[1..] ==> n in ns;
      if rest < 2 * f(ns[0]) + 2 then 2 * f(ns[0]) + 2 else rest
  }

  /** A group node is ranked between the providers of the group and the constructors that consume it. */
  ghost function NodeRank(reg: Registry, c: nat, f: nat -> nat, x: Node): nat {
    match x
    case CtorNode(n) => 2 * f(n) + 1
    case GroupNode(i) => if i < |reg.groupKeys| then AboveAll(f, reg.AllProviders(c, reg.groupKeys[i])) else 0
  }

  lemma EdgeFalls(reg: Registry, c: nat, f: nat -> nat, u: nat, v: nat)
    requires Tables(reg) && c < |reg.parents| && Falls(reg, c, f) && AllGroupsKnown(reg, c)
    requires u < |reg.nodes[c]| && v in EdgesOf(reg, reg.nodes[c][u], c)
    ensures v < |reg.nodes[c]| && NodeRank(reg, c, f, reg.nodes[c][v]) < NodeRank(reg, c, f, reg.nodes[c][u])
  {
    match reg.nodes[c][u]
    case GroupNode(i) =>
      var ns := reg.AllProviders(c, reg.groupKeys[i]);
      var j :| 0 <= j < |ns| && v == CtorOrders(reg, ns, c)[j];
      assert ns[j] in ns;
      VisibleProviderPlaced(reg, c, reg.groupKeys[i], ns[j]);
    case CtorNode(n) =>
      assert CtorNode(n) in reg.nodes[c];
      var ps := reg.ctors[n].params;
      ListExplained(reg, ps, c, v);
      if k, m :| k in ListLeaves(ps) && m in reg.AllProviders(c, k) && v == reg.Order(CtorNode(m), c) {
        VisibleProviderPlaced(reg, c, k, m);
      } else {
        var x :| x in ListGroupLeaves(ps) && x.key in ListLeaves(ps) && v == reg.Order(GroupNode(x.id), c);
        assert GroupsKnown(reg, n, c) && GroupOrdered(reg, x, c);
        assert forall m :: m in reg.AllProviders(c, x.key) ==> f(m) < f(n);
      }
  }

  lemma FallingIsAcyclic(reg: Registry, c: nat, f: nat -> nat)
    requires Tables(reg) && c < |reg.parents| && Falls(reg, c, f) && AllGroupsKnown(reg, c)
    ensures IsDag(GraphOf(reg, c))
  {
    hide Tables, Falls, AllGroupsKnown, NodeRank, EdgesOf;
    TablesFacts(reg);
    var g := GraphOf(reg, c);
    var rank := seq(|g|, u requires 0 <= u < |g| => NodeRank(reg, c, f, reg.nodes[c][u]));
    forall u: nat, v: nat | Edge(g, u, v) ensures v < |g| && rank[v] < rank[u] {
      assert v in EdgesOf(reg, reg.nodes[c][u], c);
      EdgeFalls(reg, c, f, u, v);
    }
    assert Ranks(g, rank);
  }

  lemma AcyclicFalls(reg: Registry, c: nat, rank: seq<nat>)
    requires Tables(reg) && c < |reg.parents| && Ranks(GraphOf(reg, c), rank) && AllGroupsKnown(reg, c)
    ensures Falls(reg, c, n => SeqAt(rank, reg.Order(CtorNode(n), c)))
  {
    hide Ranks, GraphOf, GroupsKnown, Tables;
    TablesFacts(reg);
    var f := n => SeqAt(rank, reg.Order(CtorNode(n), c));
    forall n: nat, k, m |
      CtorNode(n) in reg.nodes[c] && n < |reg.ctors| && k in ListLeaves(reg.ctors[n].params) &&
      m in reg.AllProviders(c, k)
      ensures f(m) < f(n)
    {
      CallFalls(reg, c, rank, n, k, m);
      RankedPlaces(reg, c, rank);
    }
  }

  lemma RankedPlaces(reg: Registry, c: nat, rank: seq<nat>)
    requires NodesNumbered(reg) && c < |reg.nodes| && Ranks(GraphOf(reg, c), rank)
    ensures |rank| == |reg.nodes[c]|
  {}

  /** Where no group parameter is older than the scope, the check reports a cycle exactly if the constructors in its
      graph cannot be ranked above the providers of their parameters. */
  lemma CheckIsExact(reg: Registry, c: nat)
    requires Tables(reg) && c < |reg.parents| && AllGroupsKnown(reg, c)
    ensures IsDag(GraphOf(reg, c)) <==> exists f :: Falls(reg, c, f)
  {
    hide Tables, Falls, AllGroupsKnown;
    TablesFacts(reg);
    if IsDag(GraphOf(reg, c)) { AcyclicFalls(reg, c, RankOf(GraphOf(reg, c))); }
    if f :| Falls(reg, c, f) { FallingIsAcyclic(reg, c, f); }
  }

  // ---------------------------------------------------------------------------------------------
  // One scope

  /** The constructors in the graph of `c` are not exported, and have their group parameters in it. */
  ghost predicate Tractable(reg: Registry, c: nat) {
    c < |reg.nodes| && forall n: nat :: CtorNode(n) in reg.nodes[c] && n < |reg.ctors| ==>
      reg.ctors[n].orig == reg.ctors[n].scope && GroupsKnown(reg, n, c)
  }

  ghost function RankOf(g: Graph): (rank: seq<nat>)
    requires IsDag(g)
    ensures Ranks(g, rank)
  {
    var rank :| Ranks(g, rank);
    rank
  }

  ghost function ScopeRank(reg: Registry, c: nat, rank: seq<nat>): map<nat, nat>
    requires c < |reg.nodes|
  {
    map n: nat | n < |reg.ctors| && CtorNode(n) in reg.nodes[c] :: SeqAt(rank, reg.Order(CtorNode(n), c))
  }

  function SeqAt(s: seq<nat>, i: nat): nat {
    if i < |s| then s[i] else 0
  }

  /** The registrations as seen from scope `c` and its ancestors */
  ghost function SeenFrom(world: World, reg: Registry, c: nat): Env
    requires Tables(reg) && c < |reg.parents| && IsDag(GraphOf(reg, c))
  {
    Env(world, reg, (set s | s in reg.PathToRoot(c)), ScopeRank(reg, c, RankOf(GraphOf(reg, c))), map[])
  }

  lemma UpwardsVisible(reg: Registry, c: nat, a: nat, k: Key, m: nat)
    requires a in reg.PathToRoot(c) && m in reg.AllProviders(a, k)
    ensures m in reg.AllProviders(c, k)
  {
    ProvidersOnMember(reg, reg.PathToRoot(a), k, m);
    ProvidersOnMember(reg, reg.PathToRoot(c), k, m);
    PathGoesUp(reg, c, a);
    var s :| s in reg.PathToRoot(a) && m in reg.Providers(s, k);
    assert s in reg.PathToRoot(c);
  }

  lemma SeenCallFalls(reg: Registry, c: nat, rank: seq<nat>, n: nat, k: Key, m: nat)
    requires Tables(reg) && c < |reg.parents| && Ranks(GraphOf(reg, c), rank)
    requires n < |reg.ctors| && CtorNode(n) in reg.nodes[c] && GroupsKnown(reg, n, c)
    requires reg.ctors[n].scope in reg.PathToRoot(c)
    requires k in ListLeaves(reg.ctors[n].params) && m in reg.AllProviders(reg.ctors[n].scope, k)
    ensures m in ScopeRank(reg, c, rank) && ScopeRank(reg, c, rank)[m] < ScopeRank(reg, c, rank)[n]
  {
    UpwardsVisible(reg, c, reg.ctors[n].scope, k, m);
    CallFalls(reg, c, rank, n, k, m);
    VisibleProviderPlaced(reg, c, k, m);
    assert CtorNode(m) in reg.nodes[c];
  }

  lemma SeenCtor(world: World, reg: Registry, c: nat, n: nat)
    requires Tables(reg) && c < |reg.parents| && IsDag(GraphOf(reg, c)) && n in SeenFrom(world, reg, c).rank
    ensures n < |reg.ctors| && CtorNode(n) in reg.nodes[c] && reg.ctors[n].scope in reg.PathToRoot(c)
    ensures reg.ctors[n].results.Valid()
  {
    hide CtorsOrdered, GroupsOrdered, ProvidersListed, ProvidersPlaced, ProvidersApart, OrdersScoped, GraphOf, IsDag;
    CtorListedFacts(reg, c, n);
  }

  lemma SeenCtorRanked(world: World, reg: Registry, c: nat, n: nat)
    requires Tables(reg) && c < |reg.parents| && IsDag(GraphOf(reg, c)) && Tractable(reg, c)
    requires n in SeenFrom(world, reg, c).rank
    ensures var e := SeenFrom(world, reg, c);
            && n < |reg.ctors| && reg.ctors[n].orig in e.scopes && reg.ctors[n].results.Valid()
            && e.Below(ListLeaves(reg.ctors[n].params), reg.ctors[n].orig, e.rank[n])
  {
    hide Tables, ScopeRank, GroupsKnown, Ranks, GraphOf, IsDag, Registry.PathToRoot, Registry.AllProviders;
    TablesFacts(reg);
    var e := SeenFrom(world, reg, c);
    SeenCtor(world, reg, c, n);
    forall k, m | k in ListLeaves(reg.ctors[n].params) && m in reg.AllProviders(reg.ctors[n].orig, k)
      ensures m in e.rank && e.rank[m] < e.rank[n]
    {
      SeenCallFalls(reg, c, RankOf(GraphOf(reg, c)), n, k, m);
    }
  }

  lemma CtorListedFacts(reg: Registry, c: nat, n: nat)
    requires CtorsListed(reg) && c < |reg.nodes| && CtorNode(n) in reg.nodes[c]
    ensures n < |reg.ctors| && Within(reg, reg.ctors[n].scope, c) && reg.ctors[n].results.Valid()
  {}

  /** Acyclicity of the invoked scope alone covers everything that can be reached from it: with no exported
      constructors and with its group parameters known to it, an Invoke from this scope terminates. */
  lemma AcyclicScopeCovers(world: World, reg: Registry, c: nat)
    requires Tables(reg) && DecoratorsListed(reg) && c < |reg.parents| && IsDag(GraphOf(reg, c)) && Tractable(reg, c)
    ensures SeenFrom(world, reg, c).Closed() && c in SeenFrom(world, reg, c).scopes
  {
    var e := SeenFrom(world, reg, c);
    forall s | s in e.scopes ensures s < |reg.parents| && forall a :: a in reg.PathToRoot(s) ==> a in e.scopes {
      PathGoesUp(reg, c, s);
    }
    forall s, k, n | s in e.scopes && n in reg.Providers(s, k) ensures n in e.rank {
      assert n in Listed(reg.providers, Slot(s, k)) && Within(reg, s, c);
      assert ListedOk(reg, Slot(s, k), n) && Placed(reg, CtorNode(n), c);
      assert CtorNode(n) in reg.nodes[c];
    }
    forall n | n in e.rank
      ensures n < |reg.ctors| && reg.ctors[n].orig in e.scopes && reg.ctors[n].results.Valid()
      ensures e.Below(ListLeaves(reg.ctors[n].params), reg.ctors[n].orig, e.rank[n])
    {
      SeenCtorRanked(world, reg, c, n);
    }
    assert reg.PathToRoot(c)[0] in reg.PathToRoot(c);
  }

  // ---------------------------------------------------------------------------------------------
  // All scopes at once, when no scope defers its check

  /** Constructor `n` has been provided and not undone. */
  ghost predicate Joined(reg: Registry, n: nat) {
    n < |reg.ctors| && reg.ctors[n].scope < |reg.nodes| && CtorNode(n) in reg.nodes[reg.ctors[n].scope]
  }

  /** No scope defers the check, and nothing is exported. */
  ghost predicate Default(reg: Registry) {
    && (forall c :: 0 <= c < |reg.deferred| ==> !reg.deferred[c])
    && (forall n: nat :: Joined(reg, n) ==> reg.ctors[n].orig == reg.ctors[n].scope)
  }

  /** A scope that has constructors of its own has been checked. */
  lemma JoinedScopeIsAcyclic(reg: Registry, n: nat)
    requires Inv(reg) && Default(reg) && Joined(reg, n)
    ensures IsDag(GraphOf(reg, reg.ctors[n].scope))
  {
    var c := reg.ctors[n].scope;
    var k :| k in KeysOfCtor(reg.ctors[n]);
    assert n in reg.Providers(c, k);
    assert Provides(reg, c, k);
  }

  ghost predicate Acyclic(reg: Registry, c: nat) {
    && c < |reg.nodes|
    && (forall i :: 0 <= i < |reg.nodes[c]| ==> Numbered(reg, reg.nodes[c][i]))
    && IsDag(GraphOf(reg, c))
  }

  /** The rank of `n` in the graph of its own scope */
  ghost function OwnRank(reg: Registry, n: nat): nat {
    if n < |reg.ctors| && Acyclic(reg, reg.ctors[n].scope)
    then SeqAt(RankOf(GraphOf(reg, reg.ctors[n].scope)), reg.Order(CtorNode(n), reg.ctors[n].scope))
    else 0
  }

  ghost function OwnRankBound(reg: Registry): (bound: nat)
    ensures forall n :: 0 <= n < |reg.ctors| ==> OwnRank(reg, n) < bound
  {
    var ranks := map n: nat | n < |reg.ctors| :: OwnRank(reg, n);
    assert forall n :: 0 <= n < |reg.ctors| ==> n in ranks.Keys && ranks[n] == OwnRank(reg, n);
    MaxValue(ranks, ranks.Keys) + 1
  }

  /** Ancestors first, and within a scope by the rank in its own graph */
  ghost function OverallRank(reg: Registry, n: nat): nat {
    (if n < |reg.ctors| then reg.ctors[n].scope else 0) * OwnRankBound(reg) + OwnRank(reg, n)
  }

  ghost function FirstScopes(n: nat): (r: set<nat>)
    ensures forall s: nat :: s in r <==> s < n
  {
    if n == 0 then {} else FirstScopes(n - 1) + {n - 1}
  }

  /** The registrations as seen from all scopes */
  ghost function SeenFromAll(world: World, reg: Registry): Env {
    Env(world, reg, FirstScopes(|reg.parents|),
        map n: nat | n < |reg.ctors| && Joined(reg, n) :: OverallRank(reg, n), map[])
  }

  lemma ListedIsJoined(reg: Registry, s: nat, k: Key, m: nat)
    requires Tables(reg) && m in reg.Providers(s, k)
    ensures Joined(reg, m) && reg.ctors[m].scope == s
  {
    assert m in Listed(reg.providers, Slot(s, k)) && ListedOk(reg, Slot(s, k), m);
    assert reg.PathToRoot(s)[0] in reg.PathToRoot(s);
    assert Within(reg, s, s) && Placed(reg, CtorNode(m), s);
  }

  lemma OverallRankFalls(reg: Registry, n: nat, k: Key, m: nat)
    requires Inv(reg) && Default(reg) && Joined(reg, n)
    requires k in ListLeaves(reg.ctors[n].params) && m in reg.AllProviders(reg.ctors[n].scope, k)
    ensures Joined(reg, m) && OverallRank(reg, m) < OverallRank(reg, n)
  {
    hide Tables, FlagsSound, OwnRank, OwnRankBound, Default;
    var c := reg.ctors[n].scope;
    ProvidersOnMember(reg, reg.PathToRoot(c), k, m);
    var b :| b in reg.PathToRoot(c) && m in reg.Providers(b, k);
    PathGoesUp(reg, c, b);
    ListedIsJoined(reg, b, k, m);
    if b < c {
      LowerScopeRanksLower(b, c, OwnRankBound(reg), OwnRank(reg, m), OwnRank(reg, n));
    } else {
      OwnRankFalls(reg, n, k, m);
    }
  }

  lemma LowerScopeRanksLower(b: nat, c: nat, bound: nat, x: nat, y: nat)
    requires b < c && x < bound
    ensures b * bound + x < c * bound + y
  {
    MulMonotone(b + 1, c, bound);
  }

  lemma MulMonotone(a: nat, b: nat, x: nat)
    requires a <= b
    ensures a * x <= b * x
  {}

  lemma OwnRankFalls(reg: Registry, n: nat, k: Key, m: nat)
    requires Inv(reg) && Default(reg) && Joined(reg, n) && Joined(reg, m) && reg.ctors[m].scope == reg.ctors[n].scope
    requires k in ListLeaves(reg.ctors[n].params) && m in reg.AllProviders(reg.ctors[n].scope, k)
    ensures OwnRank(reg, m) < OwnRank(reg, n)
  {
    var c := reg.ctors[n].scope;
    assert GroupsKnown(reg, n, c);
    JoinedScopeIsAcyclic(reg, n);
    InvFacts(reg);
    hide Tables, FlagsSound, GroupsKnown;
    CallFalls(reg, c, RankOf(GraphOf(reg, c)), n, k, m);
  }

  /** Where no scope defers the check and nothing is exported, an Invoke from any scope terminates. */
  lemma DefaultCoversAllScopes(world: World, reg: Registry)
    requires Good(reg) && Default(reg)
    ensures SeenFromAll(world, reg).Closed()
    ensures forall c :: 0 <= c < |reg.parents| ==> c in SeenFromAll(world, reg).scopes
  {
    hide OverallRank, Inv, Tables;
    InvFacts(reg);
    var e := SeenFromAll(world, reg);
    forall s | s in e.scopes ensures s < |reg.parents| && forall a :: a in reg.PathToRoot(s) ==> a in e.scopes {
      forall a | a in reg.PathToRoot(s) ensures a in e.scopes { PathGoesUp(reg, s, a); }
    }
    forall s, k, n | s in e.scopes && n in reg.Providers(s, k) ensures n in e.rank { ListedIsJoined(reg, s, k, n); }
    forall n | n in e.rank
      ensures n < |reg.ctors| && reg.ctors[n].orig in e.scopes && reg.ctors[n].results.Valid()
      ensures e.Below(ListLeaves(reg.ctors[n].params), reg.ctors[n].orig, e.rank[n])
    {
      JoinedFacts(reg, n);
      forall k, m | k in ListLeaves(reg.ctors[n].params) && m in reg.AllProviders(reg.ctors[n].orig, k)
        ensures m in e.rank && e.rank[m] < e.rank[n]
      {
        OverallRankFalls(reg, n, k, m);
      }
    }
  }

  lemma JoinedFacts(reg: Registry, n: nat)
    requires Tables(reg) && Default(reg) && Joined(reg, n)
    ensures reg.ctors[n].orig == reg.ctors[n].scope < |reg.parents| && reg.ctors[n].results.Valid()
  {
    CtorListedFacts(reg, reg.ctors[n].scope, n);
  }
}
