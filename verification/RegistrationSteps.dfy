/** The registration steps, and the proof that each keeps the invariant. */
module RegistrationSteps {
  import opened Values
  import opened ResultTree
  import opened Registry
  import opened Registration
  import opened RegistrationInvariant
  import opened Digraph

  // ---------------------------------------------------------------------------------------------
  // Group parameters of an Invoke or a Decorate: new nodes that nothing depends on

  lemma GrownView(reg: Registry, reg': Registry, s: nat, c: nat)
    requires Grown(reg, reg', s)
    ensures SameView(reg, reg', c) && NumberingKept(reg, reg', c)
  {
    ExtendedIsKept(reg, reg', c);
  }

  lemma GrownNumbered(reg: Registry, reg': Registry, s: nat)
    requires Grown(reg, reg', s) && NodesNumbered(reg)
    ensures NodesNumbered(reg')
  {
    forall c, i | 0 <= c < |reg'.nodes| && 0 <= i < |reg'.nodes[c]| ensures Numbered(reg', reg'.nodes[c][i]) {
      if i < |reg.nodes[c]| {
        assert reg'.nodes[c][i] == reg.nodes[c][i];
        NumberedStays(reg, reg', reg.nodes[c][i]);
      }
    }
  }

  /** A node that stood in its place still does. */
  lemma PlacedStays(reg: Registry, reg': Registry, s: nat, x: Node, c: nat)
    requires Grown(reg, reg', s) && Placed(reg, x, c) && Numbered(reg, x)
    ensures Placed(reg', x, c)
  {
    assert Numbered(reg, Place(x, c).node);
    assert reg.nodes[c] <= reg'.nodes[c];
  }

  lemma GrownCtorsOrdered(reg: Registry, reg': Registry, s: nat)
    requires Grown(reg, reg', s) && NodesNumbered(reg) && CtorsOrdered(reg)
    ensures CtorsOrdered(reg')
  {
    forall c, i | 0 <= c < |reg'.nodes| && 0 <= i < |reg'.nodes[c]| && reg'.nodes[c][i].CtorNode?
      ensures Place(reg'.nodes[c][i], c) in reg'.orders && reg'.orders[Place(reg'.nodes[c][i], c)] == i
    {
      if i < |reg.nodes[c]| {
        assert reg'.nodes[c][i] == reg.nodes[c][i];
        assert Numbered(reg, Place(reg.nodes[c][i], c).node);
      }
    }
  }

  /** The group parameters of the constructors that were there */
  lemma GrownGroupOrdered(reg: Registry, reg': Registry, s: nat, c: nat, n: nat, x: GroupLeaf)
    requires Grown(reg, reg', s) && GroupsOrdered(reg)
    requires c < |reg.nodes| && CtorNode(n) in reg.nodes[c] && n < |reg.ctors|
    requires x in ListGroupLeaves(reg.ctors[n].params)
    ensures GroupOrdered(reg', x, c) && (c == reg.ctors[n].scope ==> Place(GroupNode(x.id), c) in reg'.orders)
  {
    assert GroupOrdered(reg, x, c);
    assert Numbered(reg, Place(GroupNode(x.id), c).node);
    if Place(GroupNode(x.id), c) in reg.orders { PlacedStays(reg, reg', s, GroupNode(x.id), c); }
  }

  lemma GrownProvidersPlaced(reg: Registry, reg': Registry, s: nat)
    requires Grown(reg, reg', s) && ProvidersListed(reg) && ProvidersPlaced(reg)
    ensures ProvidersPlaced(reg')
  {
    forall slot, n, c | n in Listed(reg'.providers, slot) && Within(reg', slot.scope, c)
      ensures Placed(reg', CtorNode(n), c)
    {
      assert ListedOk(reg, slot, n) && Within(reg, slot.scope, c);
      PlacedStays(reg, reg', s, CtorNode(n), c);
    }
  }

  lemma GroupGrowthKeepsTables(reg: Registry, reg': Registry, s: nat)
    requires Grown(reg, reg', s) && reg'.ctors == reg.ctors && Tables(reg)
    ensures Tables(reg')
  {
    hide CtorsOrdered, GroupsOrdered, ProvidersListed, ProvidersPlaced, CtorsListed;
    GrownNumbered(reg, reg', s);
    GrownCtorsOrdered(reg, reg', s);
    GrownProvidersPlaced(reg, reg', s);
    GroupGrowthKeepsGroups(reg, reg', s);
    GroupGrowthKeepsLists(reg, reg', s);
  }

  lemma GroupGrowthKeepsGroups(reg: Registry, reg': Registry, s: nat)
    requires Grown(reg, reg', s) && reg'.ctors == reg.ctors && NodesNumbered(reg) && GroupsOrdered(reg)
    ensures GroupsOrdered(reg')
  {
    forall c, n: nat, x |
      0 <= c < |reg'.nodes| && CtorNode(n) in reg'.nodes[c] && n < |reg'.ctors| &&
      x in ListGroupLeaves(reg'.ctors[n].params)
      ensures GroupOrdered(reg', x, c) && (c == reg'.ctors[n].scope ==> Place(GroupNode(x.id), c) in reg'.orders)
    {
      OnlyGroupsAdded(reg, reg', s, c, n);
      GrownGroupOrdered(reg, reg', s, c, n, x);
    }
  }

  lemma GroupGrowthKeepsLists(reg: Registry, reg': Registry, s: nat)
    requires Grown(reg, reg', s) && reg'.ctors == reg.ctors && NodesNumbered(reg)
    requires ProvidersListed(reg) && CtorsListed(reg) && ProvidersApart(reg)
    ensures ProvidersListed(reg') && CtorsListed(reg') && ProvidersApart(reg')
  {
    forall c, n: nat | 0 <= c < |reg'.nodes| && CtorNode(n) in reg'.nodes[c] ensures CtorNode(n) in reg.nodes[c] {
      OnlyGroupsAdded(reg, reg', s, c, n);
    }
    forall slot, n | n in Listed(reg'.providers, slot)
      ensures ListedOk(reg', slot, n)
    {
      assert ListedOk(reg, slot, n);
    }
  }

  lemma OnlyGroupsAdded(reg: Registry, reg': Registry, s: nat, c: nat, n: nat)
    requires Grown(reg, reg', s) && reg'.ctors == reg.ctors && NodesNumbered(reg) && c < |reg'.nodes|
    requires CtorNode(n) in reg'.nodes[c]
    ensures CtorNode(n) in reg.nodes[c] && n < |reg.ctors|
  {
    var i :| 0 <= i < |reg'.nodes[c]| && reg'.nodes[c][i] == CtorNode(n);
    if i < |reg.nodes[c]| {
      assert reg.nodes[c][i] == CtorNode(n);
      assert Numbered(reg, reg.nodes[c][i]);
    }
  }

  lemma GroupGrowthKeepsDag(reg: Registry, reg': Registry, s: nat, c: nat)
    requires Grown(reg, reg', s) && reg'.ctors == reg.ctors && Tables(reg) && NodesNumbered(reg')
    requires c < |reg.nodes| && IsDag(GraphOf(reg, c))
    ensures IsDag(GraphOf(reg', c))
  {
    GrownView(reg, reg', s, c);
    GraphKept(reg, reg', c);
    var g, g' := GraphOf(reg, c), GraphOf(reg', c);
    forall u, v | |g| <= u < |g'| && v in g'[u] ensures v < |g| {
      NewGroupEdge(reg, reg', s, c, u, v);
    }
    DagExtended(g, g');
  }

  /** A new group node depends on constructors that were there before. */
  lemma NewGroupEdge(reg: Registry, reg': Registry, s: nat, c: nat, u: nat, v: nat)
    requires Grown(reg, reg', s) && reg'.ctors == reg.ctors && Tables(reg) && NodesNumbered(reg') && c < |reg.nodes|
    requires |reg.nodes[c]| <= u < |reg'.nodes[c]| && v in GraphOf(reg', c)[u]
    ensures v < |reg.nodes[c]|
  {
    var x := reg'.nodes[c][u];
    assert !Numbered(reg, x) && Numbered(reg', x);
    var k := reg'.groupKeys[x.id];
    GrownView(reg, reg', s, c);
    ProvidersOnSame(reg, reg', reg.PathToRoot(c), k);
    var ns := reg.AllProviders(c, k);
    var i :| 0 <= i < |ns| && CtorOrders(reg', ns, c)[i] == v;
    VisibleProviderPlaced(reg, c, k, ns[i]);
    assert Numbered(reg, Place(CtorNode(ns[i]), c).node);
  }

  /** Adding group nodes keeps the invariant, whatever becomes of the function that needed them. */
  lemma GroupGrowthKeepsInv(reg: Registry, reg': Registry, s: nat)
    requires Grown(reg, reg', s) && reg'.ctors == reg.ctors && Inv(reg)
    ensures Inv(reg')
  {
    hide Grown, Tables;
    GroupGrowthKeepsTables(reg, reg', s);
    TablesFacts(reg);
    TablesFacts(reg');
    GrownFields(reg, reg', s);
    forall c | 0 <= c < |reg'.nodes| && (reg'.verified[c] || (!reg'.deferred[c] && exists k :: Provides(reg', c, k)))
      ensures IsDag(GraphOf(reg', c))
    {
      if !reg'.verified[c] {
        var k :| Provides(reg', c, k);
        assert Provides(reg, c, k);
      }
      GroupGrowthKeepsDag(reg, reg', s, c);
    }
  }

  lemma TablesFacts(reg: Registry)
    requires Tables(reg)
    ensures TreeOk(reg) && NodesNumbered(reg)
  {}

  lemma GrownFields(reg: Registry, reg': Registry, s: nat)
    requires Grown(reg, reg', s)
    ensures reg'.verified == reg.verified && reg'.deferred == reg.deferred && |reg'.nodes| == |reg.nodes|
    ensures reg'.providers == reg.providers && reg'.parents == reg.parents && reg'.snaps == reg.snaps
    ensures reg'.children == reg.children && reg'.decorators == reg.decorators && reg'.decos == reg.decos
  {}

  // ---------------------------------------------------------------------------------------------
  // Undone registrations: numbers that were given out stay, and nothing else

  /** `reg'` has the graphs and lists of `reg`; flags may have been cleared, and numbers given out in vain. */
  ghost predicate Undone(reg: Registry, reg': Registry) {
    && reg' == reg.(verified := reg'.verified, snaps := reg'.snaps, orders := reg'.orders, groupKeys := reg'.groupKeys,
                    ctors := reg'.ctors, providers := reg'.providers)
    && NumberingExtended(reg, reg')
    && |reg'.verified| == |reg.verified| && |reg'.snaps| == |reg.snaps|
    && (forall slot :: Listed(reg'.providers, slot) == Listed(reg.providers, slot))
    && (forall c :: 0 <= c < |reg.verified| ==> reg'.verified[c] ==> reg.verified[c])
  }

  lemma UndoneKeepsNodes(reg: Registry, reg': Registry)
    requires Undone(reg, reg') && NodesNumbered(reg) && CtorsOrdered(reg)
    ensures NodesNumbered(reg') && CtorsOrdered(reg')
  {
    forall c, i | 0 <= c < |reg.nodes| && 0 <= i < |reg.nodes[c]|
      ensures Numbered(reg', reg.nodes[c][i])
      ensures reg.nodes[c][i].CtorNode? ==>
              Place(reg.nodes[c][i], c) in reg'.orders && reg'.orders[Place(reg.nodes[c][i], c)] == i
    {
      NumberedStays(reg, reg', reg.nodes[c][i]);
      assert Numbered(reg, Place(reg.nodes[c][i], c).node);
    }
  }

  lemma UndoneKeepsPlaced(reg: Registry, reg': Registry, x: Node, c: nat)
    requires Undone(reg, reg') && Numbered(reg, x)
    ensures Placed(reg', x, c) <==> Placed(reg, x, c)
    ensures Place(x, c) in reg'.orders <==> Place(x, c) in reg.orders
  {
    assert Numbered(reg, Place(x, c).node);
  }

  lemma UndoneKeepsGroups(reg: Registry, reg': Registry)
    requires Undone(reg, reg') && NodesNumbered(reg) && GroupsOrdered(reg)
    ensures GroupsOrdered(reg')
  {
    forall c, n: nat, x |
      0 <= c < |reg'.nodes| && CtorNode(n) in reg'.nodes[c] && n < |reg'.ctors| &&
      x in ListGroupLeaves(reg'.ctors[n].params)
      ensures GroupOrdered(reg', x, c) && (c == reg'.ctors[n].scope ==> Place(GroupNode(x.id), c) in reg'.orders)
    {
      NodeNumbered(reg, c, CtorNode(n));
      assert GroupOrdered(reg, x, c);
      UndoneKeepsPlaced(reg, reg', GroupNode(x.id), c);
    }
  }

  lemma NodeNumbered(reg: Registry, c: nat, x: Node)
    requires NodesNumbered(reg) && c < |reg.nodes| && x in reg.nodes[c]
    ensures Numbered(reg, x)
  {
    var i :| 0 <= i < |reg.nodes[c]| && reg.nodes[c][i] == x;
    assert Numbered(reg, reg.nodes[c][i]);
  }

  lemma UndoneListing(reg: Registry, reg': Registry, slot: Slot, n: nat)
    requires Undone(reg, reg') && ProvidersListed(reg) && n in Listed(reg'.providers, slot)
    ensures n in Listed(reg.providers, slot) && n < |reg.ctors| && reg'.ctors[n] == reg.ctors[n]
    ensures ListedOk(reg', slot, n)
  {
    hide KeysOfCtor;
    assert ListedOk(reg, slot, n);
  }

  lemma UndoneKeepsListed(reg: Registry, reg': Registry)
    requires Undone(reg, reg') && ProvidersListed(reg)
    ensures ProvidersListed(reg')
  {
    hide Undone, ListedOk;
    forall slot, n | n in Listed(reg'.providers, slot)
      ensures ListedOk(reg', slot, n)
    {
      UndoneListing(reg, reg', slot, n);
    }
  }

  lemma UndoneKeepsProvidersPlaced(reg: Registry, reg': Registry)
    requires Undone(reg, reg') && ProvidersListed(reg) && ProvidersPlaced(reg)
    ensures ProvidersPlaced(reg')
  {
    hide KeysOfCtor;
    forall slot, n, c | n in Listed(reg'.providers, slot) && Within(reg', slot.scope, c)
      ensures Placed(reg', CtorNode(n), c)
    {
      assert ListedOk(reg, slot, n) && Within(reg, slot.scope, c);
      UndoneKeepsPlaced(reg, reg', CtorNode(n), c);
    }
  }

  lemma UndoneKeepsCtors(reg: Registry, reg': Registry)
    requires Undone(reg, reg') && NodesNumbered(reg) && CtorsListed(reg)
    ensures CtorsListed(reg')
  {
    hide KeysOfCtor, NodesNumbered;
    forall c, n: nat | 0 <= c < |reg'.nodes| && CtorNode(n) in reg'.nodes[c]
      ensures n < |reg'.ctors| && Within(reg', reg'.ctors[n].scope, c)
      ensures reg'.ctors[n].results.Valid() && KeysOfCtor(reg'.ctors[n]) != {}
      ensures forall k :: k in KeysOfCtor(reg'.ctors[n]) ==> n in reg'.Providers(reg'.ctors[n].scope, k)
    {
      assert CtorNode(n) in reg.nodes[c];
      forall k | k in KeysOfCtor(reg'.ctors[n]) ensures n in reg'.Providers(reg'.ctors[n].scope, k) {
        var slot := Slot(reg.ctors[n].scope, k);
        assert Listed(reg'.providers, slot) == Listed(reg.providers, slot);
      }
    }
  }

  lemma UndoneKeepsApart(reg: Registry, reg': Registry)
    requires Undone(reg, reg') && ProvidersListed(reg) && ProvidersApart(reg)
    ensures ProvidersApart(reg')
  {
    hide SingleKeysOfCtor, ProvidersListed;
    forall slot, n | n in Listed(reg'.providers, slot) && SingleFor(reg', slot.key, n)
      ensures n in Listed(reg.providers, slot) && SingleFor(reg, slot.key, n)
    {
      UndoneListing(reg, reg', slot, n);
    }
  }

  lemma UndoneKeepsLists(reg: Registry, reg': Registry)
    requires Undone(reg, reg') && NodesNumbered(reg)
    requires ProvidersListed(reg) && ProvidersPlaced(reg) && CtorsListed(reg) && ProvidersApart(reg)
    ensures ProvidersListed(reg') && ProvidersPlaced(reg') && CtorsListed(reg') && ProvidersApart(reg')
  {
    hide Undone, NodesNumbered, ProvidersListed, ProvidersPlaced, CtorsListed, ProvidersApart;
    UndoneKeepsListed(reg, reg');
    UndoneKeepsProvidersPlaced(reg, reg');
    UndoneKeepsCtors(reg, reg');
    UndoneKeepsApart(reg, reg');
  }

  lemma UndoneKeepsTables(reg: Registry, reg': Registry)
    requires Undone(reg, reg') && Tables(reg)
    ensures Tables(reg')
  {
    hide CtorsOrdered, GroupsOrdered, ProvidersListed, ProvidersPlaced, CtorsListed, ProvidersApart, NodesNumbered;
    UndoneKeepsNodes(reg, reg');
    UndoneKeepsGroups(reg, reg');
    UndoneKeepsLists(reg, reg');
  }

  lemma UndoneKeepsGraph(reg: Registry, reg': Registry, c: nat)
    requires Undone(reg, reg') && Tables(reg) && NodesNumbered(reg') && c < |reg.nodes|
    ensures GraphOf(reg', c) == GraphOf(reg, c)
  {
    forall s, k ensures reg'.Providers(s, k) == reg.Providers(s, k) {
      assert Listed(reg'.providers, Slot(s, k)) == Listed(reg.providers, Slot(s, k));
    }
    ExtendedIsKept(reg, reg', c);
    GraphKept(reg, reg', c);
  }

  lemma UndoneKeepsInv(reg: Registry, reg': Registry)
    requires Undone(reg, reg') && Inv(reg)
    ensures Inv(reg')
  {
    UndoneKeepsTables(reg, reg');
    hide Tables;
    TablesFacts(reg);
    TablesFacts(reg');
    forall c | 0 <= c < |reg'.nodes| && (reg'.verified[c] || (!reg'.deferred[c] && exists k :: Provides(reg', c, k)))
      ensures IsDag(GraphOf(reg', c))
    {
      UndoneKeepsGraph(reg, reg', c);
      if !reg'.verified[c] {
        var k :| Provides(reg', c, k);
        assert Listed(reg'.providers, Slot(c, k)) == Listed(reg.providers, Slot(c, k));
        assert Provides(reg, c, k);
      }
    }
  }

  // ---------------------------------------------------------------------------------------------
  // A constructor that is listed

  /** The group parameters of `ps` have been numbered between `reg` and `reg'`. */
  ghost predicate GroupsFresh(reg: Registry, reg': Registry, leaves: set<GroupLeaf>) {
    forall x :: x in leaves ==> |reg.groupKeys| <= x.id < |reg'.groupKeys| && reg'.groupKeys[x.id] == x.key
  }

  lemma {:induction false} NewParamFresh(reg: Registry, s: nat, spec: ParamSpec)
    requires |reg.nodes| == |reg.parents| && NewParam(reg, s, spec).0.Some?
    ensures GroupsFresh(reg, NewParam(reg, s, spec).1, GroupLeaves(NewParam(reg, s, spec).0.value))
    decreases spec, 1
  {
    match spec
    case SingleSpec(_, _) =>
    case GroupSpec(_, _, _) =>
    case ObjectSpec(fields) => NewFieldsFresh(reg, s, fields);
  }

  lemma {:induction false} NewFieldsFresh(reg: Registry, s: nat, fields: seq<FieldSpec>)
    requires |reg.nodes| == |reg.parents| && NewFields(reg, s, fields).0.Some?
    ensures GroupsFresh(reg, NewFields(reg, s, fields).1, FieldGroupLeaves(NewFields(reg, s, fields).0.value))
    decreases fields, 0
  {
    if fields != [] {
      assert (fields[0] decreases to fields[0].spec);
      var (p, reg1) := NewParam(reg, s, fields[0].spec);
      var (fs, reg2) := NewFields(reg1, s, fields[1..]);
      NewParamFresh(reg, s, fields[0].spec);
      NewFieldsFresh(reg1, s, fields[1..]);
      NewParamGrows(reg, s, fields[0].spec);
      NewFieldsGrow(reg1, s, fields[1..]);
      var all := [ParamField(fields[0].index, p.value)] + fs.value;
      assert all[1..] == fs.value;
      FreshUnion(reg, reg1, reg2, GroupLeaves(p.value), FieldGroupLeaves(fs.value));
    }
  }

  lemma FreshUnion(a: Registry, b: Registry, c: Registry, xs: set<GroupLeaf>, ys: set<GroupLeaf>)
    requires GroupsFresh(a, b, xs) && GroupsFresh(b, c, ys) && a.groupKeys <= b.groupKeys && b.groupKeys <= c.groupKeys
    ensures GroupsFresh(a, c, xs + ys)
  {}

  lemma {:induction false} NewParamsFresh(reg: Registry, s: nat, specs: seq<ParamSpec>)
    requires |reg.nodes| == |reg.parents| && NewParams(reg, s, specs).0.Some?
    ensures GroupsFresh(reg, NewParams(reg, s, specs).1, ListGroupLeaves(NewParams(reg, s, specs).0.value))
    decreases |specs|
  {
    if specs != [] {
      var (p, reg1) := NewParam(reg, s, specs[0]);
      var (ps, reg2) := NewParams(reg1, s, specs[1..]);
      NewParamFresh(reg, s, specs[0]);
      NewParamsFresh(reg1, s, specs[1..]);
      NewParamGrows(reg, s, specs[0]);
      NewParamsGrow(reg1, s, specs[1..]);
      assert ([p.value] + ps.value)[1..] == ps.value;
      FreshUnion(reg, reg1, reg2, GroupLeaves(p.value), ListGroupLeaves(ps.value));
    }
  }

  /** `reg'` is `reg` with one more constructor, with its place in the graphs of its scope and below, that may be
      listed there. */
  ghost predicate CtorJoins(reg: Registry, reg': Registry, ctor: Ctor) {
    && Grown(reg, reg', ctor.scope)
    && reg'.ctors == reg.ctors + [ctor]
    && ctor.scope < |reg.parents|
    && ctor.results.Valid()
    && KeysOfCtor(ctor) != {}
    && GroupsFresh(reg, reg', ListGroupLeaves(ctor.params))
    && Acceptable(reg, ctor.scope, ListEntries(ctor.results.results))
  }

  /** List, slot by slot */
  ghost predicate IsListed(reg: Registry, reg': Registry, ctor: Ctor, n: nat) {
    && reg' == reg.(providers := reg'.providers)
    && forall slot :: Listed(reg'.providers, slot)
                   == if slot.scope == ctor.scope && slot.key in KeysOfCtor(ctor) then Listed(reg.providers, slot) + [n]
                      else Listed(reg.providers, slot)
  }

  lemma ListLists(reg: Registry, ctor: Ctor, n: nat)
    ensures IsListed(reg, List(reg, ctor.scope, KeysOfCtor(ctor), n), ctor, n)
  {
    var reg' := List(reg, ctor.scope, KeysOfCtor(ctor), n);
    forall slot: Slot ensures Listed(reg'.providers, slot)
                   == if slot.scope == ctor.scope && slot.key in KeysOfCtor(ctor) then Listed(reg.providers, slot) + [n]
                      else Listed(reg.providers, slot)
    {
      if slot.scope == ctor.scope && slot.key in KeysOfCtor(ctor) { assert slot == Slot(ctor.scope, slot.key); }
    }
  }

  lemma NewCtorNode(reg: Registry, reg': Registry, ctor: Ctor, c: nat, n: nat)
    requires CtorJoins(reg, reg', ctor) && NodesNumbered(reg) && c < |reg'.nodes| && CtorNode(n) in reg'.nodes[c]
    ensures n < |reg'.ctors|
    ensures n < |reg.ctors| ==> CtorNode(n) in reg.nodes[c]
    ensures n == |reg.ctors| ==> Within(reg, ctor.scope, c)
  {
    var i :| 0 <= i < |reg'.nodes[c]| && reg'.nodes[c][i] == CtorNode(n);
    if i < |reg.nodes[c]| {
      assert reg.nodes[c][i] == CtorNode(n);
      assert Numbered(reg, reg.nodes[c][i]);
    }
  }

  lemma JoinKeepsGroups(reg: Registry, reg': Registry, ctor: Ctor)
    requires CtorJoins(reg, reg', ctor) && NodesNumbered(reg) && GroupsOrdered(reg) && |reg.nodes| == |reg.parents|
    ensures GroupsOrdered(reg')
  {
    forall c, n: nat, x |
      0 <= c < |reg'.nodes| && CtorNode(n) in reg'.nodes[c] && n < |reg'.ctors| &&
      x in ListGroupLeaves(reg'.ctors[n].params)
      ensures GroupOrdered(reg', x, c) && (c == reg'.ctors[n].scope ==> Place(GroupNode(x.id), c) in reg'.orders)
    {
      NewCtorNode(reg, reg', ctor, c, n);
      if n < |reg.ctors| {
        GrownGroupOrdered(reg, reg', ctor.scope, c, n, x);
      } else {
        assert !Numbered(reg, GroupNode(x.id)) && Numbered(reg', GroupNode(x.id));
        assert Placed(reg', GroupNode(x.id), c);
      }
    }
  }

  lemma JoinKeepsPlaced(reg: Registry, reg': Registry, reg'': Registry, ctor: Ctor)
    requires CtorJoins(reg, reg', ctor) && IsListed(reg', reg'', ctor, |reg.ctors|)
    requires ProvidersListed(reg) && ProvidersPlaced(reg)
    ensures ProvidersListed(reg'') && ProvidersPlaced(reg'')
  {
    forall slot, n | n in Listed(reg''.providers, slot) ensures ListedOk(reg'', slot, n) {
      if n in Listed(reg.providers, slot) { assert ListedOk(reg, slot, n); }
    }
    forall slot, n, c | n in Listed(reg''.providers, slot) && Within(reg'', slot.scope, c)
      ensures Placed(reg'', CtorNode(n), c)
    {
      assert Within(reg, slot.scope, c);
      if n in Listed(reg.providers, slot) {
        assert ListedOk(reg, slot, n);
        PlacedStays(reg, reg', ctor.scope, CtorNode(n), c);
      } else {
        assert n == |reg.ctors| && !Numbered(reg, CtorNode(n)) && Numbered(reg', CtorNode(n));
      }
      assert Placed(reg', CtorNode(n), c);
    }
  }

  lemma JoinKeepsListed(reg: Registry, reg': Registry, reg'': Registry, ctor: Ctor)
    requires CtorJoins(reg, reg', ctor) && IsListed(reg', reg'', ctor, |reg.ctors|)
    requires NodesNumbered(reg) && CtorsListed(reg)
    ensures CtorsListed(reg'')
  {
    forall c, n: nat | 0 <= c < |reg''.nodes| && CtorNode(n) in reg''.nodes[c]
      ensures n < |reg''.ctors| && Within(reg'', reg''.ctors[n].scope, c)
      ensures reg''.ctors[n].results.Valid() && KeysOfCtor(reg''.ctors[n]) != {}
      ensures forall k :: k in KeysOfCtor(reg''.ctors[n]) ==> n in reg''.Providers(reg''.ctors[n].scope, k)
    {
      NewCtorNode(reg, reg', ctor, c, n);
      forall k | k in KeysOfCtor(reg''.ctors[n]) ensures n in reg''.Providers(reg''.ctors[n].scope, k) {
        assert reg''.Providers(reg''.ctors[n].scope, k) == Listed(reg''.providers, Slot(reg''.ctors[n].scope, k));
        if n < |reg.ctors| {
          assert n in reg.Providers(reg.ctors[n].scope, k);
        }
      }
    }
  }

  lemma SingleKeyIsAccepted(reg: Registry, s: nat, es: seq<Entry>, k: Key)
    requires Acceptable(reg, s, es) && k in SingleKeysOf(es)
    ensures !Provides(reg, s, k)
  {
    var x :| x in es && x.single && x.key == k;
    var i :| 0 <= i < |es| && es[i] == x;
  }

  lemma DistinctSnoc(s: seq<nat>, x: nat)
    requires Distinct(s) && x !in s
    ensures Distinct(s + [x])
  {}

  lemma JoinKeepsDistinct(reg: Registry, reg': Registry, reg'': Registry, ctor: Ctor, slot: Slot)
    requires CtorJoins(reg, reg', ctor) && IsListed(reg', reg'', ctor, |reg.ctors|)
    requires ProvidersListed(reg) && ProvidersApart(reg)
    ensures Distinct(Listed(reg''.providers, slot))
  {
    hide KeysOfCtor, Acceptable, GroupsFresh;
    NumberIsFree(reg, slot);
    DistinctSnoc(Listed(reg.providers, slot), |reg.ctors|);
  }

  lemma NumberIsFree(reg: Registry, slot: Slot)
    requires ProvidersListed(reg)
    ensures |reg.ctors| !in Listed(reg.providers, slot)
  {
    assert forall n :: n in Listed(reg.providers, slot) ==> ListedOk(reg, slot, n);
  }

  /** Where the newcomer is listed for a single key of its own, it is alone. */
  lemma NewcomerIsAlone(reg: Registry, reg': Registry, reg'': Registry, ctor: Ctor, slot: Slot)
    requires CtorJoins(reg, reg', ctor) && IsListed(reg', reg'', ctor, |reg.ctors|) && ProvidersListed(reg)
    requires |reg.ctors| in Listed(reg''.providers, slot) && SingleFor(reg'', slot.key, |reg.ctors|)
    ensures Listed(reg''.providers, slot) == [|reg.ctors|]
  {
    hide KeysOfCtor, Acceptable, GroupsFresh, SingleKeysOf, NoConflict;
    var new_ := |reg.ctors|;
    assert new_ !in Listed(reg.providers, slot) by { NumberIsFree(reg, slot); }
    SingleKeyIsAccepted(reg, ctor.scope, ListEntries(ctor.results.results), slot.key);
    assert Listed(reg.providers, slot) == reg.Providers(slot.scope, slot.key);
  }

  /** A constructor that was listed before is listed where it was. */
  lemma OthersStayListed(reg: Registry, reg': Registry, reg'': Registry, ctor: Ctor, slot: Slot, n: nat)
    requires CtorJoins(reg, reg', ctor) && IsListed(reg', reg'', ctor, |reg.ctors|) && ProvidersListed(reg)
    requires n in Listed(reg''.providers, slot) && n != |reg.ctors| && SingleFor(reg'', slot.key, n)
    ensures n in Listed(reg.providers, slot) && SingleFor(reg, slot.key, n)
  {
    hide KeysOfCtor, Acceptable, GroupsFresh, SingleKeysOfCtor;
    assert n in Listed(reg.providers, slot);
    assert ListedOk(reg, slot, n);
  }

  lemma JoinKeepsApart(reg: Registry, reg': Registry, reg'': Registry, ctor: Ctor)
    requires CtorJoins(reg, reg', ctor) && IsListed(reg', reg'', ctor, |reg.ctors|)
    requires ProvidersListed(reg) && ProvidersApart(reg)
    ensures ProvidersApart(reg'')
  {
    hide CtorJoins, IsListed, ProvidersListed, SingleFor;
    forall slot: Slot
      ensures Distinct(Listed(reg''.providers, slot))
    {
      JoinKeepsDistinct(reg, reg', reg'', ctor, slot);
    }
    forall slot, n, n' | n in Listed(reg''.providers, slot) && n' in Listed(reg''.providers, slot)
                         && SingleFor(reg'', slot.key, n) && SingleFor(reg'', slot.key, n')
      ensures n == n'
    {
      if n == |reg.ctors| || n' == |reg.ctors| {
        NewcomerIsAlone(reg, reg', reg'', ctor, slot);
      } else {
        OthersStayListed(reg, reg', reg'', ctor, slot, n);
        OthersStayListed(reg, reg', reg'', ctor, slot, n');
      }
    }
  }

  lemma JoinKeepsTables(reg: Registry, reg': Registry, reg'': Registry, ctor: Ctor)
    requires CtorJoins(reg, reg', ctor) && IsListed(reg', reg'', ctor, |reg.ctors|) && Tables(reg)
    ensures Tables(reg'')
  {
    GrownNumbered(reg, reg', ctor.scope);
    GrownCtorsOrdered(reg, reg', ctor.scope);
    JoinKeepsGroups(reg, reg', ctor);
    JoinKeepsPlaced(reg, reg', reg'', ctor);
    JoinKeepsListed(reg, reg', reg'', ctor);
    JoinKeepsApart(reg, reg', reg'', ctor);
    ListingFrame(reg', reg'');
  }

  /** The lists do not matter to the numbering. */
  lemma ListingFrame(reg: Registry, reg': Registry)
    requires reg' == reg.(providers := reg'.providers) && NodesNumbered(reg) && CtorsOrdered(reg) && GroupsOrdered(reg)
    ensures NodesNumbered(reg') && CtorsOrdered(reg') && GroupsOrdered(reg')
  {
    forall c, n: nat, x |
      0 <= c < |reg'.nodes| && CtorNode(n) in reg'.nodes[c] && n < |reg'.ctors| &&
      x in ListGroupLeaves(reg'.ctors[n].params)
      ensures GroupOrdered(reg', x, c) && (c == reg'.ctors[n].scope ==> Place(GroupNode(x.id), c) in reg'.orders)
    {
      assert GroupOrdered(reg, x, c);
      assert Placed(reg, GroupNode(x.id), c) ==> Placed(reg', GroupNode(x.id), c);
    }
    forall c, i | 0 <= c < |reg'.nodes| && 0 <= i < |reg'.nodes[c]| ensures Numbered(reg', reg'.nodes[c][i]) {
      assert Numbered(reg, reg.nodes[c][i]);
    }
  }

  // ---------------------------------------------------------------------------------------------
  // The check of the affected scopes

  lemma PathGoesUp(reg: Registry, c: nat, a: nat)
    requires a in reg.PathToRoot(c)
    ensures a <= c
    ensures forall b :: b in reg.PathToRoot(a) ==> b in reg.PathToRoot(c)
    decreases c
  {
    if a != c {
      var p := reg.parents[c].value;
      assert reg.PathToRoot(c) == [c] + reg.PathToRoot(p);
      PathGoesUp(reg, p, a);
    }
  }

  /** appendSubscopes collects exactly the scopes at or below `s`. */
  lemma {:induction false} SubscopesMembers(reg: Registry, s: nat, c: nat)
    requires TreeOk(reg) && s < |reg.parents|
    ensures c in Subscopes(reg, s) <==> Within(reg, s, c)
    decreases |reg.parents| - s, 1, 0
  {
    SubscopesOfMembers(reg, s, reg.children[s], c);
    if Within(reg, s, c) && c != s {
      var a := ChildTowards(reg, s, c);
      assert a in reg.children[s] && Within(reg, a, c);
    }
  }

  lemma {:induction false} SubscopesOfMembers(reg: Registry, s: nat, cs: seq<nat>, c: nat)
    requires TreeOk(reg) && s < |reg.parents| && forall a :: a in cs ==> a in reg.children[s]
    ensures c in SubscopesOf(reg, s, cs) <==> exists a :: a in cs && Within(reg, a, c)
    ensures c in SubscopesOf(reg, s, cs) ==> Within(reg, s, c)
    decreases |reg.parents| - s, 0, |cs|
  {
    if cs != [] {
      assert cs[0] in cs && cs[0] in reg.children[s];
      assert forall a :: a in cs[1..] ==> a in cs;
      SubscopesMembers(reg, cs[0], c);
      SubscopesOfMembers(reg, s, cs[1..], c);
      assert reg.PathToRoot(cs[0]) == [cs[0]] + reg.PathToRoot(s);
      if Within(reg, cs[0], c) {
        assert s in reg.PathToRoot(cs[0]);
        PathGoesUp(reg, c, cs[0]);
      }
      assert forall a :: a in cs <==> a == cs[0] || a in cs[1..];
    }
  }

  /** The child of `s` on the way to its descendant `c` */
  lemma ChildTowards(reg: Registry, s: nat, c: nat) returns (a: nat)
    requires TreeOk(reg) && s < |reg.parents| && Within(reg, s, c) && c != s
    ensures a in reg.children[s] && Within(reg, a, c)
    decreases c
  {
    var p := reg.parents[c].value;
    assert reg.PathToRoot(c) == [c] + reg.PathToRoot(p);
    if p == s {
      a := c;
    } else {
      a := ChildTowards(reg, s, p);
      assert a in reg.PathToRoot(c);
    }
  }

  /** If no scope is rejected, those checked are acyclic and flagged; deferred ones are unflagged. */
  lemma {:induction false} ChecksPassed(reg: Registry, cs: seq<nat>)
    requires Sized(reg) && NodesNumbered(reg) && (forall c :: c in cs ==> c < |reg.parents|)
    requires CheckScopes(reg, cs).0.None?
    ensures forall c :: c in cs && !reg.deferred[c] ==> IsDag(GraphOf(reg, c))
    ensures forall c :: c in cs ==> CheckScopes(reg, cs).1.verified[c] == !reg.deferred[c]
    ensures forall c :: 0 <= c < |reg.parents| && c !in cs ==> CheckScopes(reg, cs).1.verified[c] == reg.verified[c]
    decreases |cs|
  {
    if cs != [] {
      assert cs[0] in cs && forall c :: c in cs[1..] ==> c in cs;
      var reg1 := reg.(verified := reg.verified[cs[0] := !reg.deferred[cs[0]]]);
      ChecksPassed(reg1, cs[1..]);
      forall c: nat | c < |reg.parents| ensures GraphOf(reg1, c) == GraphOf(reg, c) { FlagsFrame(reg, reg1, c); }
      assert forall c :: c in cs <==> c == cs[0] || c in cs[1..];
    }
  }

  /** Flags, snapshots and decorators do not matter to the graphs. */
  lemma FlagsFrame(reg: Registry, reg': Registry, c: nat)
    requires reg' == reg.(verified := reg'.verified, snaps := reg'.snaps, decorators := reg'.decorators,
                          decos := reg'.decos)
    requires NodesNumbered(reg) && NodesNumbered(reg') && c < |reg.nodes|
    ensures GraphOf(reg', c) == GraphOf(reg, c)
  {
    forall x | Numbered(reg, x) ensures EdgesOf(reg', x, c) == EdgesOf(reg, x, c) { SameEdges(reg, reg', x, c); }
    forall u | 0 <= u < |reg.nodes[c]| ensures GraphOf(reg', c)[u] == GraphOf(reg, c)[u] {
      assert Numbered(reg, reg.nodes[c][u]);
    }
  }

  lemma SameEdges(reg: Registry, reg': Registry, x: Node, c: nat)
    requires reg' == reg.(verified := reg'.verified, snaps := reg'.snaps, decorators := reg'.decorators,
                          decos := reg'.decos)
    requires Numbered(reg, x) && Numbered(reg', x)
    ensures EdgesOf(reg', x, c) == EdgesOf(reg, x, c)
  {
    forall k
      ensures reg'.AllProviders(c, k) == reg.AllProviders(c, k)
    {
      ProvidersOnSame(reg, reg', reg.PathToRoot(c), k);
    }
    match x
    case GroupNode(i) =>
    case CtorNode(n) => ListOrdersFrame(reg, reg', reg.ctors[n].params, c);
  }

  lemma {:induction false} ParamOrdersFrame(reg: Registry, reg': Registry, p: Param, c: nat)
    requires reg'.orders == reg.orders && forall k :: reg'.AllProviders(c, k) == reg.AllProviders(c, k)
    ensures ParamOrders(reg', p, c) == ParamOrders(reg, p, c)
    decreases p, 1
  {
    match p
    case SingleParam(k, _) => assert reg'.AllProviders(c, k) == reg.AllProviders(c, k);
    case GroupParam(_, _, _, _) =>
    case ObjectParam(fields) => FieldOrdersFrame(reg, reg', fields, c);
  }

  lemma {:induction false} FieldOrdersFrame(reg: Registry, reg': Registry, fields: seq<ParamField>, c: nat)
    requires reg'.orders == reg.orders && forall k :: reg'.AllProviders(c, k) == reg.AllProviders(c, k)
    ensures FieldOrders(reg', fields, c) == FieldOrders(reg, fields, c)
    decreases fields, 0
  {
    if fields != [] {
      assert (fields[0] decreases to fields[0].param);
      ParamOrdersFrame(reg, reg', fields[0].param, c);
      FieldOrdersFrame(reg, reg', fields[1..], c);
    }
  }

  lemma {:induction false} ListOrdersFrame(reg: Registry, reg': Registry, ps: seq<Param>, c: nat)
    requires reg'.orders == reg.orders && forall k :: reg'.AllProviders(c, k) == reg.AllProviders(c, k)
    ensures ListOrders(reg', ps, c) == ListOrders(reg, ps, c)
  {
    if ps != [] {
      ParamOrdersFrame(reg, reg', ps[0], c);
      ListOrdersFrame(reg, reg', ps[1..], c);
    }
  }

  // ---------------------------------------------------------------------------------------------
  // Provide

  lemma TargetExists(reg: Registry, s: nat, exported: bool)
    requires s < |reg.parents|
    ensures Target(reg, s, exported) < |reg.parents|
  {
    PathGoesUp(reg, s, Root(reg, s));
  }

  /** Scope.provide: `s` is the scope it is called on, `specs` and `ds` the declared parameters and results of the
      constructor. */
  ghost function Provide(reg: Registry, s: nat, exported: bool, specs: seq<ParamSpec>,
          ds: seq<Declared>): (r: (ProvideOutcome, Registry))
    requires TreeOk(reg) && NodesNumbered(reg) && s < |reg.parents|
  {
    TargetExists(reg, s, exported);
    var t := Target(reg, s, exported);
    var (ps, reg1) := NewParams(Snapshot(reg, t), t, specs);
    NewParamsGrow(Snapshot(reg, t), t, specs);
    var rl := ListOf(ds);
    if ps.None? then (BadParam, Rollback(reg1, t))
    else if rl.None? then (BadResult, Rollback(reg1, t))
    else
      var ctor := Ctor(ps.value, rl.value, t, s);
      var reg2 := NewCtor(reg1, t, ctor);
      NewCtorGrows(reg1, t, ctor);
      if !Acceptable(reg, t, ListEntries(rl.value.results)) then (Conflict, Rollback(reg2, t))
      else if KeysOfCtor(ctor) == {} then (NoKeys, Rollback(reg2, t))
      else Check(reg, reg1, reg2, ctor)
  }

  /** The end of Scope.provide: lists the new constructor, checks the affected scopes, and undoes the listing
      where the check found a cycle. */
  ghost function Check(reg: Registry, reg1: Registry, reg2: Registry, ctor: Ctor): (r: (ProvideOutcome, Registry))
    requires TreeOk(reg) && NodesNumbered(reg) && ctor.scope < |reg.parents|
    requires Grown(Snapshot(reg, ctor.scope), reg1, ctor.scope) && Grown(reg1, reg2, ctor.scope)
  {
    var t := ctor.scope;
    var reg3 := List(reg2, t, KeysOfCtor(ctor), |reg1.ctors|);
    assert NodesNumbered(reg3) by { ListedNumbered(reg, reg1, reg2, reg3, t); }
    forall c | c in Subscopes(reg, t) ensures c < |reg.parents| { SubscopesMembers(reg, t, c); }
    var (rejected, reg4) := CheckScopes(reg3, Subscopes(reg, t));
    if rejected.None? then (Provided, reg4)
    else (CycleIn(rejected.value), Rollback(Restore(reg4, rejected.value, KeysOfCtor(ctor), reg, t), t))
  }

  lemma ListedNumbered(reg: Registry, reg1: Registry, reg2: Registry, reg3: Registry, t: nat)
    requires TreeOk(reg) && NodesNumbered(reg) && Grown(Snapshot(reg, t), reg1, t) && Grown(reg1, reg2, t)
    requires reg3 == reg2.(providers := reg3.providers)
    ensures NodesNumbered(reg3)
  {
    assert forall x :: Numbered(Snapshot(reg, t), x) == Numbered(reg, x);
    GrownNumbered(Snapshot(reg, t), reg1, t);
    GrownNumbered(reg1, reg2, t);
    assert forall x :: Numbered(reg3, x) == Numbered(reg2, x);
  }

  /** A snapshot leaves everything else as it is. */
  lemma SnapshotKeepsTables(reg: Registry, t: nat)
    requires Tables(reg)
    ensures Tables(Snapshot(reg, t))
  {
    var reg' := Snapshot(reg, t);
    assert OrdersKept(reg, reg');
    UndoneKeepsTables(reg, reg');
  }

  /** Rolling back the graphs that have grown since the snapshot gives the graphs of the snapshot. */
  lemma RollbackUndoes(reg: Registry, reg': Registry, t: nat)
    requires Tables(reg) && Grown(Snapshot(reg, t), reg', t)
    ensures Undone(reg, Rollback(reg', t))
  {
    var reg'' := Rollback(reg', t);
    forall c | 0 <= c < |reg.nodes| ensures reg''.nodes[c] == reg.nodes[c] {
      assert Within(reg', t, c) == Within(reg, t, c);
      assert reg.nodes[c] <= reg'.nodes[c];
    }
    assert reg''.nodes == reg.nodes;
    forall place: Place | Numbered(reg, place.node)
      ensures (place in reg''.orders <==> place in reg.orders)
      ensures (place in reg.orders ==> reg''.orders[place] == reg.orders[place])
    {
      assert Numbered(Snapshot(reg, t), place.node);
    }
  }

  /** Every scope's graph nodes and every key's provider list are as before. */
  ghost predicate SameRegistrations(reg: Registry, reg': Registry) {
    reg'.nodes == reg.nodes && forall slot :: Listed(reg'.providers, slot) == Listed(reg.providers, slot)
  }

  lemma GrownFromSnapshot(reg: Registry, reg1: Registry, reg2: Registry, t: nat)
    requires |reg.nodes| == |reg.parents| == |reg.snaps| && Grown(Snapshot(reg, t), reg1, t) && Grown(reg1, reg2, t)
    ensures Grown(Snapshot(reg, t), reg2, t)
  {
    GrownTransitive(Snapshot(reg, t), reg1, reg2, t);
  }

  /** Restore, slot by slot */
  lemma RestoreRestores(reg: Registry, c: nat, keys: set<Key>, before: Registry, s: nat, slot: Slot)
    ensures Listed(Restore(reg, c, keys, before, s).providers, slot)
         == if slot.scope == c && slot.key in keys then before.Providers(s, slot.key) else Listed(reg.providers, slot)
  {
    if slot.scope == c && slot.key in keys { assert slot == Slot(c, slot.key); }
  }

  /** A cycle in the target scope itself: the listing is undone. */
  lemma CheckUndone(reg: Registry, reg1: Registry, reg2: Registry, ctor: Ctor)
    requires Tables(reg) && ctor.scope < |reg.parents|
    requires Grown(Snapshot(reg, ctor.scope), reg1, ctor.scope) && Grown(reg1, reg2, ctor.scope)
    requires Check(reg, reg1, reg2, ctor).0 == CycleIn(ctor.scope)
    ensures Undone(reg, Check(reg, reg1, reg2, ctor).1)
  {
    var t := ctor.scope;
    var reg3 := List(reg2, t, KeysOfCtor(ctor), |reg1.ctors|);
    ListedNumbered(reg, reg1, reg2, reg3, t);
    forall c | c in Subscopes(reg, t) ensures c < |reg.parents| { SubscopesMembers(reg, t, c); }
    CheckRejects(reg3, Subscopes(reg, t));
    var reg4 := CheckScopes(reg3, Subscopes(reg, t)).1;
    assert Subscopes(reg, t)[0] == t;
    assert reg4.verified == reg2.verified[t := false];
    var reg5 := Restore(reg4, t, KeysOfCtor(ctor), reg, t);
    GrownFromSnapshot(reg, reg1, reg2, t);
    RollbackUndoes(reg, reg2, t);
    ListLists(reg2, ctor, |reg1.ctors|);
    forall slot ensures Listed(reg5.providers, slot) == Listed(reg.providers, slot) {
      RestoreRestores(reg4, t, KeysOfCtor(ctor), reg, t, slot);
    }
    UndoneAgain(reg, reg2, reg5, t);
  }

  lemma UndoneAgain(reg: Registry, reg2: Registry, reg5: Registry, t: nat)
    requires |reg2.nodes| == |reg2.parents| == |reg2.snaps| && Undone(reg, Rollback(reg2, t)) && t < |reg.verified|
    requires reg5 == reg2.(providers := reg5.providers, verified := reg5.verified)
    requires reg5.verified == reg2.verified[t := false]
    requires forall slot :: Listed(reg5.providers, slot) == Listed(reg.providers, slot)
    ensures Undone(reg, Rollback(reg5, t))
  {
    assert forall c :: Within(reg5, t, c) == Within(reg2, t, c);
    assert Rollback(reg5, t).nodes == Rollback(reg2, t).nodes;
  }

  /** The rejected scope is one of those checked, is not deferred, and has a cycle. */
  lemma {:induction false} CheckRejects(reg: Registry, cs: seq<nat>)
    requires Sized(reg) && NodesNumbered(reg) && forall c :: c in cs ==> c < |reg.parents|
    ensures var r := CheckScopes(reg, cs).0;
            r.Some? ==> r.value in cs && !reg.deferred[r.value] && !IsDag(GraphOf(reg, r.value))
    decreases |cs|
  {
    if cs != [] {
      assert cs[0] in cs && forall c :: c in cs[1..] ==> c in cs;
      var reg1 := reg.(verified := reg.verified[cs[0] := !reg.deferred[cs[0]]]);
      CheckRejects(reg1, cs[1..]);
      forall c: nat | c < |reg.parents| ensures GraphOf(reg1, c) == GraphOf(reg, c) { FlagsFrame(reg, reg1, c); }
    }
  }

  /** A cycle below the target scope: the new constructor stays listed in the target scope. */
  lemma CheckLeavesListed(reg: Registry, reg1: Registry, reg2: Registry, ctor: Ctor, k: Key)
    requires Tables(reg) && ctor.scope < |reg.parents|
    requires Grown(Snapshot(reg, ctor.scope), reg1, ctor.scope) && Grown(reg1, reg2, ctor.scope)
    requires Check(reg, reg1, reg2, ctor).0.CycleIn? && Check(reg, reg1, reg2, ctor).0.scope != ctor.scope
    requires k in KeysOfCtor(ctor)
    ensures Check(reg, reg1, reg2, ctor).1.Providers(ctor.scope, k) == reg.Providers(ctor.scope, k) + [|reg1.ctors|]
  {
    var t := ctor.scope;
    var reg3 := List(reg2, t, KeysOfCtor(ctor), |reg1.ctors|);
    ListedNumbered(reg, reg1, reg2, reg3, t);
    forall c | c in Subscopes(reg, t) ensures c < |reg.parents| { SubscopesMembers(reg, t, c); }
    var (rejected, reg4) := CheckScopes(reg3, Subscopes(reg, t));
    ListLists(reg2, ctor, |reg1.ctors|);
    RestoreRestores(reg4, rejected.value, KeysOfCtor(ctor), reg, t, Slot(t, k));
    GrownFields(reg1, reg2, t);
    GrownFields(Snapshot(reg, t), reg1, t);
  }

  /** Provide fails all or nothing unless the check rejects a descendant of the target scope. */
  lemma ProvideUndoes(reg: Registry, s: nat, exported: bool, specs: seq<ParamSpec>,
          ds: seq<Declared>)
    requires Tables(reg) && s < |reg.parents| && Provide(reg, s, exported, specs, ds).0 != Provided
    ensures var (outcome, reg') := Provide(reg, s, exported, specs, ds);
            SameRegistrations(reg, reg') <==> !(outcome.CycleIn? && outcome.scope != Target(reg, s, exported))
    ensures var (outcome, reg') := Provide(reg, s, exported, specs, ds);
            !(outcome.CycleIn? && outcome.scope != Target(reg, s, exported)) ==> Undone(reg, reg')
  {
    hide CtorsOrdered, GroupsOrdered, ProvidersListed, ProvidersPlaced, CtorsListed, ProvidersApart, OrdersScoped,
         Grown;
    TargetExists(reg, s, exported);
    var t := Target(reg, s, exported);
    var (ps, reg1) := NewParams(Snapshot(reg, t), t, specs);
    NewParamsGrow(Snapshot(reg, t), t, specs);
    RollbackUndoes(reg, reg1, t);
    if ps.Some? && ListOf(ds).Some? {
      var ctor := Ctor(ps.value, ListOf(ds).value, t, s);
      var reg2 := NewCtor(reg1, t, ctor);
      NewCtorGrows(reg1, t, ctor);
      GrownFromSnapshot(reg, reg1, reg2, t);
      RollbackUndoes(reg, reg2, t);
      if Acceptable(reg, t, ListEntries(ctor.results.results)) && KeysOfCtor(ctor) != {} {
        if Check(reg, reg1, reg2, ctor).0 == CycleIn(t) {
          CheckUndone(reg, reg1, reg2, ctor);
        } else {
          var k :| k in KeysOfCtor(ctor);
          CheckLeavesListed(reg, reg1, reg2, ctor, k);
          assert Listed(Check(reg, reg1, reg2, ctor).1.providers, Slot(t, k)) != Listed(reg.providers, Slot(t, k));
        }
      }
    }
  }

  /** The tables that the check meets: the new constructor has its nodes and is listed for its keys. */
  ghost function Candidate(s: nat, t: nat, ps: seq<Param>, reg1: Registry, rl: ResultList): Registry
    requires |reg1.nodes| == |reg1.parents|
  {
    var ctor := Ctor(ps, rl, t, s);
    List(NewCtor(reg1, t, ctor), t, KeysOfCtor(ctor), |reg1.ctors|)
  }

  /** The check accepts the graph of `c`, or is put off. */
  ghost predicate Passes(reg: Registry, c: nat)
    requires NodesNumbered(reg) && c < |reg.deferred| && c < |reg.nodes|
  {
    reg.deferred[c] || IsDag(GraphOf(reg, c))
  }

  lemma {:induction false} CandidateFacts(reg: Registry, s: nat, t: nat, specs: seq<ParamSpec>, rl: ResultList)
    requires TreeOk(reg) && NodesNumbered(reg) && t < |reg.parents|
    ensures var (ps, reg1) := NewParams(Snapshot(reg, t), t, specs);
            var cand := Candidate(s, t, if ps.Some? then ps.value else [], reg1, rl);
            NodesNumbered(cand) && Sized(cand) && cand.parents == reg.parents && cand.deferred == reg.deferred
  {
    var (ps, reg1) := NewParams(Snapshot(reg, t), t, specs);
    var ctor := Ctor(if ps.Some? then ps.value else [], rl, t, s);
    NewParamsGrow(Snapshot(reg, t), t, specs);
    NewCtorGrows(reg1, t, ctor);
    ListedNumbered(reg, reg1, NewCtor(reg1, t, ctor), Candidate(s, t, ctor.params, reg1, rl), t);
  }

  /** Nothing is wrong with the constructor itself, and its target scope can take it; but a scope below cannot. */
  ghost predicate OnlyDescendantCycles(reg: Registry, s: nat, exported: bool, specs: seq<ParamSpec>, ds: seq<Declared>)
    requires Tables(reg) && s < |reg.parents|
  {
    TargetExists(reg, s, exported);
    var t := Target(reg, s, exported);
    var (ps, reg1) := NewParams(Snapshot(reg, t), t, specs);
    var rl := ListOf(ds);
    && ps.Some? && rl.Some?
    && Acceptable(reg, t, ListEntries(rl.value.results))
    && KeysOfCtor(Ctor(ps.value, rl.value, t, s)) != {}
    && (CandidateFacts(reg, s, t, specs, rl.value);
        var cand := Candidate(s, t, ps.value, reg1, rl.value);
        && Passes(cand, t)
        && exists c :: Within(reg, t, c) && c != t && !Passes(cand, c))
  }

  lemma CheckForeseen(reg: Registry, reg1: Registry, reg2: Registry, ctor: Ctor)
    requires Tables(reg) && ctor.scope < |reg.parents|
    requires Grown(Snapshot(reg, ctor.scope), reg1, ctor.scope) && Grown(reg1, reg2, ctor.scope)
    ensures var reg3 := List(reg2, ctor.scope, KeysOfCtor(ctor), |reg1.ctors|);
            && NodesNumbered(reg3) && Sized(reg3) && reg3.parents == reg.parents
            && ((Check(reg, reg1, reg2, ctor).0.CycleIn? && Check(reg, reg1, reg2, ctor).0.scope != ctor.scope) <==>
                (Passes(reg3, ctor.scope)
                 && exists c :: Within(reg, ctor.scope, c) && c != ctor.scope && !Passes(reg3, c)))
  {
    hide Tables, Grown, IsDag, Restore, Rollback, GraphOf;
    var t := ctor.scope;
    TablesFacts(reg);
    var reg3 := List(reg2, t, KeysOfCtor(ctor), |reg1.ctors|);
    ListedSized(reg, reg1, reg2, reg3, t);
    var cs := Subscopes(reg, t);
    forall c ensures c in cs <==> Within(reg, t, c) { SubscopesMembers(reg, t, c); }
    CheckRejects(reg3, cs);
    if CheckScopes(reg3, cs).0.None? {
      ChecksPassed(reg3, cs);
    }
  }

  lemma ListedSized(reg: Registry, reg1: Registry, reg2: Registry, reg3: Registry, t: nat)
    requires TreeOk(reg) && NodesNumbered(reg) && Grown(Snapshot(reg, t), reg1, t) && Grown(reg1, reg2, t)
    requires reg3 == reg2.(providers := reg3.providers)
    ensures NodesNumbered(reg3) && Sized(reg3) && reg3.parents == reg.parents && reg3.deferred == reg.deferred
  {
    ListedNumbered(reg, reg1, reg2, reg3, t);
  }

  lemma ProvideForeseen(reg: Registry, s: nat, exported: bool, specs: seq<ParamSpec>,
          ds: seq<Declared>)
    requires Tables(reg) && s < |reg.parents|
    ensures var outcome := Provide(reg, s, exported, specs, ds).0;
            (outcome.CycleIn? && outcome.scope != Target(reg, s, exported)) <==>
              OnlyDescendantCycles(reg, s, exported, specs, ds)
  {
    hide Tables, Grown, Check;
    TargetExists(reg, s, exported);
    var t := Target(reg, s, exported);
    TablesFacts(reg);
    var (ps, reg1) := NewParams(Snapshot(reg, t), t, specs);
    NewParamsGrow(Snapshot(reg, t), t, specs);
    if ps.Some? && ListOf(ds).Some? {
      var ctor := Ctor(ps.value, ListOf(ds).value, t, s);
      NewCtorGrows(reg1, t, ctor);
      CheckForeseen(reg, reg1, NewCtor(reg1, t, ctor), ctor);
    }
  }

  /** A Provide that fails leaves everything as it was, exactly when it is not the scopes below the target scope
      alone that have the cycle. */
  lemma ProvideIsAllOrNothing(reg: Registry, s: nat, exported: bool, specs: seq<ParamSpec>,
          ds: seq<Declared>)
    requires Tables(reg) && s < |reg.parents| && Provide(reg, s, exported, specs, ds).0 != Provided
    ensures SameRegistrations(reg, Provide(reg, s, exported, specs, ds).1) <==>
            !OnlyDescendantCycles(reg, s, exported, specs, ds)
  {
    hide Tables, Provide, Undone, SameRegistrations, OnlyDescendantCycles;
    ProvideUndoes(reg, s, exported, specs, ds);
    ProvideForeseen(reg, s, exported, specs, ds);
  }

  /** The flags after a successful check */
  lemma {:induction false} CheckKeepsFlags(reg: Registry, reg3: Registry, reg4: Registry, t: nat)
    requires Inv(reg) && Tables(reg3) && t < |reg.parents|
    requires NumberingExtended(reg, reg3) && reg3.parents == reg.parents && reg3.children == reg.children
    requires reg3.deferred == reg.deferred && reg3.verified == reg.verified
    requires forall c :: 0 <= c < |reg.nodes| && !Within(reg, t, c) ==> reg3.nodes[c] == reg.nodes[c]
    requires forall slot: Slot :: slot.scope != t ==> Listed(reg3.providers, slot) == Listed(reg.providers, slot)
    requires forall c :: c in Subscopes(reg, t) ==> c < |reg.parents|
    requires CheckScopes(reg3, Subscopes(reg, t)) == (None, reg4)
    ensures Inv(reg4)
  {
    assert OrdersKept(reg3, reg4);
    ChecksPassed(reg3, Subscopes(reg, t));
    FlagsChangeKeepsTables(reg3, reg4);
    forall c | 0 <= c < |reg4.nodes| && (reg4.verified[c] || (!reg4.deferred[c] && exists k :: Provides(reg4, c, k)))
      ensures IsDag(GraphOf(reg4, c))
    {
      FlagsFrame(reg3, reg4, c);
      SubscopesMembers(reg, t, c);
      if !Within(reg, t, c) { OutsideKept(reg, reg3, reg4, t, c); }
    }
  }

  lemma OutsideKept(reg: Registry, reg3: Registry, reg4: Registry, t: nat, c: nat)
    requires Inv(reg) && Tables(reg3) && c < |reg.nodes| && !Within(reg, t, c)
    requires NumberingExtended(reg, reg3) && reg3.parents == reg.parents && reg3.nodes[c] == reg.nodes[c]
    requires forall slot: Slot :: slot.scope != t ==> Listed(reg3.providers, slot) == Listed(reg.providers, slot)
    requires reg4 == reg3.(verified := reg4.verified) && reg3.deferred == reg.deferred
    requires c < |reg4.verified| && reg4.verified[c] == reg.verified[c]
    requires reg4.verified[c] || (!reg4.deferred[c] && exists k :: Provides(reg4, c, k))
    ensures IsDag(GraphOf(reg3, c))
  {
    forall s, k | s in reg.PathToRoot(c) ensures reg3.Providers(s, k) == reg.Providers(s, k) {
      assert s != t && Slot(s, k).scope != t;
    }
    ExtendedIsKept(reg, reg3, c);
    GraphKept(reg, reg3, c);
    assert GraphOf(reg3, c) == GraphOf(reg, c);
    if !reg4.verified[c] {
      var k :| Provides(reg4, c, k);
      assert c in reg.PathToRoot(c);
      assert Provides(reg, c, k);
    }
  }

  lemma FlagsChangeKeepsTables(reg: Registry, reg': Registry)
    requires Tables(reg) && |reg'.verified| == |reg.verified|
    requires reg' == reg.(verified := reg'.verified, decorators := reg'.decorators, decos := reg'.decos)
    ensures Tables(reg')
  {
    assert forall x :: Numbered(reg', x) == Numbered(reg, x);
    assert forall x, c :: Placed(reg', x, c) == Placed(reg, x, c);
    assert forall x, c :: GroupOrdered(reg', x, c) == GroupOrdered(reg, x, c);
    assert forall s, c :: Within(reg', s, c) == Within(reg, s, c);
    assert forall slot, n :: ListedOk(reg', slot, n) == ListedOk(reg, slot, n);
    assert forall k, n :: SingleFor(reg', k, n) == SingleFor(reg, k, n);
    assert forall s, k :: reg'.Providers(s, k) == reg.Providers(s, k);
  }

  lemma SnapshotKeepsInv(reg: Registry, t: nat)
    requires Inv(reg)
    ensures Inv(Snapshot(reg, t))
  {
    assert OrdersKept(reg, Snapshot(reg, t));
    UndoneKeepsInv(reg, Snapshot(reg, t));
  }

  /** What a listed constructor leaves as it was */
  lemma JoinFrame(reg: Registry, reg2: Registry, reg3: Registry, ctor: Ctor)
    requires CtorJoins(reg, reg2, ctor) && IsListed(reg2, reg3, ctor, |reg.ctors|)
    ensures NumberingExtended(reg, reg3) && reg3.parents == reg.parents && reg3.children == reg.children
    ensures reg3.deferred == reg.deferred && reg3.verified == reg.verified && |reg3.nodes| == |reg.nodes|
    ensures forall c :: 0 <= c < |reg.nodes| && !Within(reg, ctor.scope, c) ==> reg3.nodes[c] == reg.nodes[c]
    ensures forall slot: Slot :: slot.scope != ctor.scope ==>
            Listed(reg3.providers, slot) == Listed(reg.providers, slot)
    ensures IsListed(reg, reg.(providers := reg3.providers), ctor, |reg.ctors|)
  {}

  /** A constructor that passes the check */
  lemma CheckKeepsInv(reg: Registry, reg1: Registry, reg2: Registry, ctor: Ctor)
    requires Inv(reg) && ctor.scope < |reg.parents|
    requires Grown(Snapshot(reg, ctor.scope), reg1, ctor.scope) && Grown(reg1, reg2, ctor.scope)
    requires reg1.ctors == reg.ctors && CtorJoins(Snapshot(reg, ctor.scope), reg2, ctor)
    requires Check(reg, reg1, reg2, ctor).0 == Provided
    ensures Inv(Check(reg, reg1, reg2, ctor).1)
    ensures IsListed(reg, reg.(providers := Check(reg, reg1, reg2, ctor).1.providers), ctor, |reg.ctors|)
  {
    hide CtorsOrdered, GroupsOrdered, ProvidersListed, ProvidersPlaced, CtorsListed, ProvidersApart, OrdersScoped,
         FlagsSound, Grown, CtorJoins, NumberingExtended;
    var t := ctor.scope;
    var reg0 := Snapshot(reg, t);
    var reg3 := List(reg2, t, KeysOfCtor(ctor), |reg1.ctors|);
    SnapshotKeepsInv(reg, t);
    ListLists(reg2, ctor, |reg1.ctors|);
    JoinKeepsTables(reg0, reg2, reg3, ctor);
    JoinFrame(reg0, reg2, reg3, ctor);
    forall c | c in Subscopes(reg, t) ensures c < |reg.parents| { SubscopesMembers(reg, t, c); }
    SameSubscopes(reg, reg0, t);
    CheckKeepsFlags(reg0, reg3, Check(reg, reg1, reg2, ctor).1, t);
  }

  lemma {:induction false} SameSubscopes(reg: Registry, reg': Registry, s: nat)
    requires TreeOk(reg) && TreeOk(reg') && s < |reg.parents| && reg'.parents == reg.parents
    requires reg'.children == reg.children
    ensures Subscopes(reg', s) == Subscopes(reg, s)
    decreases |reg.parents| - s, 1, 0
  {
    SameSubscopesOf(reg, reg', s, reg.children[s]);
  }

  lemma {:induction false} SameSubscopesOf(reg: Registry, reg': Registry, s: nat, cs: seq<nat>)
    requires TreeOk(reg) && TreeOk(reg') && s < |reg.parents| && reg'.parents == reg.parents
    requires reg'.children == reg.children
    requires forall c :: c in cs ==> c in reg.children[s]
    ensures SubscopesOf(reg', s, cs) == SubscopesOf(reg, s, cs)
    decreases |reg.parents| - s, 0, |cs|
  {
    if cs != [] {
      assert cs[0] in cs && cs[0] in reg.children[s];
      SameSubscopes(reg, reg', cs[0]);
      SameSubscopesOf(reg, reg', s, cs[1..]);
    }
  }

  lemma {:induction false} JoinFacts(reg: Registry, t: nat, s: nat, specs: seq<ParamSpec>, ds: seq<Declared>)
    requires Tables(reg) && t < |reg.parents|
    requires NewParams(Snapshot(reg, t), t, specs).0.Some? && ListOf(ds).Some?
    requires Acceptable(reg, t, ListEntries(ListOf(ds).value.results))
    requires KeysOf(ListEntries(ListOf(ds).value.results)) != {}
    ensures var (ps, reg1) := NewParams(Snapshot(reg, t), t, specs);
            var ctor := Ctor(ps.value, ListOf(ds).value, t, s);
            reg1.ctors == reg.ctors && CtorJoins(Snapshot(reg, t), NewCtor(reg1, t, ctor), ctor)
  {
    var reg0 := Snapshot(reg, t);
    var (ps, reg1) := NewParams(reg0, t, specs);
    var ctor := Ctor(ps.value, ListOf(ds).value, t, s);
    var reg2 := NewCtor(reg1, t, ctor);
    NewParamsGrow(reg0, t, specs);
    NewParamsFresh(reg0, t, specs);
    NewCtorGrows(reg1, t, ctor);
    GrownTransitive(reg0, reg1, reg2, t);
    PositionsCover(ds);
    assert reg2.groupKeys == reg1.groupKeys;
    forall k ensures Provides(reg0, t, k) == Provides(reg, t, k) {}
  }

  /** Unless a descendant of the target scope has the cycle, Provide keeps the invariant. */
  lemma ProvideKeepsInv(reg: Registry, s: nat, exported: bool, specs: seq<ParamSpec>,
          ds: seq<Declared>)
    requires Inv(reg) && s < |reg.parents|
    requires var outcome := Provide(reg, s, exported, specs, ds).0;
             !(outcome.CycleIn? && outcome.scope != Target(reg, s, exported))
    ensures Inv(Provide(reg, s, exported, specs, ds).1)
  {
    hide Inv, Check, CtorJoins;
    InvFacts(reg);
    var (outcome, reg') := Provide(reg, s, exported, specs, ds);
    if outcome != Provided {
      ProvideUndoes(reg, s, exported, specs, ds);
      UndoneKeepsInv(reg, reg');
    } else {
      TargetExists(reg, s, exported);
      var t := Target(reg, s, exported);
      var (ps, reg1) := NewParams(Snapshot(reg, t), t, specs);
      NewParamsGrow(Snapshot(reg, t), t, specs);
      var ctor := Ctor(ps.value, ListOf(ds).value, t, s);
      NewCtorGrows(reg1, t, ctor);
      JoinFacts(reg, t, s, specs, ds);
      CheckKeepsInv(reg, reg1, NewCtor(reg1, t, ctor), ctor);
    }
  }

  lemma InvFacts(reg: Registry)
    requires Inv(reg)
    ensures Tables(reg)
  {}

  // ---------------------------------------------------------------------------------------------
  // Scope, Decorate and Invoke

  /** Scope.Scope: the child copies the parent's nodes, and the orders of the constructors among them. */
  function NewScope(reg: Registry, p: nat): Registry
    requires p < |reg.parents| == |reg.children| == |reg.deferred| == |reg.nodes|
  {
    var child := |reg.parents|;
    reg.(parents := reg.parents + [Some(p)],
         children := reg.children[p := reg.children[p] + [child]] + [[]],
         deferred := reg.deferred + [reg.deferred[p]],
         verified := reg.verified + [false],
         nodes := reg.nodes + [reg.nodes[p]],
         snaps := reg.snaps + [-1],
         orders := reg.orders + map x | x in reg.nodes[p] && x.CtorNode? :: Place(x, child) := reg.Order(x, p))
  }

  /** Scope.Invoke up to the building of the arguments: its group parameters are given nodes, and unless a
      dependency is missing the graph is checked if it has not been verified. */
  ghost function Invoked(reg: Registry, s: nat, specs: seq<ParamSpec>, missing: bool): Registry
    requires TreeOk(reg) && NodesNumbered(reg) && s < |reg.parents|
  {
    var (ps, reg1) := NewParams(reg, s, specs);
    NewParamsGrow(reg, s, specs);
    GrownNumbered(reg, reg1, s);
    if ps.None? || missing || reg1.verified[s] || !IsDag(GraphOf(reg1, s)) then reg1
    else reg1.(verified := reg1.verified[s := true])
  }

  lemma InvokedKeepsInv(reg: Registry, s: nat, specs: seq<ParamSpec>, missing: bool)
    requires Inv(reg) && s < |reg.parents|
    ensures Inv(Invoked(reg, s, specs, missing))
  {
    var (ps, reg1) := NewParams(reg, s, specs);
    NewParamsGrow(reg, s, specs);
    GroupGrowthKeepsInv(reg, reg1, s);
    var reg2 := Invoked(reg, s, specs, missing);
    FlagsChangeKeepsTables(reg1, reg2);
    forall c | 0 <= c < |reg2.nodes| && (reg2.verified[c] || (!reg2.deferred[c] && exists k :: Provides(reg2, c, k)))
      ensures IsDag(GraphOf(reg2, c))
    {
      FlagsFrame(reg1, reg2, c);
      if !reg2.verified[c] {
        var k :| Provides(reg2, c, k);
        assert Provides(reg1, c, k);
      }
    }
  }

  // Scope

  lemma {:induction false} AncestorsStable(parents: seq<Option<nat>>, more: seq<Option<nat>>, c: nat)
    requires c < |parents|
    ensures Ancestors(parents + more, c) == Ancestors(parents, c)
    decreases c
  {
    assert (parents + more)[c] == parents[c];
    if parents[c].Some? && parents[c].value < c { AncestorsStable(parents, more, parents[c].value); }
  }

  /** The child scope sees what its parent sees; the other scopes see what they saw. */
  lemma NewScopePaths(reg: Registry, p: nat)
    requires Sized(reg) && p < |reg.parents|
    ensures forall c :: 0 <= c < |reg.parents| ==> NewScope(reg, p).PathToRoot(c) == reg.PathToRoot(c)
    ensures NewScope(reg, p).PathToRoot(|reg.parents|) == [|reg.parents|] + reg.PathToRoot(p)
  {
    forall c | 0 <= c < |reg.parents| ensures NewScope(reg, p).PathToRoot(c) == reg.PathToRoot(c) {
      AncestorsStable(reg.parents, [Some(p)], c);
    }
    assert (reg.parents + [Some(p)])[|reg.parents|] == Some(p);
  }

  lemma NewScopeTree(reg: Registry, p: nat)
    requires TreeOk(reg) && p < |reg.parents|
    ensures TreeOk(NewScope(reg, p))
  {
    var reg', child := NewScope(reg, p), |reg.parents|;
    forall q, c {:trigger c in reg'.children[q]} | 0 <= q < |reg'.children| && c in reg'.children[q]
      ensures c < |reg'.parents| && reg'.parents[c] == Some(q)
    {
      if q < child && c != child { assert c in reg.children[q]; }
    }
    forall s | 0 <= s < |reg'.parents| && reg'.parents[s].Some?
      ensures reg'.parents[s].value < s && s in reg'.children[reg'.parents[s].value]
    {
      if s < child { assert reg.parents[s] == reg'.parents[s]; }
    }
    forall q | 0 <= q < |reg'.children| ensures Distinct(reg'.children[q]) {
      if q == p {
        assert child !in reg.children[p];
        DistinctSnoc(reg.children[p], child);
      }
    }
  }

  /** The orders after Scope, place by place */
  lemma NewScopeOrders(reg: Registry, p: nat)
    requires Sized(reg) && p < |reg.parents| && OrdersScoped(reg)
    ensures var reg' := NewScope(reg, p);
            && (forall place: Place :: place.scope < |reg.parents| ==>
                  && (place in reg'.orders <==> place in reg.orders)
                  && (place in reg.orders ==> reg'.orders[place] == reg.orders[place]))
            && (forall x :: Place(x, |reg.parents|) in reg'.orders <==> x in reg.nodes[p] && x.CtorNode?)
            && (forall x :: x in reg.nodes[p] && x.CtorNode? ==>
                  reg'.orders[Place(x, |reg.parents|)] == reg.Order(x, p))
            && OrdersScoped(reg')
  {}

  lemma NewScopeKeepsNodes(reg: Registry, p: nat)
    requires Sized(reg) && p < |reg.parents| && OrdersScoped(reg) && NodesNumbered(reg) && CtorsOrdered(reg)
    ensures NodesNumbered(NewScope(reg, p)) && CtorsOrdered(NewScope(reg, p))
  {
    NewScopeOrders(reg, p);
    var reg', child := NewScope(reg, p), |reg.parents|;
    forall c, i | 0 <= c < |reg'.nodes| && 0 <= i < |reg'.nodes[c]|
      ensures Numbered(reg', reg'.nodes[c][i])
      ensures reg'.nodes[c][i].CtorNode? ==>
              Place(reg'.nodes[c][i], c) in reg'.orders && reg'.orders[Place(reg'.nodes[c][i], c)] == i
    {
      var c0 := if c < child then c else p;
      assert reg'.nodes[c][i] == reg.nodes[c0][i];
      assert Numbered(reg, reg.nodes[c0][i]);
      assert reg.nodes[c0][i] in reg.nodes[c0];
    }
  }

  lemma NewScopePlaced(reg: Registry, p: nat, x: Node, c: nat)
    requires Sized(reg) && p < |reg.parents| && OrdersScoped(reg)
    ensures c < |reg.parents| ==> (Placed(NewScope(reg, p), x, c) <==> Placed(reg, x, c))
    ensures x.CtorNode? && Placed(reg, x, p) ==> Placed(NewScope(reg, p), x, |reg.parents|)
  {
    NewScopeOrders(reg, p);
    if x.CtorNode? && Placed(reg, x, p) { assert x in reg.nodes[p]; }
  }

  lemma NewScopeKeepsGroups(reg: Registry, p: nat)
    requires TreeOk(reg) && p < |reg.parents| && OrdersScoped(reg) && GroupsOrdered(reg) && CtorsListed(reg)
    ensures GroupsOrdered(NewScope(reg, p))
  {
    NewScopeOrders(reg, p);
    var reg', child := NewScope(reg, p), |reg.parents|;
    forall c, n: nat, x |
      0 <= c < |reg'.nodes| && CtorNode(n) in reg'.nodes[c] && n < |reg'.ctors| &&
      x in ListGroupLeaves(reg'.ctors[n].params)
      ensures GroupOrdered(reg', x, c) && (c == reg'.ctors[n].scope ==> Place(GroupNode(x.id), c) in reg'.orders)
    {
      var c0 := if c < child then c else p;
      assert reg'.nodes[c] == reg.nodes[c0];
      assert GroupOrdered(reg, x, c0);
      NewScopePlaced(reg, p, GroupNode(x.id), c);
      assert Within(reg, reg.ctors[n].scope, c0);
      PathGoesUp(reg, c0, reg.ctors[n].scope);
      assert Place(GroupNode(x.id), c0).scope < |reg.parents|;
    }
  }

  lemma NewScopeKeepsLists(reg: Registry, p: nat)
    requires TreeOk(reg) && p < |reg.parents| && OrdersScoped(reg)
    requires ProvidersListed(reg) && ProvidersPlaced(reg) && ProvidersApart(reg)
    ensures ProvidersListed(NewScope(reg, p)) && ProvidersPlaced(NewScope(reg, p)) && ProvidersApart(NewScope(reg, p))
  {
    NewScopeKeepsPlaced(reg, p);
    hide TreeOk, OrdersScoped, ProvidersPlaced;
    var reg' := NewScope(reg, p);
    forall slot, n | n in Listed(reg'.providers, slot)
      ensures ListedOk(reg', slot, n)
    {
      assert ListedOk(reg, slot, n);
    }
    assert forall k, n :: SingleFor(reg', k, n) == SingleFor(reg, k, n);
  }

  lemma NewScopeKeepsPlaced(reg: Registry, p: nat)
    requires TreeOk(reg) && p < |reg.parents| && OrdersScoped(reg) && ProvidersListed(reg) && ProvidersPlaced(reg)
    ensures ProvidersPlaced(NewScope(reg, p))
  {
    NewScopePaths(reg, p);
    var reg', child := NewScope(reg, p), |reg.parents|;
    hide OrdersScoped, Placed, TreeOk;
    forall slot, n, c: nat | n in Listed(reg'.providers, slot) && Within(reg', slot.scope, c)
      ensures Placed(reg', CtorNode(n), c)
    {
      assert ListedOk(reg, slot, n);
      var c0 := if c < child then c else p;
      assert Within(reg, slot.scope, c0);
      assert Placed(reg, CtorNode(n), c0);
      NewScopePlaced(reg, p, CtorNode(n), c0);
    }
  }

  lemma NewScopeKeepsListed(reg: Registry, p: nat)
    requires Sized(reg) && p < |reg.parents| && CtorsListed(reg)
    ensures CtorsListed(NewScope(reg, p))
  {
    NewScopePaths(reg, p);
    var reg', child := NewScope(reg, p), |reg.parents|;
    forall c, n: nat | 0 <= c < |reg'.nodes| && CtorNode(n) in reg'.nodes[c]
      ensures n < |reg'.ctors| && Within(reg', reg'.ctors[n].scope, c)
      ensures reg'.ctors[n].results.Valid() && KeysOfCtor(reg'.ctors[n]) != {}
      ensures forall k :: k in KeysOfCtor(reg'.ctors[n]) ==> n in reg'.Providers(reg'.ctors[n].scope, k)
    {
      var c0 := if c < child then c else p;
      assert CtorNode(n) in reg.nodes[c0];
      assert Within(reg, reg.ctors[n].scope, c0);
    }
  }

  lemma NewScopeKeepsTables(reg: Registry, p: nat)
    requires Tables(reg) && p < |reg.parents|
    ensures Tables(NewScope(reg, p))
  {
    hide NodesNumbered, CtorsOrdered, GroupsOrdered, ProvidersListed, ProvidersPlaced, CtorsListed, ProvidersApart;
    NewScopeTree(reg, p);
    NewScopeOrders(reg, p);
    NewScopeKeepsNodes(reg, p);
    NewScopeKeepsGroups(reg, p);
    NewScopeKeepsLists(reg, p);
    NewScopeKeepsListed(reg, p);
  }

  lemma NewScopeKeepsGraph(reg: Registry, p: nat, c: nat)
    requires Tables(reg) && p < |reg.parents| && c < |reg.parents| && NodesNumbered(NewScope(reg, p))
    ensures GraphOf(NewScope(reg, p), c) == GraphOf(reg, c)
  {
    var reg' := NewScope(reg, p);
    NewScopePaths(reg, p);
    NewScopeOrders(reg, p);
    forall x | Numbered(reg, x)
      ensures reg'.Order(x, c) == reg.Order(x, c)
    {
      assert Place(x, c).scope < |reg.parents|;
    }
    GraphKept(reg, reg', c);
  }

  /** A new child scope keeps the invariant. */
  lemma NewScopeKeepsInv(reg: Registry, p: nat)
    requires Inv(reg) && p < |reg.parents|
    ensures Inv(NewScope(reg, p))
  {
    NewScopeKeepsTables(reg, p);
    var reg', child := NewScope(reg, p), |reg.parents|;
    forall c | 0 <= c < |reg'.nodes| && (reg'.verified[c] || (!reg'.deferred[c] && exists k :: Provides(reg', c, k)))
      ensures IsDag(GraphOf(reg', c))
    {
      if c < child {
        NewScopeKeepsGraph(reg, p, c);
        if !reg'.verified[c] {
          var k :| Provides(reg', c, k);
          assert Provides(reg, c, k);
        }
      } else {
        NothingProvidedYet(reg, p);
      }
    }
  }

  lemma NothingProvidedYet(reg: Registry, p: nat)
    requires ProvidersListed(reg) && Sized(reg) && p < |reg.parents|
    ensures forall k :: !Provides(NewScope(reg, p), |reg.parents|, k)
  {
    forall k ensures !Provides(NewScope(reg, p), |reg.parents|, k) {
      HeadIsMember(Listed(reg.providers, Slot(|reg.parents|, k)));
    }
  }

  // Decorate

  datatype DecorateOutcome = Decorated | RefusedParam | RefusedResult | NotASlice | AlreadyDecorated

  /** The loop of Scope.Decorate: keys are inserted up to the first that is decorated already. */
  function Insert(reg: Registry, s: nat, d: nat, keys: seq<Key>): (r: (bool, Registry))
    ensures r.1 == reg.(decorators := r.1.decorators)
    decreases |keys|
  {
    if keys == [] then (true, reg)
    else if Slot(s, keys[0]) in reg.decorators then (false, reg)
    else Insert(reg.(decorators := reg.decorators[Slot(s, keys[0]) := d]), s, d, keys[1..])
  }

  /** Scope.Decorate. Nothing is undone when it fails. */
  function Decorate(reg: Registry, s: nat, specs: seq<ParamSpec>, ds: seq<Declared>): (r: (DecorateOutcome, Registry))
    requires |reg.nodes| == |reg.parents|
  {
    var (ps, reg1) := NewParams(reg, s, specs);
    var rl := ListOf(ds);
    if ps.None? then (RefusedParam, reg1)
    else if rl.None? then (RefusedResult, reg1)
    else if SearchKeys(rl.value.results).None? then (NotASlice, reg1)
    else
      var reg2 := reg1.(decos := reg1.decos + [Decorator(ps.value, rl.value, s)]);
      var (ok, reg3) := Insert(reg2, s, |reg1.decos|, SearchKeys(rl.value.results).value);
      (if ok then Decorated else AlreadyDecorated, reg3)
  }

  function KeysOfDecorator(deco: Decorator): set<Key> {
    set k | k in AllLeafKeys(deco.results.results)
  }

  /** Decorate keeps the invariant even when it fails. */
  lemma DecorateKeepsInv(reg: Registry, s: nat, specs: seq<ParamSpec>, ds: seq<Declared>)
    requires Inv(reg)
    ensures Inv(Decorate(reg, s, specs, ds).1)
  {
    var (ps, reg1) := NewParams(reg, s, specs);
    NewParamsGrow(reg, s, specs);
    GroupGrowthKeepsInv(reg, reg1, s);
    var reg2 := Decorate(reg, s, specs, ds).1;
    FlagsChangeKeepsTables(reg1, reg2);
    forall c | 0 <= c < |reg2.nodes| && (reg2.verified[c] || (!reg2.deferred[c] && exists k :: Provides(reg2, c, k)))
      ensures IsDag(GraphOf(reg2, c))
    {
      FlagsFrame(reg1, reg2, c);
      if !reg2.verified[c] {
        var k :| Provides(reg2, c, k);
        assert Provides(reg1, c, k);
      }
    }
  }

  /** A registered decorator belongs to the scope it is registered in, and decorates the key. */
  ghost predicate DecoratorsListed(reg: Registry) {
    forall slot :: slot in reg.decorators ==>
      && reg.decorators[slot] < |reg.decos|
      && reg.decos[reg.decorators[slot]].scope == slot.scope
      && reg.decos[reg.decorators[slot]].results.Valid()
      && AllDecorating(reg.decos[reg.decorators[slot]].results.results)
      && slot.key in KeysOfDecorator(reg.decos[reg.decorators[slot]])
  }

  /** A registered decorator is registered for all its keys. */
  ghost predicate DecoratorsWhole(reg: Registry)
    requires DecoratorsListed(reg)
  {
    forall slot, k :: slot in reg.decorators && k in KeysOfDecorator(reg.decos[reg.decorators[slot]]) ==>
      Slot(slot.scope, k) in reg.decorators && reg.decorators[Slot(slot.scope, k)] == reg.decorators[slot]
  }

  /** What the insertion loop does, slot by slot */
  lemma {:induction false} InsertInserts(reg: Registry, s: nat, d: nat, keys: seq<Key>)
    ensures var (ok, reg') := Insert(reg, s, d, keys);
            && (forall slot :: slot in reg.decorators ==>
                  slot in reg'.decorators && reg'.decorators[slot] == reg.decorators[slot])
            && (forall slot :: slot in reg'.decorators && slot !in reg.decorators ==>
                  slot.scope == s && slot.key in keys && reg'.decorators[slot] == d)
            && (ok ==> forall k :: k in keys ==> Slot(s, k) in reg'.decorators && reg'.decorators[Slot(s, k)] == d)
    decreases |keys|
  {
    if keys != [] && Slot(s, keys[0]) !in reg.decorators {
      InsertInserts(reg.(decorators := reg.decorators[Slot(s, keys[0]) := d]), s, d, keys[1..]);
    }
  }

  /** The decorator tables stay in order; a Decorate that finds a key decorated already is the only step that
      leaves a decorator registered for some of its keys only. */
  lemma DecorateKeepsDecorators(reg: Registry, s: nat, specs: seq<ParamSpec>, ds: seq<Declared>)
    requires |reg.nodes| == |reg.parents| && DecoratorsListed(reg)
    ensures DecoratorsListed(Decorate(reg, s, specs, ds).1)
    ensures DecoratorsWhole(reg) && Decorate(reg, s, specs, ds).0 != AlreadyDecorated ==>
            DecoratorsWhole(Decorate(reg, s, specs, ds).1)
  {
    hide Grown, AllDecorating, AllLeafKeys, SearchKeys;
    var (ps, reg1) := NewParams(reg, s, specs);
    NewParamsGrow(reg, s, specs);
    GrownFields(reg, reg1, s);
    var rl := ListOf(ds);
    if ps.Some? && rl.Some? && SearchKeys(rl.value.results).Some? {
      var deco := Decorator(ps.value, rl.value, s);
      var keys := SearchKeys(rl.value.results).value;
      var reg2 := reg1.(decos := reg1.decos + [deco]);
      InsertInserts(reg2, s, |reg1.decos|, keys);
      SearchFindsLeaves(rl.value.results);
      PositionsCover(ds);
      assert forall k :: k in keys <==> k in multiset(keys);
      InsertKeepsDecorators(reg, reg2, Insert(reg2, s, |reg1.decos|, keys).1, deco);
    }
  }

  lemma InsertKeepsDecorators(reg: Registry, reg2: Registry, reg3: Registry, deco: Decorator)
    requires DecoratorsListed(reg) && reg2.decos == reg.decos + [deco] && reg2.decorators == reg.decorators
    requires reg3.decos == reg2.decos
    requires deco.results.Valid() && AllDecorating(deco.results.results)
    requires forall slot :: slot in reg2.decorators ==>
             slot in reg3.decorators && reg3.decorators[slot] == reg2.decorators[slot]
    requires forall slot :: slot in reg3.decorators && slot !in reg2.decorators ==>
               slot.scope == deco.scope && slot.key in KeysOfDecorator(deco) && reg3.decorators[slot] == |reg.decos|
    ensures DecoratorsListed(reg3)
    ensures DecoratorsWhole(reg) && (forall k :: k in KeysOfDecorator(deco) ==>
                Slot(deco.scope, k) in reg3.decorators && reg3.decorators[Slot(deco.scope, k)] == |reg.decos|)
            ==> DecoratorsWhole(reg3)
  {
    forall slot | slot in reg3.decorators
      ensures reg3.decorators[slot] < |reg3.decos|
      ensures if slot in reg.decorators
              then reg3.decorators[slot] == reg.decorators[slot]
                   && reg3.decos[reg3.decorators[slot]] == reg.decos[reg.decorators[slot]]
              else reg3.decos[reg3.decorators[slot]] == deco
    {}
  }
}
