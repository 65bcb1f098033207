/** A check that is deferred, and a scope that is younger than a group parameter: a run after which the check passes
    although the constructors call each other in a circle. */
module Deferral {
  import opened Values
  import opened ResultTree
  import opened Registry
  import opened Registration
  import opened RegistrationInvariant
  import opened RegistrationSteps
  import opened Resolver
  import opened Coverage
  import opened Runs
  import opened Scenario
  import opened Digraph

  const Elem := Key(Plain(9), "", "group")
  const Items := Key(SliceOf(0, Plain(9)), "", "group")

  /** A value for the group */
  const Member := ObjectResult([ResultField(0, GroupedResult("group", Plain(9), false, []))])

  const First := Ctor([], Only(Single(Named(0))), 0, 0)
  const Consumer := Ctor([ObjectParam([ParamField(0, GroupParam(0, Elem, Items, false))])], Only(Single(Named(1))), 0,
                         0)
  const Feeder := Ctor([SingleParam(Named(1), false)], Only(Member), 0, 0)

  const AddFirst := ProvideOp(0, false, [], [DeclaredResult(Single(Named(0)))])
  const AddConsumer := ProvideOp(
    0, false, [ObjectSpec([FieldSpec(0, GroupSpec(Elem, Items, false))])], [DeclaredResult(Single(Named(1)))])
  const AddFeeder := ProvideOp(0, false, [SingleSpec(Named(1), false)], [DeclaredResult(Member)])
  const AddRefused := ProvideOp(0, false, [Unusable], [])

  /** In the root: a constructor, and one that consumes the group; then a child scope is made; then in the root a
      constructor that feeds the group from the value of the second, and one that is refused for its parameter; then a
      function without parameters is invoked in the child. */
  const DeferredOps := [AddFirst, AddConsumer, ScopeOp(0), AddFeeder, AddRefused, InvokeOp(1, [], false)]

  // ---------------------------------------------------------------------------------------------
  // What each operation leaves

  const Stage1 := Registry(
    [None], [[]], [true], [false], [[CtorNode(0)]], [0],
    map[Place(CtorNode(0), 0) := 0], map[Slot(0, Named(0)) := [0]], map[], [First], [], [])

  const Stage2 := Registry(
    [None], [[]], [true], [false], [[CtorNode(0), GroupNode(0), CtorNode(1)]], [1],
    map[Place(CtorNode(0), 0) := 0, Place(GroupNode(0), 0) := 1, Place(CtorNode(1), 0) := 2],
    map[Slot(0, Named(0)) := [0], Slot(0, Named(1)) := [1]], map[], [First, Consumer], [], [Elem])

  /** The child has copies of the nodes of its parent, and of the places of the constructors. */
  const Stage3 := Registry(
    [None, Some(0)], [[1], []], [true, true], [false, false],
    [[CtorNode(0), GroupNode(0), CtorNode(1)], [CtorNode(0), GroupNode(0), CtorNode(1)]], [1, -1],
    map[Place(CtorNode(0), 0) := 0, Place(GroupNode(0), 0) := 1, Place(CtorNode(1), 0) := 2,
        Place(CtorNode(0), 1) := 0, Place(CtorNode(1), 1) := 2],
    map[Slot(0, Named(0)) := [0], Slot(0, Named(1)) := [1]], map[], [First, Consumer], [], [Elem])

  const Stage4 := Registry(
    [None, Some(0)], [[1], []], [true, true], [false, false],
    [[CtorNode(0), GroupNode(0), CtorNode(1), CtorNode(2)], [CtorNode(0), GroupNode(0), CtorNode(1), CtorNode(2)]],
    [3, 3],
    map[Place(CtorNode(0), 0) := 0, Place(GroupNode(0), 0) := 1, Place(CtorNode(1), 0) := 2, Place(CtorNode(2), 0) := 3,
        Place(CtorNode(0), 1) := 0, Place(CtorNode(1), 1) := 2, Place(CtorNode(2), 1) := 3],
    map[Slot(0, Named(0)) := [0], Slot(0, Named(1)) := [1], Slot(0, Elem) := [2]],
    map[], [First, Consumer, Feeder], [], [Elem])

  const Stage5 := Stage4.(snaps := [-1, -1])

  const Deferred := Stage5.(verified := [false, true])

  // ---------------------------------------------------------------------------------------------
  // Provide while the check is deferred

  ghost predicate Waiting(reg: Registry) {
    && (forall c :: 0 <= c < |reg.deferred| ==> reg.deferred[c])
    && (forall c :: 0 <= c < |reg.verified| ==> !reg.verified[c])
  }

  lemma {:induction false} NothingChecked(reg: Registry, cs: seq<nat>)
    requires Sized(reg) && NodesNumbered(reg) && Waiting(reg) && forall c :: c in cs ==> c < |reg.parents|
    ensures CheckScopes(reg, cs) == (None, reg)
    decreases |cs|
  {
    if cs != [] {
      assert cs[0] in cs && forall c :: c in cs[1..] ==> c in cs;
      assert reg.verified[cs[0] := false] == reg.verified;
      NothingChecked(reg, cs[1..]);
    }
  }

  /** The constructor is numbered and listed, and that is all. */
  lemma {:induction false} ProvideWaits(reg: Registry, specs: seq<ParamSpec>, r: Result, ps: seq<Param>,
          reg1: Registry, k: Key)
    requires Good(reg) && Waiting(reg) && 0 < |reg.parents|
    requires NewParams(Snapshot(reg, 0), 0, specs) == (Some(ps), reg1)
    requires Entries(r) == [Entry(k, !k.IsGroup())] && !Provides(reg, 0, k)
    ensures var op := ProvideOp(0, false, specs, [DeclaredResult(r)]);
            && Clean(reg, op)
            && Step(reg, op) == List(NewCtor(reg1, 0, Ctor(ps, Only(r), 0, 0)), 0, {k}, |reg1.ctors|)
  {
    hide Inv, DecoratorsListed, GraphOf, IsDag, Grown, List, NewCtor, Provides, NoConflict;
    var op := ProvideOp(0, false, specs, [DeclaredResult(r)]);
    var ctor := Ctor(ps, Only(r), 0, 0);
    InvFacts(reg);
    OnlyDeclares(r);
    OneIsAcceptable(reg, r, k);
    NewParamsGrow(Snapshot(reg, 0), 0, specs);
    NewCtorGrows(reg1, 0, ctor);
    CheckWaits(reg, reg1, NewCtor(reg1, 0, ctor), ctor);
    ProvideForeseen(reg, 0, false, specs, op.results);
  }

  lemma {:induction false} OneIsAcceptable(reg: Registry, r: Result, k: Key)
    requires Entries(r) == [Entry(k, !k.IsGroup())] && !Provides(reg, 0, k)
    ensures Acceptable(reg, 0, Entries(r)) && KeysOf(Entries(r)) == {k}
  {
    assert Entries(r)[..0] == [];
  }

  lemma CheckWaits(reg: Registry, reg1: Registry, reg2: Registry, ctor: Ctor)
    requires TreeOk(reg) && NodesNumbered(reg) && Waiting(reg) && ctor.scope < |reg.parents|
    requires Grown(Snapshot(reg, ctor.scope), reg1, ctor.scope) && Grown(reg1, reg2, ctor.scope)
    ensures Check(reg, reg1, reg2, ctor) == (Provided, List(reg2, ctor.scope, KeysOfCtor(ctor), |reg1.ctors|))
  {
    hide Grown, GraphOf, IsDag, KeysOfCtor, NodesNumbered;
    var t := ctor.scope;
    var reg3 := List(reg2, t, KeysOfCtor(ctor), |reg1.ctors|);
    ListedSized(reg, reg1, reg2, reg3, t);
    WaitingStays(reg, reg1, reg2, reg3, t);
    forall c | c in Subscopes(reg, t) ensures c < |reg.parents| { SubscopesMembers(reg, t, c); }
    NothingChecked(reg3, Subscopes(reg, t));
  }

  lemma WaitingStays(reg: Registry, reg1: Registry, reg2: Registry, reg3: Registry, t: nat)
    requires |reg.nodes| == |reg.parents| == |reg.snaps| && Waiting(reg)
    requires Grown(Snapshot(reg, t), reg1, t) && Grown(reg1, reg2, t) && reg3 == reg2.(providers := reg3.providers)
    ensures Waiting(reg3)
  {}

  // ---------------------------------------------------------------------------------------------
  // The run

  lemma Paths()
    ensures Ancestors([None], 0) == [0]
    ensures Ancestors([None, Some(0)], 0) == [0] && Ancestors([None, Some(0)], 1) == [1, 0]
  {
    var parents: seq<Option<nat>> := [None, Some(0)];
    assert Ancestors(parents, 0) == [0];
  }

  const Alone: seq<Option<nat>> := [None]
  const Pair: seq<Option<nat>> := [None, Some(0)]

  lemma Snap(reg: Registry)
    requires |reg.nodes| == |reg.parents| == |reg.snaps|
    ensures reg.parents == Alone ==> Snapshot(reg, 0) == reg.(snaps := [|reg.nodes[0]|])
    ensures reg.parents == Pair ==> Snapshot(reg, 0) == reg.(snaps := [|reg.nodes[0]|, |reg.nodes[1]|])
  {
    Paths();
  }

  lemma AddToAlone(reg: Registry, x: Node)
    requires |reg.nodes| == |reg.parents| && reg.parents == Alone
    ensures AddNode(reg, 0, x)
         == reg.(nodes := [reg.nodes[0] + [x]], orders := reg.orders[Place(x, 0) := |reg.nodes[0]|])
  {
    Paths();
    var reg' := AddNode(reg, 0, x);
    assert reg'.nodes == [reg.nodes[0] + [x]];
    assert reg'.orders == reg.orders[Place(x, 0) := |reg.nodes[0]|];
  }

  lemma WithinPair(reg: Registry, c: nat)
    requires reg.parents == Pair
    ensures Within(reg, 0, c) <==> c < 2
  {
    Paths();
  }

  lemma AddToPair(reg: Registry, x: Node)
    requires |reg.nodes| == |reg.parents| && reg.parents == Pair && forall c :: Place(x, c) !in reg.orders
    ensures AddNode(reg, 0, x)
         == reg.(nodes := [reg.nodes[0] + [x], reg.nodes[1] + [x]],
                 orders := reg.orders[Place(x, 0) := |reg.nodes[0]|][Place(x, 1) := |reg.nodes[1]|])
  {
    hide Within, AddNode;
    var reg' := AddNode(reg, 0, x);
    AddNodeAdds(reg, 0, x);
    WithinPair(reg, 0);
    WithinPair(reg, 1);
    assert reg'.nodes == [reg.nodes[0] + [x], reg.nodes[1] + [x]];
    var orders := reg.orders[Place(x, 0) := |reg.nodes[0]|][Place(x, 1) := |reg.nodes[1]|];
    forall place
      ensures place in reg'.orders <==> place in orders
      ensures place in orders ==> reg'.orders[place] == orders[place]
    {
      if place.node == x { assert place == Place(x, place.scope); }
    }
    assert reg'.orders == orders;
  }

  lemma ListOne(reg: Registry, k: Key, n: nat)
    requires reg.Providers(0, k) == []
    ensures List(reg, 0, {k}, n) == reg.(providers := reg.providers[Slot(0, k) := [n]])
  {
    var added := map k' | k' in {k} :: Slot(0, k') := reg.Providers(0, k') + [n];
    assert Slot(0, k) in added && added[Slot(0, k)] == [n];
    assert added == map[Slot(0, k) := [n]];
  }

  lemma RollbackPair(reg: Registry)
    requires |reg.nodes| == |reg.parents| == |reg.snaps| && reg.parents == Pair
    ensures Rollback(Snapshot(reg, 0), 0) == reg.(snaps := [-1, -1])
  {
    hide Snapshot;
    Paths();
    Snap(reg);
    var reg' := Rollback(Snapshot(reg, 0), 0);
    forall c | 0 <= c < 2
      ensures reg'.nodes[c] == reg.nodes[c]
    {
      assert reg.nodes[c][..|reg.nodes[c]|] == reg.nodes[c];
    }
    assert reg'.nodes == reg.nodes && reg'.snaps == [-1, -1];
  }

  lemma Stage1Is()
    ensures List(NewCtor(Snapshot(NewContainer(true), 0), 0, First), 0, {Named(0)}, 0) == Stage1
  {
    hide Snapshot, AddNode, List;
    Snap(NewContainer(true));
    var reg := Snapshot(NewContainer(true), 0);
    AddToAlone(reg.(ctors := reg.ctors + [First]), CtorNode(0));
    var reg' := NewCtor(reg, 0, First);
    assert reg'.nodes[0] == Stage1.nodes[0];
    assert reg'.nodes == Stage1.nodes && reg'.orders == Stage1.orders && reg'.ctors == Stage1.ctors;
    ListOne(reg', Named(0), 0);
    assert reg'.providers[Slot(0, Named(0)) := [0]] == Stage1.providers;
  }

  lemma ToStage1()
    ensures Reaches(true, [AddFirst], Stage1) && Good(Stage1)
  {
    hide Inv, DecoratorsListed, Clean, Step, List, NewCtor, Reaches;
    var reg := NewContainer(true);
    NewContainerIsGood(true);
    ReachNew(true);
    SingleEntry(Named(0));
    ProvideWaits(reg, [], Single(Named(0)), [], Snapshot(reg, 0), Named(0));
    Stage1Is();
    ReachNext(true, [], reg, AddFirst);
    StepKeepsGood(reg, AddFirst);
    assert [] + [AddFirst] == [AddFirst];
  }

  lemma ConsumerParams()
    ensures var reg1 := NewGroupNode(Snapshot(Stage1, 0), 0, Elem);
            && NewParams(Snapshot(Stage1, 0), 0, AddConsumer.specs) == (Some(Consumer.params), reg1)
            && reg1.ctors == Stage1.ctors
  {
    hide AddNode;
    var specs := AddConsumer.specs;
    var fields := specs[0].fields;
    assert specs[1..] == [] && fields[1..] == [];
    var reg0 := Snapshot(Stage1, 0);
    NewParamsGrow(reg0, 0, specs);
    var reg1 := NewGroupNode(reg0, 0, Elem);
    var p := GroupParam(0, Elem, Items, false);
    assert NewParam(reg0, 0, fields[0].spec) == (Some(p), reg1);
    assert NewFields(reg1, 0, []) == (Some([]), reg1);
    assert NewFields(reg0, 0, fields) == (Some([ParamField(0, p)] + []), reg1);
    assert [ParamField(0, p)] + [] == [ParamField(0, p)];
    assert NewParams(reg1, 0, []) == (Some([]), reg1);
    assert Consumer.params + [] == Consumer.params;
  }

  lemma Stage2Is()
    ensures List(NewCtor(NewGroupNode(Snapshot(Stage1, 0), 0, Elem), 0, Consumer), 0, {Named(1)}, 1) == Stage2
  {
    hide Snapshot, AddNode, List;
    Snap(Stage1);
    var reg := Snapshot(Stage1, 0);
    AddToAlone(reg.(groupKeys := reg.groupKeys + [Elem]), GroupNode(0));
    var reg1 := NewGroupNode(reg, 0, Elem);
    AddToAlone(reg1.(ctors := reg1.ctors + [Consumer]), CtorNode(1));
    var reg' := NewCtor(reg1, 0, Consumer);
    assert reg'.nodes[0] == Stage2.nodes[0];
    assert reg'.nodes == Stage2.nodes && reg'.orders == Stage2.orders;
    assert reg'.ctors == Stage2.ctors && reg'.groupKeys == Stage2.groupKeys;
    ListOne(reg', Named(1), 1);
    assert reg'.providers[Slot(0, Named(1)) := [1]] == Stage2.providers;
  }

  lemma ToStage2()
    ensures Reaches(true, [AddFirst, AddConsumer], Stage2) && Good(Stage2)
  {
    hide Inv, DecoratorsListed, Clean, Step, List, NewCtor, NewGroupNode, NewParams, Reaches;
    ToStage1();
    SingleEntry(Named(1));
    ConsumerParams();
    ProvideWaits(Stage1, AddConsumer.specs, Single(Named(1)), Consumer.params,
                 NewGroupNode(Snapshot(Stage1, 0), 0, Elem), Named(1));
    Stage2Is();
    ReachNext(true, [AddFirst], Stage1, AddConsumer);
    StepKeepsGood(Stage1, AddConsumer);
    assert [AddFirst] + [AddConsumer] == [AddFirst, AddConsumer];
  }

  lemma ChildScoped(reg: Registry)
    requires reg == Stage2
    ensures |NewScope(reg, 0).parents| == 2 && Sized(reg) && OrdersScoped(reg)
    ensures reg.Order(CtorNode(0), 0) == 0 && reg.Order(CtorNode(1), 0) == 2
    ensures forall x :: x in reg.nodes[0] <==> x in {CtorNode(0), GroupNode(0), CtorNode(1)}
  {}

  lemma ChildOrders(reg: Registry)
    requires reg == Stage2
    ensures NewScope(reg, 0).orders == Stage3.orders
  {
    hide NewScope, Registry.Order;
    var orders := NewScope(reg, 0).orders;
    ChildScoped(reg);
    NewScopeOrders(reg, 0);
    forall place
      ensures place in orders <==> place in Stage3.orders
      ensures place in orders ==> orders[place] == Stage3.orders[place]
    {
      assert place == Place(place.node, place.scope);
    }
  }

  lemma Stage3Is()
    ensures NewScope(Stage2, 0) == Stage3
  {
    hide Registry.Order;
    ChildOrders(Stage2);
    var reg := NewScope(Stage2, 0);
    assert reg.children[0] == Stage3.children[0];
    assert reg.children == Stage3.children;
  }

  lemma ToStage3()
    ensures Reaches(true, DeferredOps[..3], Stage3) && Good(Stage3)
  {
    hide Inv, DecoratorsListed, NewScope, Reaches;
    ToStage2();
    Stage3Is();
    ReachNext(true, [AddFirst, AddConsumer], Stage2, ScopeOp(0));
    StepKeepsGood(Stage2, ScopeOp(0));
    assert [AddFirst, AddConsumer] + [ScopeOp(0)] == DeferredOps[..3];
  }

  lemma Stage4Is()
    ensures List(NewCtor(Snapshot(Stage3, 0), 0, Feeder), 0, {Elem}, 2) == Stage4
  {
    hide Snapshot, AddNode, List;
    Snap(Stage3);
    var reg := Snapshot(Stage3, 0);
    AddToPair(reg.(ctors := reg.ctors + [Feeder]), CtorNode(2));
    var reg' := NewCtor(reg, 0, Feeder);
    assert reg'.nodes[0] == Stage4.nodes[0] && reg'.nodes[1] == Stage4.nodes[1];
    assert reg'.nodes == Stage4.nodes && reg'.orders == Stage4.orders && reg'.ctors == Stage4.ctors;
    ListOne(reg', Elem, 2);
    assert reg'.providers[Slot(0, Elem) := [2]] == Stage4.providers;
  }

  lemma MemberEntry()
    ensures Entries(Member) == [Entry(Elem, false)]
  {
    var fields := Member.fields;
    assert fields[1..] == [];
    assert FieldEntries(fields) == Entries(fields[0].result);
  }

  lemma FeederParams()
    ensures NewParams(Snapshot(Stage3, 0), 0, AddFeeder.specs) == (Some(Feeder.params), Snapshot(Stage3, 0))
  {
    assert AddFeeder.specs[1..] == [];
    assert NewParams(Snapshot(Stage3, 0), 0, []) == (Some([]), Snapshot(Stage3, 0));
    assert Feeder.params + [] == Feeder.params;
  }

  lemma ToStage4()
    ensures Reaches(true, DeferredOps[..4], Stage4) && Good(Stage4)
  {
    hide Inv, DecoratorsListed, Clean, Step, List, NewCtor, NewParams, Reaches, Entries;
    ToStage3();
    MemberEntry();
    FeederParams();
    ProvideWaits(Stage3, AddFeeder.specs, Member, Feeder.params, Snapshot(Stage3, 0), Elem);
    Stage4Is();
    ReachNext(true, DeferredOps[..3], Stage3, AddFeeder);
    StepKeepsGood(Stage3, AddFeeder);
    assert DeferredOps[..3] + [AddFeeder] == DeferredOps[..4];
  }

  /** The Provide that is refused leaves no snapshot. */
  lemma Stage5Is()
    requires Good(Stage4)
    ensures Clean(Stage4, AddRefused) && Step(Stage4, AddRefused) == Stage5
  {
    hide Inv, DecoratorsListed, Rollback, Snapshot, Check;
    InvFacts(Stage4);
    RollbackPair(Stage4);
  }

  lemma ToStage5()
    ensures Reaches(true, DeferredOps[..5], Stage5) && Good(Stage5)
  {
    hide Inv, DecoratorsListed, Reaches, Clean, Step;
    ToStage4();
    Stage5Is();
    ReachNext(true, DeferredOps[..4], Stage4, AddRefused);
    StepKeepsGood(Stage4, AddRefused);
    assert DeferredOps[..4] + [AddRefused] == DeferredOps[..5];
  }

  // ---------------------------------------------------------------------------------------------
  // What the child sees

  lemma DeferredProviders(k: Key)
    ensures Stage5.AllProviders(1, k) == Stage5.Providers(0, k)
  {
    var reg := Stage5;
    Paths();
    assert [1, 0][1..] == [0] && [0][1..] == [];
    assert reg.ProvidersOn([0], k) == reg.Providers(0, k) + reg.ProvidersOn([0][1..], k);
    assert reg.Providers(1, k) == [];
    assert reg.ProvidersOn([1, 0], k) == reg.Providers(1, k) + reg.ProvidersOn([1, 0][1..], k);
  }

  lemma DeferredEdges()
    ensures NodesNumbered(Stage5) && GraphOf(Stage5, 1) == [[], [3], [0], [2]]
  {
    hide Registry.AllProviders;
    var reg := Stage5;
    DeferredProviders(Elem);
    DeferredProviders(Named(1));
    var p1 := reg.ctors[1].params;
    assert p1[1..] == [] && p1[0].fields[1..] == [];
    assert FieldOrders(reg, p1[0].fields, 1) == [0];
    assert ListOrders(reg, p1, 1) == [0];
    var p2 := reg.ctors[2].params;
    assert p2[1..] == [];
    assert ListOrders(reg, p2, 1) == CtorOrders(reg, [1], 1) == [2];
    assert EdgesOf(reg, GroupNode(0), 1) == CtorOrders(reg, [2], 1) == [3];
    assert EdgesOf(reg, CtorNode(0), 1) == [];
  }

  lemma DeferredRanks(g: Graph)
    requires g == [[], [3], [0], [2]]
    ensures IsDag(g)
  {
    assert Ranks(g, [0, 3, 1, 2]);
  }

  lemma DeferredIsDag()
    ensures NodesNumbered(Stage5) && IsDag(GraphOf(Stage5, 1))
    ensures NodesNumbered(Deferred) && IsDag(GraphOf(Deferred, 1))
  {
    hide GraphOf, IsDag;
    DeferredEdges();
    DeferredRanks(GraphOf(Stage5, 1));
    FlagsFrame(Stage5, Deferred, 1);
  }

  lemma DeferredIsReached()
    ensures Reaches(true, DeferredOps, Deferred)
  {
    hide Inv, DecoratorsListed, Reaches, GraphOf, IsDag;
    ToStage5();
    DeferredIsDag();
    assert Step(Stage5, InvokeOp(1, [], false)) == Deferred;
    ReachNext(true, DeferredOps[..5], Stage5, InvokeOp(1, [], false));
    assert DeferredOps[..5] + [InvokeOp(1, [], false)] == DeferredOps;
  }

  lemma DeferredGroupUnknown()
    ensures !GroupsKnown(Deferred, 1, 1)
  {
    var fields := Deferred.ctors[1].params[0].fields;
    assert GroupLeaf(0, Elem) in GroupLeaves(fields[0].param);
    assert GroupLeaf(0, Elem) in FieldGroupLeaves(fields);
    assert GroupLeaf(0, Elem) in ListGroupLeaves(Deferred.ctors[1].params);
  }

  lemma DeferredCircle(e: Env)
    requires e.reg == Deferred && 0 in e.scopes
    ensures !e.Closed()
  {
    var reg := Deferred;
    Paths();
    forall k ensures reg.AllProviders(0, k) == reg.Providers(0, k) {
      assert reg.ProvidersOn([0], k) == reg.Providers(0, k) + reg.ProvidersOn([0][1..], k);
    }
    assert Elem in ListLeaves(reg.ctors[1].params) by {
      var fields := reg.ctors[1].params[0].fields;
      assert Elem in Leaves(fields[0].param);
      assert Elem in FieldLeaves(fields);
    }
    assert Named(1) in ListLeaves(reg.ctors[2].params);
    assert 2 in reg.AllProviders(0, Elem) && 1 in reg.AllProviders(0, Named(1));
  }

  /** After this run, which keeps the invariant, the child is flagged as verified: its graph, which has order 0 for the
      group parameter, has no cycle. But the constructors call each other in a circle, so that nothing ranks callers
      above what they call. */
  lemma DeferredCheckMissesCycle()
    ensures CleanHistory(true, DeferredOps) && History(true, DeferredOps) == Deferred && Good(Deferred)
    ensures Deferred.verified[1] && NodesNumbered(Deferred) && IsDag(GraphOf(Deferred, 1))
    ensures !GroupsKnown(Deferred, 1, 1)
    ensures forall e: Env :: e.reg == Deferred && 0 in e.scopes ==> !e.Closed()
  {
    hide CleanHistory, History, Good, GraphOf, IsDag, Env.Closed, GroupsKnown, NodesNumbered;
    DeferredIsReached();
    DeferredIsDag();
    DeferredGroupUnknown();
    forall e: Env | e.reg == Deferred && 0 in e.scopes ensures !e.Closed() {
      DeferredCircle(e);
    }
  }
}
