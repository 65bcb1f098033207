/** Scope.Invoke on a container: what it does to the tables and to the stores, and when the check for cycles that it
    makes is enough for it to come to an end. */
module Invocation {
  import opened Values
  import opened Registry
  import opened Registration
  import opened RegistrationInvariant
  import opened RegistrationSteps
  import opened Resolver
  import opened Runs
  import opened Coverage
  import opened Independence
  import opened Digraph
  import Sessions

  datatype InvokeOutcome = BadArguments | Cyclic | NotBuilt(error: Error) | Built(args: seq<Value>)

  ghost function Lookup(world: World, reg: Registry): Env {
    Env(world, reg, {}, map[], map[])
  }

  ghost function Verified(reg: Registry, c: nat): Registry
    requires c < |reg.verified|
  {
    reg.(verified := reg.verified[c := true])
  }

  // ---------------------------------------------------------------------------------------------
  // When the check is enough

  /** `e` ranks all that can be reached from scope `c`. */
  ghost predicate Views(e: Env, world: World, reg: Registry, c: nat) {
    e.world == world && e.reg == reg && e.Closed() && c in e.scopes
  }

  ghost predicate Rankable(world: World, reg: Registry, c: nat) {
    exists e :: Views(e, world, reg, c)
  }

  ghost function Viewed(world: World, reg: Registry, c: nat): (e: Env)
    requires Rankable(world, reg, c)
    ensures Views(e, world, reg, c)
  {
    var e :| Views(e, world, reg, c);
    e
  }

  /** If the check that an Invoke makes finds no cycle, then there is none in what the Invoke can reach. */
  ghost predicate Checked(world: World, reg: Registry, c: nat, specs: seq<ParamSpec>)
    requires Good(reg) && c < |reg.parents|
  {
    Refuses(reg, c, specs) || Rankable(world, NewParams(reg, c, specs).1, c)
  }

  /** The check that an Invoke makes finds a cycle. */
  ghost predicate Refuses(reg: Registry, c: nat, specs: seq<ParamSpec>)
    requires Good(reg) && c < |reg.parents|
  {
    InvokeIsSafe(reg, c, specs);
    !IsDag(GraphOf(NewParams(reg, c, specs).1, c))
  }

  /** What an Invoke from scope `c` does: to the tables, and to the stores. */
  ghost function InvokedFrom(world: World, reg: Registry, c: nat, specs: seq<ParamSpec>,
          st: Store): (InvokeOutcome, Registry, Store)
    requires Good(reg) && c < |reg.parents| && Checked(world, reg, c, specs)
  {
    InvokeIsSafe(reg, c, specs);
    var (ps, reg1) := NewParams(reg, c, specs);
    if ps.None? then (BadArguments, reg1, st)
    else if Lookup(world, reg1).MissingList(st, ps.value, c) != [] then
      (NotBuilt(MissingDependencies(MissingTypes(Lookup(world, reg1).MissingList(st, ps.value, c)))), reg1, st)
    else if Refuses(reg, c, specs) then (Cyclic, reg1, st)
    else
      VerifiedIsViewed(world, reg1, c);
      var (r, st1) := Sessions.Invoke(Viewed(world, Verified(reg1, c), c), ps.value, c, st);
      (OutcomeOf(r), Verified(reg1, c), st1)
  }

  function OutcomeOf(r: Try<seq<Value>>): InvokeOutcome {
    if r.Fail? then NotBuilt(r.error) else Built(r.value)
  }

  /** The tables that an Invoke meets after its parameters have been made */
  lemma {:induction false} InvokeIsSafe(reg: Registry, c: nat, specs: seq<ParamSpec>)
    requires Good(reg) && c < |reg.parents|
    ensures var reg1 := NewParams(reg, c, specs).1;
            && TreeOk(reg) && TreeOk(reg1) && NodesNumbered(reg1) && |reg1.verified| == |reg1.parents| == |reg.parents|
            && Good(reg1) && InRange(GraphOf(reg1, c)) && (reg1.verified[c] ==> IsDag(GraphOf(reg1, c)))
            && Alike(reg, reg1) && reg1.deferred == reg.deferred
  {
    var reg1 := NewParams(reg, c, specs).1;
    NewParamsGrow(reg, c, specs);
    GroupGrowthKeepsInv(reg, reg1, c);
    GrownFields(reg, reg1, c);
    hide Grown, CtorsOrdered, GroupsOrdered, ProvidersListed, ProvidersPlaced, CtorsListed, ProvidersApart,
         OrdersScoped;
    EdgesInRange(reg1, c);
  }

  lemma BelowMoves(a: Env, b: Env, ks: set<Key>, c: nat, level: nat)
    requires Alike(a.reg, b.reg) && a.rank == b.rank && a.Below(ks, c, level)
    ensures b.Below(ks, c, level)
  {
    forall k ensures b.reg.AllProviders(c, k) == a.reg.AllProviders(c, k) {
      ProvidersOnSame(a.reg, b.reg, a.reg.PathToRoot(c), k);
    }
  }

  lemma SameClosed(a: Env, b: Env)
    requires Alike(a.reg, b.reg) && a.scopes == b.scopes && a.rank == b.rank && a.Closed()
    ensures b.Closed()
  {
    hide Env.Below;
    forall s, k, n | s in b.scopes && n in b.reg.Providers(s, k)
      ensures n in b.rank
    {
      assert n in a.reg.Providers(s, k);
    }
    forall slot | slot in b.reg.decorators && slot.scope in b.scopes ensures b.reg.decorators[slot] < |b.reg.decos| {
      assert slot in a.reg.decorators;
    }
    forall n | n in b.rank ensures b.Below(ListLeaves(b.reg.ctors[n].params), b.reg.ctors[n].orig, b.rank[n]) {
      BelowMoves(a, b, ListLeaves(a.reg.ctors[n].params), a.reg.ctors[n].orig, a.rank[n]);
    }
  }

  lemma VerifiedIsViewed(world: World, reg1: Registry, c: nat)
    requires Good(reg1) && c < |reg1.parents| && IsDag(GraphOf(reg1, c)) && Rankable(world, reg1, c)
    ensures Good(Verified(reg1, c)) && TreeOk(Verified(reg1, c)) && Rankable(world, Verified(reg1, c), c)
  {
    hide Good, Rankable, TreeOk;
    VerifiedKeepsInv(reg1, c);
    GoodTree(reg1);
    VerifiedIsRankable(world, reg1, c);
  }

  lemma VerifiedIsRankable(world: World, reg1: Registry, c: nat)
    requires TreeOk(reg1) && c < |reg1.parents| && Rankable(world, reg1, c)
    ensures TreeOk(Verified(reg1, c)) && Rankable(world, Verified(reg1, c), c)
  {
    hide Env.Closed;
    var e := Viewed(world, reg1, c);
    var e' := e.(reg := Verified(reg1, c));
    SameClosed(e, e');
    assert Views(e', world, Verified(reg1, c), c);
  }

  lemma GoodTree(reg: Registry)
    requires Good(reg)
    ensures TreeOk(reg) && |reg.verified| == |reg.parents|
  {}

  lemma VerifiedKeepsInv(reg1: Registry, c: nat)
    requires Good(reg1) && c < |reg1.parents| && IsDag(GraphOf(reg1, c))
    ensures Good(Verified(reg1, c))
  {
    var reg2 := Verified(reg1, c);
    FlagsChangeKeepsTables(reg1, reg2);
    hide Tables;
    TablesFacts(reg1);
    TablesFacts(reg2);
    forall a | 0 <= a < |reg2.nodes| && (reg2.verified[a] || (!reg2.deferred[a] && exists k :: Provides(reg2, a, k)))
      ensures IsDag(GraphOf(reg2, a))
    {
      FlagsFrame(reg1, reg2, a);
      if !reg2.verified[a] {
        var k :| Provides(reg2, a, k);
        assert Provides(reg1, a, k);
      }
    }
  }

  /** The check is enough in a scope that sees no exported constructor and no group parameter older than itself. */
  lemma TractableIsChecked(world: World, reg: Registry, c: nat, specs: seq<ParamSpec>)
    requires Good(reg) && c < |reg.parents| && Tractable(reg, c)
    ensures Checked(world, reg, c, specs)
  {
    hide Good, GraphOf, IsDag, InRange, Grown, Tractable, SeenFrom;
    InvokeIsSafe(reg, c, specs);
    var reg1 := NewParams(reg, c, specs).1;
    if IsDag(GraphOf(reg1, c)) {
      NewParamsGrow(reg, c, specs);
      GoodTables(reg);
      GoodTables(reg1);
      GrownTractable(reg, reg1, c);
      AcyclicScopeCovers(world, reg1, c);
      SeenIsView(world, reg1, c);
    }
  }

  lemma SeenIsView(world: World, reg: Registry, c: nat)
    requires Tables(reg) && c < |reg.parents| && IsDag(GraphOf(reg, c))
    requires SeenFrom(world, reg, c).Closed() && c in SeenFrom(world, reg, c).scopes
    ensures Rankable(world, reg, c)
  {
    assert Views(SeenFrom(world, reg, c), world, reg, c);
  }

  lemma GoodTables(reg: Registry)
    requires Good(reg)
    ensures Tables(reg) && DecoratorsListed(reg)
  {}

  lemma GrownTractable(reg: Registry, reg1: Registry, c: nat)
    requires Tables(reg) && Grown(reg, reg1, c) && reg1.ctors == reg.ctors && Tractable(reg, c)
    ensures Tractable(reg1, c)
  {
    forall n: nat | CtorNode(n) in reg1.nodes[c] && n < |reg1.ctors|
      ensures reg1.ctors[n].orig == reg1.ctors[n].scope && GroupsKnown(reg1, n, c)
    {
      OnlyGroupsAdded(reg, reg1, c, c, n);
      forall x | x in ListGroupLeaves(reg.ctors[n].params) ensures Place(GroupNode(x.id), c) in reg1.orders {
        assert GroupOrdered(reg, x, c);
        assert Numbered(reg, Place(GroupNode(x.id), c).node);
      }
    }
  }

  /** It is enough in every scope where nothing is deferred and nothing exported: there all that can be reached is
      ranked already. */
  lemma DefaultIsChecked(world: World, reg: Registry, c: nat, specs: seq<ParamSpec>)
    requires Good(reg) && c < |reg.parents| && Default(reg)
    ensures Checked(world, reg, c, specs)
  {
    hide Good, GraphOf, IsDag, InRange, Grown, SeenFromAll, Default;
    InvokeIsSafe(reg, c, specs);
    var reg1 := NewParams(reg, c, specs).1;
    NewParamsGrow(reg, c, specs);
    GoodTables(reg);
    DefaultStays(reg, reg1, c);
    DefaultIsRankable(world, reg1, c);
  }

  lemma DefaultIsRankable(world: World, reg: Registry, c: nat)
    requires Good(reg) && Default(reg) && c < |reg.parents|
    ensures Rankable(world, reg, c)
  {
    hide Good, Default;
    DefaultCoversAllScopes(world, reg);
    AllSeenIsView(world, reg, c);
  }

  lemma AllSeenIsView(world: World, reg: Registry, c: nat)
    requires SeenFromAll(world, reg).Closed() && c in SeenFromAll(world, reg).scopes
    ensures Rankable(world, reg, c)
  {
    assert Views(SeenFromAll(world, reg), world, reg, c);
  }

  lemma DefaultStays(reg: Registry, reg1: Registry, c: nat)
    requires Tables(reg) && Grown(reg, reg1, c) && reg1.ctors == reg.ctors && Default(reg)
    ensures Default(reg1)
  {
    forall n: nat | Joined(reg1, n) ensures reg1.ctors[n].orig == reg1.ctors[n].scope {
      OnlyGroupsAdded(reg, reg1, c, reg1.ctors[n].scope, n);
    }
  }

  /** To the tables an Invoke is the operation that runs of registrations are made of. */
  lemma InvokedFromIsStep(world: World, reg: Registry, c: nat, specs: seq<ParamSpec>,
          st: Store) returns (missing: bool)
    requires Good(reg) && c < |reg.parents| && Checked(world, reg, c, specs)
    ensures InvokedFrom(world, reg, c, specs, st).1 == Step(reg, InvokeOp(c, specs, missing))
  {
    hide Good, NewParams, NodesNumbered, GraphOf, IsDag, InRange, Env.MissingList, Env.Closed, Viewed, Grown,
         Sessions.Invoke;
    InvokeIsSafe(reg, c, specs);
    var (ps, reg1) := NewParams(reg, c, specs);
    missing := ps.Some? && Lookup(world, reg1).MissingList(st, ps.value, c) != [];
    if reg1.verified[c] { assert reg1.verified[c := true] == reg1.verified; }
  }

  /** It leaves the tables that resolution reads as they are, and does to the stores what any view of them says. */
  lemma {:induction false} InvokedFromIsInvoke(e: Env, reg: Registry, c: nat, specs: seq<ParamSpec>, st: Store)
    requires Good(reg) && c < |reg.parents| && Checked(e.world, reg, c, specs)
    requires Alike(e.reg, reg) && e.Closed() && c in e.scopes
    ensures var ps := NewParams(reg, c, specs).0;
            var (outcome, reg', st') := InvokedFrom(e.world, reg, c, specs, st);
            && Good(reg') && Alike(reg, reg')
            && (ps.None? ==> outcome == BadArguments && st' == st)
            && (ps.Some? && e.MissingList(st, ps.value, c) == [] && Refuses(reg, c, specs) ==>
                outcome == Cyclic && st' == st)
            && (ps.Some? && !(e.MissingList(st, ps.value, c) == [] && Refuses(reg, c, specs)) ==>
                  (outcome, st') == (OutcomeOf(Sessions.Invoke(e, ps.value, c, st).0),
                                     Sessions.Invoke(e, ps.value, c, st).1))
  {
    hide Good, NewParams, NodesNumbered, GraphOf, IsDag, InRange, Env.MissingList, Env.Closed, Env.BuildList, Viewed,
         Refuses;
    InvokeIsSafe(reg, c, specs);
    var (ps, reg1) := NewParams(reg, c, specs);
    if ps.Some? {
      SameMissing(Lookup(e.world, reg1), e, st, ps.value, c);
      if e.MissingList(st, ps.value, c) == [] && !Refuses(reg, c, specs) {
        NotRefused(reg, c, specs);
        VerifiedIsViewed(e.world, reg1, c);
        InvokeSame(Viewed(e.world, Verified(reg1, c), c), e, ps.value, c, st);
      }
    }
  }

  lemma {:induction false} NotRefused(reg: Registry, c: nat, specs: seq<ParamSpec>)
    requires Good(reg) && c < |reg.parents| && !Refuses(reg, c, specs)
    ensures var reg1 := NewParams(reg, c, specs).1;
            NodesNumbered(reg1) && c < |reg1.nodes| && IsDag(GraphOf(reg1, c))
  {
    InvokeIsSafe(reg, c, specs);
  }

  // ---------------------------------------------------------------------------------------------
  // Containers in any state

  /** The search for a cycle is made, and finds one. */
  ghost predicate Stops(reg1: Registry, c: nat)
    requires TreeOk(reg1) && NodesNumbered(reg1) && c < |reg1.parents|
  {
    !reg1.verified[c] && !IsDag(GraphOf(reg1, c))
  }

  /** If the Invoke comes to the search for a cycle, it follows no edge out of the graph; and if it comes past it, all
      that it can reach is ranked. Nothing is asked of an Invoke that stops before. */
  ghost predicate Invokable(world: World, reg: Registry, c: nat, specs: seq<ParamSpec>, st: Store)
    requires TreeOk(reg) && NodesNumbered(reg) && c < |reg.parents|
  {
    ParamsKeepTree(reg, c, specs);
    var (ps, reg1) := NewParams(reg, c, specs);
    ps.Some? && Lookup(world, reg1).MissingList(st, ps.value, c) == [] ==>
      && (reg1.verified[c] || InRange(GraphOf(reg1, c)))
      && (Stops(reg1, c) || Rankable(world, reg1, c))
  }

  lemma {:induction false} ParamsKeepTree(reg: Registry, c: nat, specs: seq<ParamSpec>)
    requires TreeOk(reg) && NodesNumbered(reg) && c < |reg.parents|
    ensures var reg1 := NewParams(reg, c, specs).1;
            TreeOk(reg1) && NodesNumbered(reg1) && |reg1.verified| == |reg1.parents| == |reg.parents|
  {
    NewParamsGrow(reg, c, specs);
    GrownNumbered(reg, NewParams(reg, c, specs).1, c);
  }

  /** What an Invoke does, in whatever state the tables are. */
  ghost function InvokedAnyhow(world: World, reg: Registry, c: nat, specs: seq<ParamSpec>,
          st: Store): (InvokeOutcome, Registry, Store)
    requires TreeOk(reg) && NodesNumbered(reg) && c < |reg.parents| && Invokable(world, reg, c, specs, st)
  {
    ParamsKeepTree(reg, c, specs);
    var (ps, reg1) := NewParams(reg, c, specs);
    if ps.None? then (BadArguments, reg1, st)
    else if Lookup(world, reg1).MissingList(st, ps.value, c) != [] then
      (NotBuilt(MissingDependencies(MissingTypes(Lookup(world, reg1).MissingList(st, ps.value, c)))), reg1, st)
    else if Stops(reg1, c) then (Cyclic, reg1, st)
    else
      VerifiedIsRankable(world, reg1, c);
      var (r, st1) := Sessions.Invoke(Viewed(world, Verified(reg1, c), c), ps.value, c, st);
      (OutcomeOf(r), Verified(reg1, c), st1)
  }

  /** In a container that meets the invariant this is what the invariant says of it. */
  lemma {:induction false} GoodIsInvokable(world: World, reg: Registry, c: nat, specs: seq<ParamSpec>, st: Store)
    requires Good(reg) && c < |reg.parents| && Checked(world, reg, c, specs)
    ensures TreeOk(reg) && NodesNumbered(reg) && Invokable(world, reg, c, specs, st)
    ensures InvokedAnyhow(world, reg, c, specs, st) == InvokedFrom(world, reg, c, specs, st)
  {
    hide NewParams, GraphOf, IsDag, InRange, Env.MissingList, Viewed, Sessions.Invoke;
    InvFacts(reg);
    InvokeIsSafe(reg, c, specs);
  }

  lemma {:induction false} AnyhowKeepsGood(world: World, reg: Registry, c: nat, specs: seq<ParamSpec>, st: Store)
    requires Good(reg) && c < |reg.parents| && TreeOk(reg) && NodesNumbered(reg)
    requires Invokable(world, reg, c, specs, st)
    ensures Good(InvokedAnyhow(world, reg, c, specs, st).1)
  {
    hide NewParams, GraphOf, IsDag, InRange, Env.MissingList, Viewed, Sessions.Invoke, Good, Rankable;
    InvokeIsSafe(reg, c, specs);
    var reg1 := NewParams(reg, c, specs).1;
    if IsDag(GraphOf(reg1, c)) { VerifiedKeepsInv(reg1, c); }
  }
}
