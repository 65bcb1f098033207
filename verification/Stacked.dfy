/** Two decorators of one value, in a scope and in its parent: a run that meets all that the agreement of resolver and
    evaluator asks for, and what it resolves the value to. */
module Stacked {
  import opened Values
  import opened ResultTree
  import opened Extraction
  import opened Registry
  import opened Registration
  import opened RegistrationInvariant
  import opened RegistrationSteps
  import opened Resolver
  import opened Evaluator
  import opened Refinement
  import opened Sessions
  import opened Runs
  import opened Coverage
  import opened Commits
  import opened Decoration
  import opened Invocation
  import opened Guarantees
  import opened Scenario
  import opened Limits
  import opened Digraph

  const T := Named(0)
  const Maker := Makes([], T, 0)
  const Pair: seq<Option<nat>> := [None, Some(0)]
  const Wrapper := Decorator(SingleParams([T]), Only(Single(T)), 0)

  /** The root makes the value and decorates it; its child decorates it again. */
  const StackOps := [ProvideOf(Maker, false), ScopeOp(0), DecorateOf(0, [T], T), DecorateOf(1, [T], T)]

  lemma StackIsReached() returns (reg: Registry)
    ensures Stage(reg, false, StackOps, Pair, [Maker])
    ensures reg.decorators == map[Slot(0, T) := 0, Slot(1, T) := 1] && reg.decos == [Wrapper, Wrapper.(scope := 1)]
  {
    hide Stage, RowsFall, Row.Valid;
    MakesIsValid([], 0, 0);
    var reg0 := StageNew(false);
    assert [] + [Maker] == [Maker];
    MakerFalls();
    var reg1 := StageProvide(reg0, false, [], [None], [], Maker, false, Flat);
    var ops1 := [] + [ProvideOf(Maker, false)];
    var reg2 := StageScope(reg1, false, ops1, [None], [Maker], 0);
    assert [None] + [Some(0)] == Pair;
    var ops2 := ops1 + [ScopeOp(0)];
    var reg3 := StageDecorate(reg2, false, ops2, Pair, [Maker], 0, [T], T);
    var ops3 := ops2 + [DecorateOf(0, [T], T)];
    reg := StageDecorate(reg3, false, ops3, Pair, [Maker], 1, [T], T);
    assert ops3 + [DecorateOf(1, [T], T)] == StackOps;
  }

  lemma MakerFalls()
    ensures RowsFall([None], [Maker], Flat)
  {}

  /** The end of the run, seen from both scopes */
  ghost predicate Stack(e: Env) {
    && Tells(e.reg, false, Pair, [Maker]) && Returns(e.world)
    && e.scopes == {0, 1} && e.rank == map[0 := 0] && e.decoRank == map[0 := 1, 1 := 2]
    && e.reg.decorators == map[Slot(0, T) := 0, Slot(1, T) := 1] && e.reg.decos == [Wrapper, Wrapper.(scope := 1)]
  }

  lemma StackSees(e: Env, k: Key)
    requires Stack(e)
    ensures e.reg.PathToRoot(0) == [0] && e.reg.PathToRoot(1) == [1, 0] && |e.reg.parents| == 2
    ensures e.reg.AllProviders(0, k) == e.reg.AllProviders(1, k) == if k == T then [0] else []
    ensures e.reg.Providers(0, k) == (if k == T then [0] else []) && e.reg.Providers(1, k) == []
    ensures e.reg.ctors == [Maker.Provider()] && Maker.Provider().params == [] && Maker.Provider().orig == 0
    ensures 0 in e.scopes && 1 in e.scopes
  {
    hide Good, Returns, Listing;
    TwoPaths(Pair);
    MakerLists(k);
    var reg := e.reg;
    assert [1, 0][1..] == [0] && [0][1..] == [];
    assert reg.ProvidersOn([0], k) == reg.Providers(0, k) + reg.ProvidersOn([0][1..], k);
    assert reg.ProvidersOn([1, 0], k) == reg.Providers(1, k) + reg.ProvidersOn([1, 0][1..], k);
  }

  lemma {:induction false} MakerLists(k: Key)
    ensures Listing([Maker], 0, k) == (if k == T then [0] else []) && Listing([Maker], 1, k) == []
  {
    HeadIsMember(Listing([Maker], 1, k));
    if k == T { OneLister([Maker], 0, T, 0); } else { HeadIsMember(Listing([Maker], 0, k)); }
  }

  lemma StackIsClosed(e: Env)
    requires Stack(e)
    ensures e.Closed() && Tabled(e)
  {
    hide Registry.PathToRoot, Registry.AllProviders, Registry.Providers, Stack, Env.Below;
    StackSees(e, T);
    StackIsPlaced(e);
    forall s, k, n | s in e.scopes && n in e.reg.Providers(s, k) ensures n in e.rank { StackSees(e, k); }
    assert e.Below(ListLeaves([]), 0, 0) by { NothingBelow(e, 0, 0); }
  }

  lemma StackIsPlaced(e: Env)
    requires Stack(e)
    ensures e.scopes == {0, 1} && e.rank == map[0 := 0] && e.DecoratorsPlaced() && Only(Single(T)).Valid()
    ensures forall d :: d in e.decoRank ==> d < |e.reg.decos| && e.reg.decos[d].results.Valid()
  {
    hide Tells, Returns;
    OnlyDeclares(Single(T));
  }

  lemma WrapperAsks(e: Env, d: nat)
    requires Stack(e) && d < 2
    ensures ListLeaves(e.reg.decos[d].params) == {T} && e.reg.decos[d].scope == d
  {
    OneParam(T);
  }

  lemma DecoratorIsLayered(e: Env, d: nat)
    requires Tabled(e) && d in e.decoRank && Stack(e) && d < 2
    ensures DecoratorLayered(e, d)
  {
    hide Tabled, Registry.PathToRoot, Registry.AllProviders, Tells;
    WrapperAsks(e, d);
    StackSees(e, T);
  }

  lemma StackIsRanked(e: Env)
    requires Stack(e)
    ensures Ranked(e)
  {
    hide Tabled, DecoratorLayered, Env.Closed, Tells;
    StackIsClosed(e);
    StackSees(e, T);
    DecoratorIsLayered(e, 0);
    DecoratorIsLayered(e, 1);
    assert CtorLayered(e, 0) by { assert Under(e, ListLeaves([]), 0, None, 0); }
  }

  lemma StackIsOrdinary(e: Env)
    requires Stack(e)
    ensures Tables(e.reg) && Ordinary(e.reg) && RanksJoined(e)
  {
    hide Tables, FlagsSound, DecoratorsListed, Listing, ListEntries, Returns, Registry.AllProviders,
         Registry.PathToRoot;
    StackSees(e, T);
    WrapperWrites();
    MakerIsJoined(e.reg);
  }

  lemma StackIsRegistered(e: Env)
    requires Stack(e)
    ensures Registered(e)
  {
    hide Inv, Tells, Listing, AllDecorating, AllLeafKeys, SlicesOf, Returns, Tables, Ordinary, RanksJoined;
    StackIsOrdinary(e);
    WrapperWrites();
    assert DecoratorsListed(e.reg) by { TellsListed(e.reg); }
    assert e.reg.decorators[Slot(0, T)] == 0 && e.reg.decorators[Slot(1, T)] == 1;
  }

  lemma TellsListed(reg: Registry)
    requires Tells(reg, false, Pair, [Maker])
    ensures DecoratorsListed(reg)
  {}

  lemma WrapperWrites()
    ensures SlicesOf(Only(Single(T)).results) == {} && AllLeafKeys(Only(Single(T)).results) == multiset{T}
    ensures ListEntries(Only(Single(T)).results) == [Entry(T, true)]
  {
    OnlyDeclares(Single(T));
    SingleEntry(T);
    assert Only(Single(T)).results[1..] == [];
  }

  lemma MakerIsJoined(reg: Registry)
    requires Tells(reg, false, Pair, [Maker])
    ensures Joined(reg, 0)
  {
    assert 0 in Listing([Maker], 0, T);
    assert 0 in reg.Providers(0, T);
    ListedIsJoined(reg, 0, T, 0);
  }

  /** What the constructor makes, and what the decorators make of a value */
  function Made(world: World): Value { Fit(world.ctor(0, []), 1)[0] }
  function Wrapped(world: World, d: nat, v: Value): Value { Fit(world.deco(d, [v]), 1)[0] }

  lemma StackMakes(e: Env, m: Meaning)
    requires Stack(e) && Tabled(e) && IsMeaning(e, m)
    ensures m.Ctor(0) == Ok(Written(map[T := Made(e.world)], map[]))
  {
    hide Tells, Produce, Tabled, Returns;
    StackSees(e, T);
    assert Fit(e.world.ctor(0, []), 1) == [Made(e.world)];
    OneProduces(T, Made(e.world));
    assert UnprovidedList(e.reg, [], 0) == [];
    assert EvalList(e.reg, m, [], 0, None) == Ok([]);
    assert m.ctors[0] == EvalCtor(e, m, 0);
  }

  lemma StackProvides(e: Env, m: Meaning, c: nat)
    requires Stack(e) && Tabled(e) && IsMeaning(e, m) && c < 2
    ensures EvalProvided(e.reg, m, T, false, c) == Ok(Made(e.world))
  {
    hide IsMeaning, Tabled, Tells;
    StackMakes(e, m);
    StackSees(e, T);
    assert [1, 0][1..] == [0] && [0][1..] == [];
    assert ProvidingScope(e.reg, T, [0]) == Some(0);
    assert ProvidingScope(e.reg, T, [1, 0]) == ProvidingScope(e.reg, T, [1, 0][1..]);
    assert m.FirstFailure([0][1..]) == None;
    assert m.FirstFailure([0]) == None;
  }

  /** A decorator that is given a value succeeds. */
  lemma WrapperSucceeds(e: Env, m: Meaning, d: nat, v: Value)
    requires Stack(e) && Tabled(e) && IsMeaning(e, m) && d < 2
    requires EvalSingle(e.reg, m, T, false, d, Some(d)) == Ok(v)
    ensures m.Decorator(d) == Ok([Set(T, Wrapped(e.world, d, v))])
  {
    hide Tells, Tabled, EvalSingle, ExtractFrom, Returns;
    StackSees(e, T);
    OneParam(T);
    var ps := SingleParams([T]);
    assert ps[1..] == [] && ps == [SingleParam(T, false)];
    assert UnprovidedList(e.reg, ps, d) == Unprovided(e.reg, ps[0], d) + UnprovidedList(e.reg, ps[1..], d) == [];
    assert EvalList(e.reg, m, ps[1..], d, Some(d)) == Ok([]);
    assert EvalList(e.reg, m, ps, d, Some(d)) == Ok([v] + []);
    assert [v] + [] == [v];
    assert Fit(e.world.deco(d, [v]), 1) == [Wrapped(e.world, d, v)];
    OneProduces(T, Wrapped(e.world, d, v));
    assert m.decos[d] == EvalDecorator(e, m, d);
  }

  lemma StackSucceeds(e: Env, m: Meaning)
    requires Stack(e) && Tabled(e) && IsMeaning(e, m)
    ensures m.Decorator(0).Ok? && m.Decorator(1).Ok?
  {
    hide IsMeaning, Tabled, EvalProvided, Wrapped, Made, Tells;
    StackSees(e, T);
    StackProvides(e, m, 0);
    assert [1, 0][1..] == [0] && [0][1..] == [];
    assert ApplyingScope(e.reg, T, [0], Some(0)) == ApplyingScope(e.reg, T, [0][1..], Some(0)) == None;
    WrapperSucceeds(e, m, 0, Made(e.world));
    assert ApplyingScope(e.reg, T, [0], Some(1)) == Some(0);
    assert ApplyingScope(e.reg, T, [1, 0], Some(1)) == ApplyingScope(e.reg, T, [1, 0][1..], Some(1));
    WrapperSucceeds(e, m, 1, OrNoValue(LastSet(m.Decorator(0).value, T)));
  }

  lemma StackIsDecoratable(e: Env, m: Meaning)
    requires Stack(e) && Tabled(e) && IsMeaning(e, m)
    ensures Decoratable(e, m)
  {
    hide IsMeaning, Tabled, Tells, Registry.AllProviders;
    StackSucceeds(e, m);
    StackSees(e, T);
  }

  /** The container at the end of the run is sound. */
  lemma StackIsSound(e: Env)
    requires Stack(e)
    ensures e.Closed() && Ranked(e) && Registered(e) && Tabled(e) && IsMeaning(e, MeaningOf(e))
    ensures Decoratable(e, MeaningOf(e))
    ensures Sound(e, MeaningOf(e))
  {
    hide Stack, Env.Closed, CtorLayered, DecoratorLayered, IsMeaning, Registered, Decoratable, MeaningOf, Sound;
    StackIsClosed(e);
    StackIsRanked(e);
    StackIsRegistered(e);
    MeaningExists(e);
    StackIsDecoratable(e, MeaningOf(e));
    DecoratedIsSound(e);
  }

  lemma {:induction false} StackChain(e: Env, m: Meaning)
    requires Stack(e) && InTables(e, T, [1, 0])
    ensures Chain(e, m, T, [1, 0], Made(e.world)) == Wrapped(e.world, 1, Wrapped(e.world, 0, Made(e.world)))
  {
    hide Wrap, Made, Tells;
    OneParam(T);
    InTablesFrom(e, T, [1, 0], 1);
    assert [1, 0][1..] == [0] && [0][1..] == [];
    assert Chain(e, m, T, [0], Made(e.world)) == Wrap(e, m, 0, T, Chain(e, m, T, [0][1..], Made(e.world)));
    assert Chain(e, m, T, [1, 0], Made(e.world)) == Wrap(e, m, 1, T, Chain(e, m, T, [1, 0][1..], Made(e.world)));
    WrapperWraps(e, m, 0, T, Made(e.world));
    WrapperWraps(e, m, 1, T, Wrap(e, m, 0, T, Made(e.world)));
  }

  lemma StackMeans(e: Env)
    requires Stack(e)
    ensures Layered(e) && UnprovidedList(e.reg, SingleParams([T]), 1) == []
    ensures EvalInvoke(e.reg, MeaningOf(e), SingleParams([T]), 1)
         == Ok([Wrapped(e.world, 1, Wrapped(e.world, 0, Made(e.world)))])
  {
    hide Stack, Env.Closed, Layered, Tabled, IsMeaning, Registered, Decoratable, MeaningOf, EvalProvided, EvalInvoke,
         Chain, Sound, Succeed, Wrapped, Made, EvalSingle, Outermost, InTables, Registry.PathToRoot, Ranked;
    StackIsRanked(e);
    RankedIsTabled(e);
    var m := MeaningOf(e);
    StackIsSound(e);
    StackSees(e, T);
    StackProvides(e, m, 0);
    SoundSucceeds(e, m, T, 1);
    assert Outermost(e.reg, T, [1, 0]) == 0 by { StackOutermost(e); }
    DecorationComposes(e, m, T, 1, Made(e.world));
    StackChain(e, m);
    OneParam(T);
    EvalOne(e.reg, m, SingleParam(T, false), 1, Chain(e, m, T, [1, 0], Made(e.world)));
  }

  lemma StackOutermost(e: Env)
    requires Stack(e)
    ensures Outermost(e.reg, T, [1, 0]) == 0
  {
    hide Tells;
    assert [1, 0][1..] == [0] && [0][1..] == [];
    assert ApplyingScope(e.reg, T, [0], None) == Some(0);
    assert Outermost(e.reg, T, [0]) == 0;
  }

  /** The graph of the child has no cycle, whatever group parameters Invokes have put in it. */
  lemma StackIsAcyclic(reg: Registry)
    requires Good(reg) && |reg.parents| == 2 && reg.ctors == [Maker.Provider()]
    ensures !Refuses(reg, 1, SingleSpecs([T]))
  {
    hide Inv, DecoratorsListed, GraphOf, IsDag;
    GoodTree(reg);
    GoodTables(reg);
    NewSingles(reg, 1, [T]);
    MakerGraph(reg);
  }

  lemma MakerGraph(reg: Registry)
    requires Tables(reg) && |reg.parents| == 2 && reg.ctors == [Maker.Provider()]
    ensures IsDag(GraphOf(reg, 1))
  {
    hide Tables;
    TablesFacts(reg);
    assert Maker.Provider().params == [];
    var f: nat -> nat := n => 0;
    assert Falls(reg, 1, f) && AllGroupsKnown(reg, 1);
    FallingIsAcyclic(reg, 1, f);
  }

  /** At the end of this run, whatever was asked for before, from either scope: the child is given the value decorated
      by both decorators, the root's first. */
  lemma {:induction false} StackedDecoratorsCompose(world: World, asks: seq<Ask>)
    requires Returns(world) && forall i :: 0 <= i < |asks| ==> asks[i].scope < 2 && PlainSpecs(asks[i].specs)
    ensures CleanHistory(false, StackOps)
    ensures var reg := History(false, StackOps);
            && Answerable(world, reg, Empty, asks)
            && (var (reg1, st1) := Asked(world, reg, Empty, asks);
                && Good(reg1) && 1 < |reg1.parents| && Checked(world, reg1, 1, SingleSpecs([T]))
                && InvokedFrom(world, reg1, 1, SingleSpecs([T]), st1).0
                   == Built([Wrapped(world, 1, Wrapped(world, 0, Made(world)))]))
  {
    hide Tells, Stage, History, CleanHistory, Returns, Checked, InvokedFrom, Wrapped, Made, PlainSpecs, Answerable,
         Asked, Good;
    var reg := StackIsReached();
    StageIs(reg, false, StackOps, Pair, [Maker]);
    var e := Env(world, reg, {0, 1}, map[0 := 0], map[0 := 1, 1 := 2]);
    StackAnswers(e, asks);
  }

  lemma {:induction false} StackAnswers(e: Env, asks: seq<Ask>)
    requires Stack(e) && Good(e.reg) && forall i :: 0 <= i < |asks| ==> asks[i].scope < 2 && PlainSpecs(asks[i].specs)
    ensures Answerable(e.world, e.reg, Empty, asks)
    ensures var (reg1, st1) := Asked(e.world, e.reg, Empty, asks);
            && Good(reg1) && 1 < |reg1.parents| && Checked(e.world, reg1, 1, SingleSpecs([T]))
            && InvokedFrom(e.world, reg1, 1, SingleSpecs([T]), st1).0
               == Built([Wrapped(e.world, 1, Wrapped(e.world, 0, Made(e.world)))])
  {
    hide Tells, Returns, Checked, InvokedFrom, Wrapped, Made, PlainSpecs, Answerable, Asked, Good, Sound, Settled,
         Ranked, Registered, Decoratable, MeaningOf, Tabled, IsMeaning, Env.Closed, EvalInvoke, Exact, NewParams,
         UnprovidedList, Refuses;
    var ask := Ask(1, SingleSpecs([T]));
    StackIsSound(e);
    StackMeans(e);
    EmptyIsSettled(e, MeaningOf(e));
    PlainT();
    AskedSettles(e, MeaningOf(e), e.reg, Empty, asks);
    AnswerAgrees(e, MeaningOf(e), e.reg, Empty, asks, ask);
    var reg1 := Asked(e.world, e.reg, Empty, asks).0;
    StackSees(e, T);
    GoodTree(reg1);
    NewSingles(reg1, 1, [T]);
    StackIsAcyclic(reg1);
  }

  lemma PlainT()
    ensures PlainSpecs(SingleSpecs([T]))
  {}
}
