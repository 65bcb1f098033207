/** A registration that comes too late: a value that has been resolved is kept, although its constructor would now be
    given another argument. */
module Stale {
  import opened Values
  import opened ResultTree
  import opened Extraction
  import opened Registry
  import opened Registration
  import opened RegistrationInvariant
  import opened RegistrationSteps
  import opened Resolver
  import opened Evaluator
  import opened Refinement
  import opened Sessions
  import opened Runs
  import opened Coverage
  import opened Independence
  import opened Invocation
  import opened Guarantees
  import opened Scenario
  import opened Limits
  import opened Later
  import opened Digraph

  /** The root makes the value 0. Its child makes the value 1 from it, and later a value 0 of its own. */
  const Outer := Makes([], Named(0), 0)
  const User := Makes([Named(0)], Named(1), 1)
  const Inner := Makes([], Named(0), 1)
  const Pair: seq<Option<nat>> := [None, Some(0)]

  const EarlyOps := [ProvideOf(Outer, false), ScopeOp(0), ProvideOf(User, false)]

  function Depth(c: nat, n: nat): nat { n % 2 }

  lemma PairFalls(rows: seq<Row>)
    requires rows <= [Outer, User, Inner]
    ensures RowsFall(Pair, rows, Depth) && RowsFall([None], rows, Depth)
  {
    forall n | 0 <= n < |rows| ensures rows[n] == [Outer, User, Inner][n] {}
  }

  lemma EarlyIsReached() returns (reg: Registry)
    ensures Stage(reg, false, EarlyOps, Pair, [Outer, User]) && reg.decorators == map[]
  {
    hide Stage, RowsFall, Row.Valid;
    MakesIsValid([], 0, 0);
    MakesIsValid([Named(0)], 1, 1);
    var reg0 := StageNew(false);
    assert [] + [Outer] == [Outer];
    PairFalls([Outer]);
    var reg1 := StageProvide(reg0, false, [], [None], [], Outer, false, Depth);
    var ops1 := [] + [ProvideOf(Outer, false)];
    var reg2 := StageScope(reg1, false, ops1, [None], [Outer], 0);
    assert [None] + [Some(0)] == Pair && [Outer] + [User] == [Outer, User];
    PairFalls([Outer, User]);
    reg := StageProvide(reg2, false, ops1 + [ScopeOp(0)], Pair, [Outer], User, false, Depth);
    assert ops1 + [ScopeOp(0)] + [ProvideOf(User, false)] == EarlyOps;
  }

  /** The container seen from both scopes, before or after the late registration */
  ghost predicate Shown(e: Env, rows: seq<Row>) {
    && [Outer, User] <= rows <= [Outer, User, Inner]
    && Tells(e.reg, false, Pair, rows) && Returns(e.world) && e.reg.decorators == map[]
    && e == SeenFromAll(e.world, e.reg) && e.Closed()
  }

  lemma TellsUsual(reg: Registry, rows: seq<Row>)
    requires Tells(reg, false, Pair, rows) && rows <= [Outer, User, Inner] && reg.decorators == map[]
    ensures Usual(reg)
  {
    hide FlagsSound, NodesNumbered, CtorsOrdered, GroupsOrdered, ProvidersListed, ProvidersPlaced, CtorsListed,
         ProvidersApart, OrdersScoped, DecoratorsListed, Listing;
    forall n: nat | Joined(reg, n)
      ensures reg.ctors[n].orig == reg.ctors[n].scope && PlainList(reg.ctors[n].params)
      ensures forall x :: x in ListEntries(reg.ctors[n].results.results) ==> x.single == !x.key.IsGroup()
    {
      assert rows[n] == [Outer, User, Inner][n];
      RowIsOrdinary(rows[n]);
    }
  }

  lemma RowIsOrdinary(row: Row)
    requires row in [Outer, User, Inner]
    ensures PlainList(row.Provider().params)
    ensures forall x :: x in ListEntries(row.Provider().results.results) ==> x.single == !x.key.IsGroup()
  {
    SingleEntry(row.key);
    OnlyDeclares(row.result);
    assert ListEntries(Only(row.result).results) == [Entry(row.key, true)];
  }

  lemma Show(world: World, reg: Registry, rows: seq<Row>) returns (e: Env)
    requires Tells(reg, false, Pair, rows) && [Outer, User] <= rows <= [Outer, User, Inner]
    requires reg.decorators == map[] && Returns(world)
    ensures e == SeenFromAll(world, reg) && e.world == world && e.reg == reg && Shown(e, rows)
  {
    hide Tells, SeenFromAll, Returns;
    TellsUsual(reg, rows);
    UsualParts(reg);
    SeenFromAllIs(world, reg, 0);
    e := SeenFromAll(world, reg);
    DefaultCoversAllScopes(world, reg);
  }

  /** What the scopes see */
  lemma PairSees(e: Env, rows: seq<Row>)
    requires Shown(e, rows)
    ensures e.reg.PathToRoot(0) == [0] && e.reg.PathToRoot(1) == [1, 0] && 0 in e.scopes && 1 in e.scopes
    ensures e.reg.Providers(0, Named(0)) == [0] && e.reg.Providers(1, Named(1)) == [1]
    ensures e.reg.Providers(1, Named(0)) == if |rows| == 2 then [] else [2]
    ensures |e.reg.ctors| == |rows| && forall n :: 0 <= n < |rows| ==> e.reg.ctors[n] == rows[n].Provider()
  {
    hide Good, Env.Closed, Row.Provider, OverallRank, Returns, SeenFromAll;
    TwoPaths(Pair);
    PairLists(rows);
    assert e == SeenFromAll(e.world, e.reg);
    SeenFromAllIs(e.world, e.reg, 0);
    SeenFromAllIs(e.world, e.reg, 1);
  }

  lemma {:induction false} PairLists(rows: seq<Row>)
    requires [Outer, User] <= rows <= [Outer, User, Inner]
    ensures Listing(rows, 0, Named(0)) == [0] && Listing(rows, 1, Named(1)) == [1]
    ensures Listing(rows, 1, Named(0)) == if |rows| == 2 then [] else [2]
  {
    forall n | 0 <= n < |rows| ensures rows[n] == [Outer, User, Inner][n] {}
    OneLister(rows, 0, Named(0), 0);
    OneLister(rows, 1, Named(1), 1);
    if |rows| == 3 { OneLister(rows, 1, Named(0), 2); } else { HeadIsMember(Listing(rows, 1, Named(0))); }
  }

  lemma PairRanked(e: Env, rows: seq<Row>, k: Key, c: nat)
    requires Shown(e, rows) && c < 2
    ensures e.Below({k}, c, e.Top()) && NodesNumbered(e.reg) && |e.reg.nodes| == 2 && IsDag(GraphOf(e.reg, c))
  {
    hide CtorsOrdered, GroupsOrdered, ProvidersListed, ProvidersPlaced, CtorsListed, ProvidersApart, OrdersScoped,
         IsDag, GraphOf, Env.Closed, Row.Provider, OverallRank, Listing;
    PairSees(e, rows);
    e.AllBelowTop({k}, c);
    assert Provides(e.reg, 0, Named(0)) && Provides(e.reg, 1, Named(1));
  }

  /** The lookups of `k` from the child */
  lemma {:induction false} FromChild(e: Env, rows: seq<Row>, st: Store, k: Key)
    requires Shown(e, rows) && st.decorated == map[]
    ensures e.ClosestDecorator(st, k, [1, 0]) == None && e.Closest(st.decorated, k, [1, 0]) == None
    ensures e.Locate(st, k, [1, 0])
         == if Slot(1, k) in st.values || e.reg.Providers(1, k) != [] then Some(1)
            else if Slot(0, k) in st.values || e.reg.Providers(0, k) != [] then Some(0) else None
    ensures e.reg.AllProviders(1, k) == e.reg.Providers(1, k) + e.reg.Providers(0, k)
  {
    hide Good, Env.Closed, Tells, OverallRank;
    PairSees(e, rows);
    assert [1, 0][1..] == [0] && [0][1..] == [];
    assert e.ClosestDecorator(st, k, [0]) == None && Env.Closest(st.decorated, k, [0]) == None;
    assert e.Locate(st, k, [0]) == if Slot(0, k) in st.values || e.reg.Providers(0, k) != [] then Some(0) else None;
    assert e.reg.ProvidersOn([0], k) == e.reg.Providers(0, k) + e.reg.ProvidersOn([0][1..], k);
    assert e.reg.ProvidersOn([1, 0], k) == e.reg.Providers(1, k) + e.reg.ProvidersOn([1, 0][1..], k);
  }

  /** A value that the child has is handed out as it is. */
  lemma {:induction false} KeptValue(e: Env, rows: seq<Row>, st: Store, k: Key)
    requires Shown(e, rows) && st.decorated == map[] && Slot(1, k) in st.values && e.Below({k}, 1, e.Top())
    requires 1 in e.scopes
    ensures e.BuildSingle(k, false, 1, e.Top(), st) == (Ok(st.values[Slot(1, k)]), st)
  {
    hide Shown, Env.Closed, Env.Below;
    PairSees(e, rows);
    FromChild(e, rows, st, k);
  }

  // ---------------------------------------------------------------------------------------------
  // The first Invoke

  /** What the constructors return */
  function MadeOuter(world: World): Value { Fit(world.ctor(0, []), 1)[0] }
  function MadeInner(world: World): Value { Fit(world.ctor(2, []), 1)[0] }
  function MadeUser(world: World, v: Value): Value { Fit(world.ctor(1, [v]), 1)[0] }

  lemma Ranked3(e: Env, rows: seq<Row>, n: nat)
    requires Shown(e, rows) && n < |rows|
    ensures n in e.rank
  {
    hide Tells, Env.CtorsRanked, Env.DecoratorsPlaced, Env.ScopesClosed;
    PairSees(e, rows);
    assert n in e.reg.Providers(if n == 0 then 0 else 1, if n == 1 then Named(1) else Named(0));
  }

  lemma {:induction false} CallOuter(e: Env)
    requires Shown(e, [Outer, User])
    ensures 0 in e.rank
    ensures e.CallCtor(0, Empty).0 == None
    ensures Ran(Empty, e.CallCtor(0, Empty).1, 0, Slot(0, Named(0)), MadeOuter(e.world))
  {
    hide Env.RunCtor, Env.Closed, Tells;
    Ranked3(e, [Outer, User], 0);
    PairSees(e, [Outer, User]);
    assert e.reg.ctors[0].params == [];
    NothingBelow(e, 0, e.rank[0]);
    assert e.BuildList([], 0, e.rank[0], Empty) == (Ok([]), Empty);
    RunOne(e, 0, Named(0), [], Empty, Empty);
  }

  lemma {:induction false} ArgumentOfUser(e: Env, level: nat)
    requires Shown(e, [Outer, User]) && e.Below({Named(0)}, 1, level) && 1 in e.scopes
    ensures var r := e.BuildSingle(Named(0), false, 1, level, Empty);
            r.0 == Ok(MadeOuter(e.world)) && Ran(Empty, r.1, 0, Slot(0, Named(0)), MadeOuter(e.world))
  {
    hide Shown, Env.CallCtor, Env.Below, Env.Closed;
    ShownClosed(e, [Outer, User]);
    PairSees(e, [Outer, User]);
    FromChild(e, [Outer, User], Empty, Named(0));
    e.BelowProviders(Named(0), 1, 0, level);
    CallOuter(e);
    CallOne(e, 0, level, Empty);
  }

  lemma ShownClosed(e: Env, rows: seq<Row>)
    requires Shown(e, rows)
    ensures e.Closed() && Returns(e.world)
  {}

  lemma UserBelow(e: Env)
    requires Shown(e, [Outer, User]) && 1 in e.rank
    ensures e.Below({Named(0)}, 1, e.rank[1])
  {
    hide Tells;
    PairSees(e, [Outer, User]);
    OneParam(Named(0));
  }

  lemma {:induction false} CallUser(e: Env)
    requires Shown(e, [Outer, User])
    ensures 1 in e.rank
    ensures var r := e.CallCtor(1, Empty);
            && r.0 == None && r.1.decorated == map[] && Slot(1, Named(1)) in r.1.values
            && r.1.values[Slot(1, Named(1))] == MadeUser(e.world, MadeOuter(e.world))
  {
    hide Env.CallCtor, Env.BuildSingle, Tells, Env.Below, Env.Closed;
    var rows := [Outer, User];
    Ranked3(e, rows, 1);
    PairSees(e, rows);
    FromChild(e, rows, Empty, Named(0));
    UserBelow(e);
    ArgumentOfUser(e, e.rank[1]);
    CallTaking(e, 1, Named(0), Named(1), Empty);
  }

  lemma {:induction false} FirstBuilt(e: Env)
    requires Shown(e, [Outer, User]) && e.Below({Named(1)}, 1, e.Top()) && 1 in e.scopes
    ensures var r := e.BuildSingle(Named(1), false, 1, e.Top(), Empty);
            var v := MadeUser(e.world, MadeOuter(e.world));
            && r.0 == Ok(v) && r.1.decorated == map[]
            && Slot(1, Named(1)) in r.1.values && r.1.values[Slot(1, Named(1))] == v
  {
    hide Shown, Env.CallCtor, Env.Below, Env.Closed;
    ShownClosed(e, [Outer, User]);
    PairSees(e, [Outer, User]);
    FromChild(e, [Outer, User], Empty, Named(1));
    e.BelowProviders(Named(1), 1, 1, e.Top());
    CallUser(e);
    CallOne(e, 1, e.Top(), Empty);
  }

  // ---------------------------------------------------------------------------------------------
  // What the second Invoke means

  lemma CtorMeans(e: Env, m: Meaning, n: nat)
    requires Tabled(e) && IsMeaning(e, m) && n in e.rank
    ensures m.Ctor(n) == EvalCtor(e, m, n)
  {
    assert m.ctors[n] == EvalCtor(e, m, n);
  }

  lemma InnerMeans(e: Env, m: Meaning)
    requires Shown(e, [Outer, User, Inner]) && Tabled(e) && IsMeaning(e, m)
    ensures m.Ctor(2) == Ok(Written(map[Named(0) := MadeInner(e.world)], map[]))
  {
    hide Shown, IsMeaning, Tabled, Produce;
    Ranked3(e, [Outer, User, Inner], 2);
    PairSees(e, [Outer, User, Inner]);
    assert e.reg.ctors[2].params == [];
    assert UnprovidedList(e.reg, [], 1) == [] && EvalList(e.reg, m, [], 1, None) == Ok([]);
    assert Fit(e.world.ctor(2, []), 1) == [MadeInner(e.world)];
    OneProduces(Named(0), MadeInner(e.world));
    CtorMeans(e, m, 2);
  }

  lemma {:induction false} ChildMeans(e: Env, m: Meaning, k: Key, n: nat, v: Value)
    requires Shown(e, [Outer, User, Inner]) && e.reg.Providers(1, k) == [n]
    requires m.Ctor(n) == Ok(Written(map[k := v], map[]))
    ensures Unprovided(e.reg, SingleParam(k, false), 1) == [] && Eval(e.reg, m, SingleParam(k, false), 1, None) == Ok(v)
  {
    hide Env.Closed, Tells, OverallRank;
    PairSees(e, [Outer, User, Inner]);
    FromChild(e, [Outer, User, Inner], Empty, k);
    assert [1, 0][1..] == [0] && [0][1..] == [];
    assert ApplyingScope(e.reg, k, [0], None) == None && ApplyingScope(e.reg, k, [1, 0], None) == None;
    assert [n][1..] == [];
    assert m.FirstFailure([n][1..]) == None;
    assert m.FirstFailure([n]) == None;
  }

  lemma UserMeans(e: Env, m: Meaning)
    requires Shown(e, [Outer, User, Inner]) && Tabled(e) && IsMeaning(e, m)
    ensures m.Ctor(1) == Ok(Written(map[Named(1) := MadeUser(e.world, MadeInner(e.world))], map[]))
  {
    hide Shown, IsMeaning, Tabled, Produce, Eval, Unprovided, EvalList, UnprovidedList;
    var rows := [Outer, User, Inner];
    Ranked3(e, rows, 1);
    PairSees(e, rows);
    InnerMeans(e, m);
    ChildMeans(e, m, Named(0), 2, MadeInner(e.world));
    OneParam(Named(0));
    EvalOne(e.reg, m, SingleParam(Named(0), false), 1, MadeInner(e.world));
    var v := MadeUser(e.world, MadeInner(e.world));
    assert Fit(e.world.ctor(1, [MadeInner(e.world)]), 1) == [v];
    OneProduces(Named(1), v);
    CtorMeans(e, m, 1);
  }

  lemma SecondMeans(e: Env, m: Meaning)
    requires Shown(e, [Outer, User, Inner]) && Tabled(e) && IsMeaning(e, m)
    ensures EvalInvoke(e.reg, m, SingleParams([Named(1)]), 1) == Ok([MadeUser(e.world, MadeInner(e.world))])
    ensures UnprovidedList(e.reg, SingleParams([Named(1)]), 1) == []
  {
    hide Env.Closed, Tells, Eval, Unprovided;
    PairSees(e, [Outer, User, Inner]);
    UserMeans(e, m);
    ChildMeans(e, m, Named(1), 1, MadeUser(e.world, MadeInner(e.world)));
    OneParam(Named(1));
    EvalOne(e.reg, m, SingleParam(Named(1), false), 1, MadeUser(e.world, MadeInner(e.world)));
  }

  // ---------------------------------------------------------------------------------------------
  // The run

  const Question := Ask(1, SingleSpecs([Named(1)]))

  lemma TellsStays(reg: Registry, reg': Registry, rows: seq<Row>)
    requires Tells(reg, false, Pair, rows) && Good(reg') && Alike(reg, reg') && reg'.deferred == reg.deferred
    ensures Tells(reg', false, Pair, rows)
  {
    hide FlagsSound, NodesNumbered, CtorsOrdered, GroupsOrdered, ProvidersListed, ProvidersPlaced, CtorsListed,
         ProvidersApart, OrdersScoped, DecoratorsListed, Listing;
    forall s, k
      ensures reg'.Providers(s, k) == Listing(rows, s, k)
    {
      assert reg'.Providers(s, k) == reg.Providers(s, k);
    }
  }

  lemma InvokedKeepsDeferred(world: World, reg: Registry, c: nat, specs: seq<ParamSpec>, st: Store)
    requires Good(reg) && c < |reg.parents| && Checked(world, reg, c, specs)
    ensures InvokedFrom(world, reg, c, specs, st).1.deferred == reg.deferred
  {
    hide Good, NewParams, Env.MissingList, Viewed, Invoke, Refuses;
    InvokeIsSafe(reg, c, specs);
  }

  /** The first Invoke, and what it leaves */
  lemma FirstAnswer(world: World, reg: Registry)
    requires Tells(reg, false, Pair, [Outer, User]) && reg.decorators == map[] && Returns(world)
    ensures Good(reg) && 1 < |reg.parents| && Checked(world, reg, 1, Question.specs)
    ensures var (outcome, reg', st') := InvokedFrom(world, reg, 1, Question.specs, Empty);
            var v := MadeUser(world, MadeOuter(world));
            && outcome == Built([v]) && Tells(reg', false, Pair, [Outer, User]) && reg'.decorators == map[]
            && st'.decorated == map[] && Slot(1, Named(1)) in st'.values && st'.values[Slot(1, Named(1))] == v
  {
    hide Tells, Returns, Shown, Checked, InvokedFrom, Env.BuildSingle, Env.Closed, Env.Below, IsDag, GraphOf, Good,
         NodesNumbered;
    TellsGood(reg, false, Pair, [Outer, User]);
    var e := Show(world, reg, [Outer, User]);
    ShownClosed(e, [Outer, User]);
    PairSees(e, [Outer, User]);
    FromChild(e, [Outer, User], Empty, Named(1));
    PairRanked(e, [Outer, User], Named(1), 1);
    FirstBuilt(e);
    AskOne(e, false, Pair, [Outer, User], Named(1), 1, Empty);
    InvokedKeepsGood(world, reg, 1, Question.specs, Empty);
    InvokedKeepsDeferred(world, reg, 1, Question.specs, Empty);
    TellsStays(reg, InvokedFrom(world, reg, 1, Question.specs, Empty).1, [Outer, User]);
  }

  /** The second Invoke, after the child has been provided with a value of its own */
  lemma SecondAnswer(world: World, reg: Registry, st: Store)
    requires Tells(reg, false, Pair, [Outer, User, Inner]) && reg.decorators == map[] && Returns(world)
    requires st.decorated == map[] && Slot(1, Named(1)) in st.values
    ensures Good(reg) && 1 < |reg.parents| && Checked(world, reg, 1, Question.specs)
    ensures InvokedFrom(world, reg, 1, Question.specs, st).0 == Built([st.values[Slot(1, Named(1))]])
    ensures var e := SeenFromAll(world, reg);
            Layered(e) && Expected(e, MeaningOf(e), reg, Question) == Built([MadeUser(world, MadeInner(world))])
  {
    hide Tells, Returns, Shown, Checked, InvokedFrom, Env.BuildSingle, Env.Closed, Env.Below, IsDag, GraphOf, Good,
         NodesNumbered, MeaningOf, CtorLayered, DecoratorLayered, EvalInvoke, SeenFromAll, UnprovidedList, IsMeaning,
         NewParams;
    var rows := [Outer, User, Inner];
    TellsGood(reg, false, Pair, rows);
    var e := Show(world, reg, rows);
    ShownClosed(e, rows);
    PairSees(e, rows);
    FromChild(e, rows, st, Named(1));
    PairRanked(e, rows, Named(1), 1);
    KeptValue(e, rows, st, Named(1));
    AskOne(e, false, Pair, rows, Named(1), 1, st);
    TellsUsual(reg, rows);
    UsualIsSound(world, reg);
    MeaningExists(e);
    SecondMeans(e, MeaningOf(e));
    GoodTree(reg);
    NewSingles(reg, 1, [Named(1)]);
    NotCyclic(reg);
  }

  lemma NotCyclic(reg: Registry)
    requires Good(reg) && 1 < |reg.parents| && NodesNumbered(reg) && 1 < |reg.nodes| && IsDag(GraphOf(reg, 1))
    ensures !Refuses(reg, 1, Question.specs)
  {
    hide Inv, IsDag, GraphOf, DecoratorsListed;
    GoodTree(reg);
    NewSingles(reg, 1, [Named(1)]);
  }

  /** The child is asked for the value 1, then provided with a value 0, and asked again: it hands out the value 1 that
      was made from the root's value 0, which is not what it would make now. */
  lemma LateProvideIsTooLate(world: World)
    requires Returns(world)
    requires MadeUser(world, MadeOuter(world)) != MadeUser(world, MadeInner(world))
    ensures CleanHistory(false, EarlyOps)
    ensures var reg := History(false, EarlyOps);
            && Good(reg) && 1 < |reg.parents| && Checked(world, reg, 1, Question.specs)
            && (var (_, reg1, st1) := InvokedFrom(world, reg, 1, Question.specs, Empty);
                var op := ProvideOf(Inner, false);
                && Good(reg1) && Clean(reg1, op)
                && (var reg2 := Step(reg1, op);
                    var e := SeenFromAll(world, reg2);
                    && Usual(reg2) && Layered(e) && 1 < |reg2.parents| && Checked(world, reg2, 1, Question.specs)
                    && InvokedFrom(world, reg2, 1, Question.specs, st1).0 != Expected(e, MeaningOf(e), reg2, Question)))
  {
    hide Tells, Returns, Checked, InvokedFrom, Expected, MeaningOf, Layered, SeenFromAll, Good, Stage, History,
         CleanHistory, Step, Clean, MadeUser, MadeOuter, MadeInner, Usual, Row.Valid, RowsFall;
    var reg := EarlyIsReached();
    StageIs(reg, false, EarlyOps, Pair, [Outer, User]);
    FirstAnswer(world, reg);
    var (_, reg1, st1) := InvokedFrom(world, reg, 1, Question.specs, Empty);
    TellsGood(reg1, false, Pair, [Outer, User]);
    MakesIsValid([], 0, 1);
    PairFalls([Outer, User] + [Inner]);
    ProvideRow(reg1, false, Pair, [Outer, User], Inner, false, Depth);
    assert [Outer, User] + [Inner] == [Outer, User, Inner];
    var reg2 := Step(reg1, ProvideOf(Inner, false));
    TellsUsual(reg2, [Outer, User, Inner]);
    SecondAnswer(world, reg2, st1);
  }
}
