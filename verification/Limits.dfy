/** Where the guarantees end: concrete containers for which they fail. */
module Limits {
  import opened Values
  import opened ResultTree
  import opened Extraction
  import opened Registry
  import opened Registration
  import opened RegistrationInvariant
  import opened RegistrationSteps
  import opened Resolver
  import opened Coverage
  import opened Refinement
  import opened Runs
  import opened Sessions
  import opened Independence
  import opened Invocation
  import opened Guarantees
  import opened Scenario
  import opened Digraph

  // ---------------------------------------------------------------------------------------------
  // Resolving in a small container

  lemma OneParam(k: Key)
    ensures SingleParams([k]) == [SingleParam(k, false)] && ListLeaves(SingleParams([k])) == {k}
  {
    SinglesAsk([k]);
  }

  /** An Invoke of a function with one parameter */
  lemma {:induction false} InvokeOne(e: Env, k: Key, c: nat, st: Store)
    requires e.Closed() && c in e.scopes && e.reg.AllProviders(c, k) != [] && e.Below({k}, c, e.Top())
    ensures var r := e.BuildSingle(k, false, c, e.Top(), st);
            Invoke(e, SingleParams([k]), c, st)
              == (if r.0.Ok? then Ok([r.0.value]) else Fail(ArgumentsFailed(r.0.error)), r.1)
  {
    hide Env.BuildSingle, Env.Closed, Env.Below;
    OneParam(k);
    var ps := SingleParams([k]);
    assert ps[1..] == [];
    assert e.MissingList(st, ps, c) == [];
    BuildOne(e, k, c, e.Top(), st);
  }

  lemma NothingBelow(e: Env, c: nat, level: nat)
    ensures e.Below(ListLeaves([]), c, level)
  {}

  lemma {:induction false} BuildOne(e: Env, k: Key, c: nat, level: nat, st: Store)
    requires e.Closed() && c in e.scopes && e.Below({k}, c, level)
    ensures e.Below(ListLeaves(SingleParams([k])), c, level)
    ensures var r := e.BuildSingle(k, false, c, level, st);
            e.BuildList(SingleParams([k]), c, level, st) == (if r.0.Ok? then Ok([r.0.value]) else Fail(r.0.error), r.1)
  {
    hide Env.BuildSingle, Env.Below, Env.Closed;
    OneParam(k);
    var ps := SingleParams([k]);
    assert ps[1..] == [];
    assert e.Below(ListLeaves([]), c, level) by { NothingBelow(e, c, level); }
    var (v, st1) := e.BuildSingle(k, false, c, level, st);
    assert e.Build(ps[0], c, level, st) == (v, st1);
    assert e.BuildList([], c, level, st1) == (Ok([]), st1);
    if v.Ok? { assert [v.value] + [] == [v.value]; }
  }

  lemma {:induction false} CallOne(e: Env, n: nat, level: nat, st: Store)
    requires e.Closed() && n in e.rank && e.rank[n] < level && e.CallCtor(n, st).0.None?
    ensures e.CallAll([n], level, st) == (None, e.CallCtor(n, st).1)
  {
    hide Env.CallCtor, Env.Closed;
    assert [n][1..] == [];
    assert e.CallAll([n][1..], level, e.CallCtor(n, st).1) == (None, e.CallCtor(n, st).1);
  }

  /** In a container without a cycle and without groups, an Invoke of a function with one parameter does what the view
      says. */
  lemma {:induction false} AskOne(e: Env, deferred: bool, parents: seq<Option<nat>>, rows: seq<Row>, k: Key, c: nat,
          st: Store)
    requires Tells(e.reg, deferred, parents, rows) && e.Closed() && c in e.scopes && c < |parents|
    requires e.reg.AllProviders(c, k) != [] && e.Below({k}, c, e.Top()) && IsDag(GraphOf(e.reg, c))
    ensures Checked(e.world, e.reg, c, SingleSpecs([k]))
    ensures var r := e.BuildSingle(k, false, c, e.Top(), st);
            var (outcome, reg', st') := InvokedFrom(e.world, e.reg, c, SingleSpecs([k]), st);
            && outcome == (if r.0.Ok? then Built([r.0.value]) else NotBuilt(ArgumentsFailed(r.0.error)))
            && st' == r.1 && Alike(e.reg, reg')
  {
    hide Good, Env.Closed, Env.BuildSingle, Env.Below, Checked, InvokedFrom, IsDag, GraphOf, Listing, Invoke;
    GoodTree(e.reg);
    NewSingles(e.reg, c, [k]);
    ViewIsChecked(e, e.reg, c, SingleSpecs([k]));
    InvokedFromIsInvoke(e, e.reg, c, SingleSpecs([k]), st);
    InvokeOne(e, k, c, st);
  }

  // ---------------------------------------------------------------------------------------------
  // A value group without a name

  /** A result object whose field is put in a group without a name; such a group can only be flattened. */
  const Nameless := Row([], ObjectResult([ResultField(0, GroupedResult("", Plain(0), true, []))]), Named(0), 0, 0)

  const NamelessOps := [ProvideOf(Nameless, false)]

  function Flat(c: nat, n: nat): nat { 0 }

  lemma NamelessEntries()
    ensures Entries(Nameless.result) == [Entry(Named(0), false)] && SingleKeysOf(Entries(Nameless.result)) == {}
  {
    var fields := Nameless.result.fields;
    assert fields[1..] == [];
    assert FieldEntries(fields[1..]) == [];
    assert Entries(fields[0].result) == [Entry(Named(0), false)];
    assert FieldEntries(fields) == Entries(fields[0].result) + FieldEntries(fields[1..]);
  }

  lemma NamelessIsReached() returns (reg: Registry)
    ensures Stage(reg, false, NamelessOps, [None], [Nameless]) && reg.decorators == map[]
  {
    hide Stage, Free, RowsFall;
    var reg0 := StageNew(false);
    NamelessFree();
    reg := StageProvide(reg0, false, [], [None], [], Nameless, false, Flat);
    assert [] + NamelessOps == NamelessOps && [] + [Nameless] == [Nameless];
  }

  lemma NamelessFree()
    ensures Free([], Nameless) && RowsFall([None], [] + [Nameless], Flat)
  {
    NamelessEntries();
  }

  /** The whole container as seen from its root, which is its only scope */
  ghost predicate Alone(e: Env, rows: seq<Row>) {
    && Tells(e.reg, false, [None], rows) && e.scopes == {0} && e.Closed() && e.reg.PathToRoot(0) == [0]
    && IsDag(GraphOf(e.reg, 0))
  }

  lemma {:induction false} RootProviders(reg: Registry, rows: seq<Row>, k: Key)
    requires Tells(reg, false, [None], rows)
    ensures reg.PathToRoot(0) == [0] && reg.AllProviders(0, k) == Listing(rows, 0, k)
  {
    hide Good, Listing;
    assert Ancestors(reg.parents, 0) == [0];
    assert [0][1..] == [];
    assert reg.ProvidersOn([0], k) == reg.Providers(0, k) + reg.ProvidersOn([0][1..], k);
  }

  lemma AloneIsRanked(e: Env, rows: seq<Row>, n: nat)
    requires Tells(e.reg, false, [None], rows) && n < |rows|
    requires forall m :: m in e.rank <==> 0 <= m < |rows|
    requires forall m :: 0 <= m < |rows| ==> rows[m].scope == rows[m].orig == 0
    requires forall m :: 0 <= m < |rows| && rows[m].key in rows[n].takes ==> e.rank[m] < e.rank[n]
    ensures e.reg.ctors[n].results.Valid() && e.Below(ListLeaves(e.reg.ctors[n].params), e.reg.ctors[n].orig, e.rank[n])
  {
    hide Good, Registry.AllProviders;
    OnlyDeclares(rows[n].result);
    SinglesAsk(rows[n].takes);
    forall k ensures e.reg.AllProviders(0, k) == Listing(rows, 0, k) { RootProviders(e.reg, rows, k); }
  }

  lemma AloneIsClosed(e: Env, rows: seq<Row>)
    requires Tells(e.reg, false, [None], rows) && e.scopes == {0} && rows != []
    requires forall n :: n in e.rank <==> 0 <= n < |rows|
    requires forall n :: 0 <= n < |rows| ==> rows[n].scope == rows[n].orig == 0
    requires forall n, m :: 0 <= n < |rows| && 0 <= m < |rows| && rows[m].key in rows[n].takes ==> e.rank[m] < e.rank[n]
    ensures Alone(e, rows)
  {
    hide Tells, IsDag, GraphOf, Env.Below, NodesNumbered;
    AloneIsListed(e, rows);
    forall n | n in e.rank
      ensures e.reg.ctors[n].results.Valid()
      ensures e.Below(ListLeaves(e.reg.ctors[n].params), e.reg.ctors[n].orig, e.rank[n])
    {
      AloneIsRanked(e, rows, n);
    }
    AloneIsAcyclic(e.reg, rows);
  }

  lemma AloneIsListed(e: Env, rows: seq<Row>)
    requires Tells(e.reg, false, [None], rows) && e.scopes == {0}
    requires forall n :: n in e.rank <==> 0 <= n < |rows|
    requires forall n :: 0 <= n < |rows| ==> rows[n].scope == rows[n].orig == 0
    ensures e.reg.PathToRoot(0) == [0] && |e.reg.parents| == 1 && e.ProvidersRanked() && e.DecoratorsPlaced()
    ensures |e.reg.ctors| == |rows| && forall n :: 0 <= n < |rows| ==> e.reg.ctors[n].orig == 0
  {
    hide Inv, AllDecorating;
    assert Ancestors(e.reg.parents, 0) == [0];
    forall s, k, n | s in e.scopes && n in e.reg.Providers(s, k)
      ensures n in e.rank
    {
      assert n in Listing(rows, s, k);
    }
  }

  lemma AloneIsAcyclic(reg: Registry, rows: seq<Row>)
    requires Tells(reg, false, [None], rows) && rows != [] && rows[0].scope == 0
    ensures NodesNumbered(reg) && IsDag(GraphOf(reg, 0))
  {
    hide CtorsOrdered, GroupsOrdered, ProvidersListed, ProvidersPlaced, CtorsListed, ProvidersApart, OrdersScoped,
         IsDag, GraphOf;
    assert 0 in Listing(rows, 0, rows[0].key);
    assert Provides(reg, 0, rows[0].key);
  }

  /** A group tag without a name registers a single key that no value is ever written for: whatever the constructor
      returns, a function that asks for the key is given no value at all. */
  lemma NamelessGroupIsNeverWritten(world: World)
    ensures CleanHistory(false, NamelessOps)
    ensures var reg := History(false, NamelessOps);
            && 0 < |reg.parents| && reg.Providers(0, Named(0)) == [0]
            && Checked(world, reg, 0, SingleSpecs([Named(0)]))
            && InvokedFrom(world, reg, 0, SingleSpecs([Named(0)]), Empty).0 == Built([NoValue])
  {
    hide Tells, Stage, Checked, InvokedFrom, Alone, History, CleanHistory, Listing, Good;
    var reg := NamelessIsReached();
    StageIs(reg, false, NamelessOps, [None], [Nameless]);
    var e := Env(world, reg, {0}, map[0 := 0], map[]);
    AloneIsClosed(e, [Nameless]);
    AskNameless(e);
  }

  lemma AskNameless(e: Env)
    requires Alone(e, [Nameless]) && e.rank == map[0 := 0] && e.reg.decorators == map[] && Good(e.reg)
    requires 0 < |e.reg.parents|
    ensures Checked(e.world, e.reg, 0, SingleSpecs([Named(0)])) && e.reg.Providers(0, Named(0)) == [0]
    ensures InvokedFrom(e.world, e.reg, 0, SingleSpecs([Named(0)]), Empty).0 == Built([NoValue])
  {
    hide Tells, Checked, InvokedFrom, Env.BuildSingle, Listing, Good, Env.Closed, IsDag, GraphOf, Env.Below;
    NamelessBuilt(e);
    AloneIs(e, [Nameless], Named(0));
    AskOne(e, false, [None], [Nameless], Named(0), 0, Empty);
  }

  lemma {:induction false} AloneIs(e: Env, rows: seq<Row>, k: Key)
    requires Alone(e, rows)
    ensures e.Closed() && 0 in e.scopes && NodesNumbered(e.reg) && |e.reg.nodes| == 1 && IsDag(GraphOf(e.reg, 0))
    ensures e.reg.AllProviders(0, k) == e.reg.Providers(0, k) == Listing(rows, 0, k) && e.Below({k}, 0, e.Top())
  {
    OnePath(e, Empty, k);
    e.AllBelowTop({k}, 0);
  }

  lemma {:induction false} NamelessBuilt(e: Env)
    requires Alone(e, [Nameless]) && e.rank == map[0 := 0] && e.reg.decorators == map[]
    ensures e.Below({Named(0)}, 0, e.Top()) && e.BuildSingle(Named(0), false, 0, e.Top(), Empty).0 == Ok(NoValue)
    ensures e.reg.Providers(0, Named(0)) == [0]
  {
    hide Tells, Env.Closed, Env.CallCtor;
    var k := Named(0);
    AloneIs(e, [Nameless], k);
    OnePath(e, Empty, k);
    assert Listing([Nameless], 0, k) == [0] by { assert [Nameless][..0] == []; }
    e.BelowProviders(k, 0, 0, e.Top());
    NamelessRuns(e);
    CallOne(e, 0, e.Top(), Empty);
  }

  lemma {:induction false} NamelessRuns(e: Env)
    requires Alone(e, [Nameless]) && e.rank == map[0 := 0]
    ensures e.CallCtor(0, Empty).0 == None && Slot(0, Named(0)) !in e.CallCtor(0, Empty).1.values
  {
    hide Good, Store.Commit, Produce;
    var ctor := e.reg.ctors[0];
    OnlyDeclares(Nameless.result);
    NamelessEntries();
    assert ctor.params == [];
    assert e.BuildList([], 0, 0, Empty) == (Ok([]), Empty);
    var vals := Fit(e.world.ctor(0, []), 1);
    OnlySucceeds(Nameless.result, vals);
    RegisteredKeysAreWritten(ctor.results, vals);
    CommitAdds(Empty.(runs := [0]), 0, Produce(ctor.results, vals).written);
  }

  /** A function that returns one value, which is not an error, does not fail. */
  lemma OnlySucceeds(r: Result, vals: seq<Value>)
    requires |vals| == 1 && Only(r).Valid()
    ensures Produce(Only(r), vals).Produced?
  {
    assert ExtractFrom(Only(r), false, vals, 1).error.None?;
    assert ExtractFrom(Only(r), false, vals, 0).error.None?;
  }

  /** Exactly the grouped results without a group name make the difference: every registered key that a single
      parameter can ask for is written if and only if each nameless group key is also the key of a single result. */
  lemma NamelessGroupsAreTheLimit(rl: ResultList, vals: seq<Value>)
    requires rl.Valid() && |vals| == |rl.indexes| && Produce(rl, vals).Produced?
    ensures (forall k :: k in KeysOf(ListEntries(rl.results)) && !k.IsGroup() ==> k in Produce(rl, vals).written.values)
       <==> (forall x :: x in ListEntries(rl.results) && !x.single && !x.key.IsGroup() ==>
               x.key in SingleKeysOf(ListEntries(rl.results)))
  {
    RegisteredKeysAreWritten(rl, vals);
    var es := ListEntries(rl.results);
    forall x | x in es ensures x.key in KeysOf(es) {}
  }

  // ---------------------------------------------------------------------------------------------
  // A cycle that only a descendant of the target scope can see

  /** In the child, a constructor makes the value 1 from the value 0; then the root is to make the value 0 from the
      value 1. */
  const Below1 := Makes([Named(0)], Named(1), 1)
  const Late := Makes([Named(1)], Named(0), 0)
  const ParentOps := [ScopeOp(0), ProvideOf(Below1, false)]

  lemma {:induction false} TwoPaths(parents: seq<Option<nat>>)
    requires parents == [None, Some(0)]
    ensures Ancestors(parents, 0) == [0] && Ancestors(parents, 1) == [1, 0]
  {}

  lemma MakesIsValid(takes: seq<Key>, i: nat, scope: nat)
    ensures Makes(takes, Named(i), scope).Valid()
  {
    SingleEntry(Named(i));
  }

  lemma ParentIsReached() returns (reg: Registry)
    ensures Stage(reg, false, ParentOps, [None, Some(0)], [Below1])
  {
    hide Stage, RowsFall, Row.Valid;
    var reg0 := StageNew(false);
    var reg1 := StageScope(reg0, false, [], [None], [], 0);
    var parents := [None] + [Some(0)];
    MakesIsValid([Named(0)], 1, 1);
    Below1Falls();
    assert parents == [None, Some(0)] && [] + [Below1] == [Below1];
    reg := StageProvide(reg1, false, [] + [ScopeOp(0)], parents, [], Below1, false, Flat);
    assert [] + [ScopeOp(0)] + [ProvideOf(Below1, false)] == ParentOps;
  }

  lemma Below1Falls()
    ensures RowsFall([None, Some(0)], [Below1], Flat)
  {}

  /** The candidate passes the check in the root, but not in the child. */
  lemma LateCandidate(reg: Registry)
    requires Tells(reg, false, [None, Some(0)], [Below1]) && Tables(reg) && Sized(reg)
    ensures var cand := Joining(reg, Late);
            && Tables(cand) && |cand.nodes| == 2 && cand.deferred == reg.deferred
            && IsDag(GraphOf(cand, 0)) && !IsDag(GraphOf(cand, 1))
    ensures !Provides(reg, 0, Named(0))
  {
    hide FlagsSound, IsDag, GraphOf, Joining, Falls, AllGroupsKnown, DecoratorsListed, CtorsOrdered, GroupsOrdered,
         ProvidersListed, ProvidersPlaced, CtorsListed, ProvidersApart, OrdersScoped;
    MakesIsValid([Named(1)], 0, 0);
    HeadIsMember(reg.Providers(0, Named(0)));
    JoiningIs(reg, Late);
    var cand := Joining(reg, Late);
    CandidateTells(reg, [Below1], Late, cand);
    assert [Below1] + [Late] == [Below1, Late];
    LateInRoot(cand);
    LateInChild(cand);
  }

  ghost predicate BothRows(cand: Registry) {
    && Tables(cand) && cand.parents == [None, Some(0)] && cand.ctors == [Below1.Provider(), Late.Provider()]
    && forall s, k :: cand.Providers(s, k) == Listing([Below1, Late], s, k)
  }

  lemma LateInRoot(cand: Registry)
    requires BothRows(cand)
    ensures IsDag(GraphOf(cand, 0))
  {
    hide Tables;
    TablesFacts(cand);
    TwoPaths(cand.parents);
    LateLeaves();
    var f: nat -> nat := n => 0;
    forall n: nat | n < 2 && CtorNode(n) in cand.nodes[0] ensures n == 1 { RootHolds(cand, n); }
    NotInRoot(cand);
    assert AllGroupsKnown(cand, 0);
    FallingIsAcyclic(cand, 0, f);
  }

  lemma NotInRoot(cand: Registry)
    requires BothRows(cand)
    ensures cand.AllProviders(0, Named(1)) == []
  {
    hide Tables;
    TwoPaths(cand.parents);
    assert [0][1..] == [];
    HeadIsMember(Listing([Below1, Late], 0, Named(1)));
    assert cand.ProvidersOn([0], Named(1)) == cand.Providers(0, Named(1)) + cand.ProvidersOn([0][1..], Named(1));
  }

  lemma LateLeaves()
    ensures ListLeaves(Below1.Provider().params) == {Named(0)} && ListGroupLeaves(Below1.Provider().params) == {}
    ensures ListLeaves(Late.Provider().params) == {Named(1)} && ListGroupLeaves(Late.Provider().params) == {}
  {
    SinglesAsk([Named(0)]);
    SinglesAsk([Named(1)]);
  }

  lemma RootHolds(reg: Registry, n: nat)
    requires Tables(reg) && |reg.nodes| > 0 && CtorNode(n) in reg.nodes[0] && reg.PathToRoot(0) == [0]
    ensures n < |reg.ctors| && reg.ctors[n].scope == 0
  {}

  lemma LateInChild(cand: Registry)
    requires BothRows(cand)
    ensures !IsDag(GraphOf(cand, 1))
  {
    TwoPaths(cand.parents);
    LateLeaves();
    assert 0 in Listing([Below1, Late], 1, Named(1)) && 1 in Listing([Below1, Late], 0, Named(0));
    ProvidersOnMember(cand, [1, 0], Named(1), 0);
    ProvidersOnMember(cand, [1, 0], Named(0), 1);
    VisibleProviderPlaced(cand, 1, Named(1), 0);
    VisibleProviderPlaced(cand, 1, Named(0), 1);
    assert CtorNode(0) in cand.nodes[1] && CtorNode(1) in cand.nodes[1];
    hide Tables;
    assert AllGroupsKnown(cand, 1);
    forall f ensures !Falls(cand, 1, f) { TurnsBack(cand, f); }
    CheckIsExact(cand, 1);
  }

  lemma TurnsBack(cand: Registry, f: nat -> nat)
    requires |cand.nodes| == 2 && CtorNode(0) in cand.nodes[1] && CtorNode(1) in cand.nodes[1]
    requires cand.ctors == [Below1.Provider(), Late.Provider()]
    requires 0 in cand.AllProviders(1, Named(1)) && 1 in cand.AllProviders(1, Named(0))
    ensures Falls(cand, 1, f) ==> f(1) < f(0)
    ensures Falls(cand, 1, f) ==> f(0) < f(1)
  {
    hide Registry.AllProviders;
    LateLeaves();
  }

  /** This Provide is rejected for the cycle in the child, and yet the root goes on listing the constructor. */
  lemma DescendantCycleIsNotUndone()
    ensures CleanHistory(false, ParentOps)
    ensures var reg := History(false, ParentOps);
            && Tables(reg) && 0 < |reg.parents|
            && OnlyDescendantCycles(reg, 0, false, SingleSpecs(Late.takes), [DeclaredResult(Late.result)])
            && (var (outcome, reg') := Provide(reg, 0, false, SingleSpecs(Late.takes), [DeclaredResult(Late.result)]);
                outcome.CycleIn? && outcome.scope != 0 && !SameRegistrations(reg, reg'))
  {
    hide Tables, Provide, SameRegistrations, OnlyDescendantCycles, Tells, Stage, History, CleanHistory;
    var reg := ParentIsReached();
    StageIs(reg, false, ParentOps, [None, Some(0)], [Below1]);
    GoodTables(reg);
    LateIsForeseen(reg);
    ProvideForeseen(reg, 0, false, SingleSpecs(Late.takes), [DeclaredResult(Late.result)]);
    ProvideIsAllOrNothing(reg, 0, false, SingleSpecs(Late.takes), [DeclaredResult(Late.result)]);
  }

  lemma LateIsForeseen(reg: Registry)
    requires Tells(reg, false, [None, Some(0)], [Below1]) && Tables(reg)
    ensures OnlyDescendantCycles(reg, 0, false, SingleSpecs(Late.takes), [DeclaredResult(Late.result)])
  {
    hide Tables, IsDag, GraphOf, NodesNumbered, TreeOk, Acceptable, KeysOfCtor, ListEntries, Listing, Good;
    TablesFacts(reg);
    LateCandidate(reg);
    MakesIsValid([Named(1)], 0, 0);
    RowIsAcceptable(reg, Late);
    OnlyDeclares(Late.result);
    NewSingles(Snapshot(reg, 0), 0, Late.takes);
    CandidateFacts(reg, 0, 0, SingleSpecs(Late.takes), Only(Late.result));
    TwoPaths(reg.parents);
    assert Within(reg, 0, 1) && !Passes(Joining(reg, Late), 1);
  }

  /** The state that a rejection below the target scope leaves: the nodes are taken back, the orders stay. */
  lemma RejectedLeaves(reg: Registry, reg1: Registry, reg2: Registry, ctor: Ctor, k: Key)
    requires Tables(reg) && ctor.scope < |reg.parents| && reg1.ctors == reg.ctors && KeysOfCtor(ctor) == {k}
    requires Grown(Snapshot(reg, ctor.scope), reg1, ctor.scope) && Grown(reg1, reg2, ctor.scope)
    requires Check(reg, reg1, reg2, ctor).0.CycleIn? && Check(reg, reg1, reg2, ctor).0.scope != ctor.scope
    ensures var reg' := Check(reg, reg1, reg2, ctor).1;
            && reg'.nodes == reg.nodes && reg'.orders == reg2.orders && reg'.ctors == reg2.ctors
            && reg'.parents == reg.parents
            && reg'.groupKeys == reg2.groupKeys && |reg'.verified| == |reg.parents|
            && reg'.Providers(ctor.scope, k) == reg.Providers(ctor.scope, k) + [|reg.ctors|]
            && (var rejected := Check(reg, reg1, reg2, ctor).0.scope;
                rejected < |reg.parents| && Within(reg, ctor.scope, rejected) && !reg'.verified[rejected])
  {
    hide CtorsOrdered, GroupsOrdered, ProvidersListed, ProvidersPlaced, CtorsListed, ProvidersApart, OrdersScoped,
         IsDag, GraphOf, Grown;
    var t := ctor.scope;
    CheckLeavesListed(reg, reg1, reg2, ctor, k);
    var reg3 := List(reg2, t, KeysOfCtor(ctor), |reg1.ctors|);
    ListedSized(reg, reg1, reg2, reg3, t);
    var cs := Subscopes(reg, t);
    forall c | c in cs ensures Within(reg, t, c) { SubscopesMembers(reg, t, c); }
    CheckRejects(reg3, cs);
    RejectedUnverified(reg3, cs);
    GrownFromSnapshot(reg, reg1, reg2, t);
    RollbackUndoes(reg, reg2, t);
    var (rejected, reg4) := CheckScopes(reg3, cs);
    RolledNodes(reg2, Restore(reg4, rejected.value, KeysOfCtor(ctor), reg, t), t);
  }

  lemma RolledNodes(reg2: Registry, reg5: Registry, t: nat)
    requires |reg2.nodes| == |reg2.parents| == |reg2.snaps|
    requires reg5 == reg2.(providers := reg5.providers, verified := reg5.verified)
    ensures Rollback(reg5, t).nodes == Rollback(reg2, t).nodes
  {
    assert forall c :: Within(reg5, t, c) == Within(reg2, t, c);
  }

  lemma {:induction false} RejectedUnverified(reg: Registry, cs: seq<nat>)
    requires Sized(reg) && NodesNumbered(reg) && (forall c :: c in cs ==> c < |reg.parents|)
    requires CheckScopes(reg, cs).0.Some?
    ensures var (rejected, reg') := CheckScopes(reg, cs);
            rejected.value < |reg'.verified| && !reg'.verified[rejected.value]
    decreases |cs|
  {
    hide IsDag, GraphOf;
    assert cs[0] in cs && forall c :: c in cs[1..] ==> c in cs;
    var reg1 := reg.(verified := reg.verified[cs[0] := !reg.deferred[cs[0]]]);
    if CheckScopes(reg1, cs[1..]).0.Some? { RejectedUnverified(reg1, cs[1..]); }
  }

  /** An edge of the child's graph then leads to a node that the graph does not have, and the child is to be checked
      again: the check for cycles that its next Invoke makes follows that edge out of the graph. */
  lemma RejectionLeavesDanglingEdge()
    ensures CleanHistory(false, ParentOps)
    ensures var reg := History(false, ParentOps);
            && TreeOk(reg) && NodesNumbered(reg) && 0 < |reg.parents|
            && (var (outcome, reg') := Provide(reg, 0, false, SingleSpecs(Late.takes), [DeclaredResult(Late.result)]);
                && outcome == CycleIn(1) && |reg'.nodes| == |reg'.verified| == 2 && NodesNumbered(reg')
                && !InRange(GraphOf(reg', 1)) && !reg'.verified[1])
  {
    hide Tables, Provide, Tells, Stage, History, CleanHistory, OnlyDescendantCycles, GraphOf, InRange, NodesNumbered,
         TreeOk, Good;
    var reg := ParentIsReached();
    StageIs(reg, false, ParentOps, [None, Some(0)], [Below1]);
    GoodTables(reg);
    TablesFacts(reg);
    LateIsForeseen(reg);
    ProvideForeseen(reg, 0, false, SingleSpecs(Late.takes), [DeclaredResult(Late.result)]);
    LateLeaves1(reg);
    DanglingEdge(Provide(reg, 0, false, SingleSpecs(Late.takes), [DeclaredResult(Late.result)]).1);
  }

  /** What the rejected Provide leaves of its constructor, number 1 */
  ghost predicate Leftover(reg: Registry) {
    && reg.parents == [None, Some(0)] && |reg.verified| == 2 && |reg.nodes| == 2 && NodesNumbered(reg)
    && CtorNode(0) in reg.nodes[1] && reg.Order(CtorNode(1), 1) == |reg.nodes[1]| && !reg.verified[1]
    && |reg.ctors| == 2 && reg.ctors[0] == Below1.Provider() && 1 in reg.Providers(0, Named(0))
  }

  lemma LateLeaves1(reg: Registry)
    requires Tells(reg, false, [None, Some(0)], [Below1]) && Tables(reg)
    requires OnlyDescendantCycles(reg, 0, false, SingleSpecs(Late.takes), [DeclaredResult(Late.result)])
    ensures var (outcome, reg') := Provide(reg, 0, false, SingleSpecs(Late.takes), [DeclaredResult(Late.result)]);
            outcome == CycleIn(1) && Leftover(reg')
  {
    hide Tables, Tells, Grown, TreeOk, NodesNumbered, Check, NewCtor, Acceptable, OnlyDescendantCycles, ListEntries,
         Rollback, Leftover, Good;
    TablesFacts(reg);
    TellsGood(reg, false, [None, Some(0)], [Below1]);
    var specs, ds := SingleSpecs(Late.takes), [DeclaredResult(Late.result)];
    ProvideForeseen(reg, 0, false, specs, ds);
    MakesIsValid([Named(1)], 0, 0);
    assert !Provides(reg, 0, Named(0)) by { NotListed(reg, false, [None, Some(0)], [Below1], Late); }
    RowIsAcceptable(reg, Late);
    OnlyDeclares(Late.result);
    SnapshotSized(reg, 0);
    var reg0 := Snapshot(reg, 0);
    NewSingles(reg0, 0, Late.takes);
    NewParamsGrow(reg0, 0, specs);
    NewCtorGrows(reg0, 0, Late.Provider());
    LateRejected(reg);
  }

  lemma SnapshotSized(reg: Registry, t: nat)
    requires TreeOk(reg)
    ensures |reg.nodes| == |reg.parents| == |reg.snaps|
    ensures var reg0 := Snapshot(reg, t); reg0 == reg.(snaps := reg0.snaps) && |reg0.nodes| == |reg0.parents|
  {}

  lemma LateRejected(reg: Registry)
    requires Tells(reg, false, [None, Some(0)], [Below1]) && Tables(reg)
    requires var reg0 := Snapshot(reg, 0);
             var reg2 := NewCtor(reg0, 0, Late.Provider());
             && Grown(reg0, reg0, 0) && Grown(reg0, reg2, 0)
             && Check(reg, reg0, reg2, Late.Provider()).0.CycleIn?
             && Check(reg, reg0, reg2, Late.Provider()).0.scope != 0
    ensures var reg0 := Snapshot(reg, 0);
            var (outcome, reg') := Check(reg, reg0, NewCtor(reg0, 0, Late.Provider()), Late.Provider());
            outcome == CycleIn(1) && Leftover(reg')
  {
    hide Tables, Grown, IsDag, GraphOf, Listing, Good, NodesNumbered, TreeOk, Check, NewCtor, KeysOfCtor, Snapshot;
    TablesFacts(reg);
    SnapshotSized(reg, 0);
    var reg0, ctor := Snapshot(reg, 0), Late.Provider();
    var reg2 := NewCtor(reg0, 0, ctor);
    assert KeysOfCtor(ctor) == {Named(0)} by { LateKeys(); }
    RejectedLeaves(reg, reg0, reg2, ctor, Named(0));
    TwoPaths(reg.parents);
    LateNode(reg0, ctor);
    ChildHolds(reg);
    LeftoverNumbered(reg, Check(reg, reg0, reg2, ctor).1);
  }

  lemma LateKeys()
    ensures KeysOfCtor(Late.Provider()) == {Named(0)}
  {
    OnlyDeclares(Late.result);
    SingleEntry(Named(0));
  }

  lemma LateNode(reg0: Registry, ctor: Ctor)
    requires |reg0.nodes| == |reg0.parents| && reg0.parents == [None, Some(0)] && |reg0.ctors| == 1
    ensures var reg2 := NewCtor(reg0, 0, ctor);
            && reg2.Order(CtorNode(1), 1) == |reg0.nodes[1]|
            && reg2.ctors == reg0.ctors + [ctor] && reg2.groupKeys == reg0.groupKeys
  {
    TwoPaths(reg0.parents);
    assert Within(reg0.(ctors := reg0.ctors + [ctor]), 0, 1);
    AddNodeAdds(reg0.(ctors := reg0.ctors + [ctor]), 0, CtorNode(1));
  }

  lemma LeftoverNumbered(reg: Registry, reg': Registry)
    requires NodesNumbered(reg) && reg'.nodes == reg.nodes && reg.ctors <= reg'.ctors && reg.groupKeys <= reg'.groupKeys
    ensures NodesNumbered(reg')
  {
    forall s, i | 0 <= s < |reg'.nodes| && 0 <= i < |reg'.nodes[s]| ensures Numbered(reg', reg'.nodes[s][i]) {
      assert Numbered(reg, reg.nodes[s][i]);
    }
  }

  lemma ChildHolds(reg: Registry)
    requires Tells(reg, false, [None, Some(0)], [Below1]) && Tables(reg)
    ensures |reg.nodes| == 2 && CtorNode(0) in reg.nodes[1]
  {
    TwoPaths(reg.parents);
    assert 0 in Listing([Below1], 1, Named(1)) &&
           Listed(reg.providers, Slot(1, Named(1))) == reg.Providers(1, Named(1));
    assert Within(reg, 1, 1) && Placed(reg, CtorNode(0), 1);
  }

  lemma DanglingEdge(reg: Registry)
    requires Leftover(reg)
    ensures !InRange(GraphOf(reg, 1))
  {
    hide Registry.AllProviders;
    TwoPaths(reg.parents);
    Seen(reg, 1, 0, Named(0), 1);
    OneParam(Named(0));
    OneParamOrders(reg, 0, Named(0), 1);
    var ns := reg.AllProviders(1, Named(0));
    var i :| 0 <= i < |ns| && ns[i] == 1;
    var u :| 0 <= u < |reg.nodes[1]| && reg.nodes[1][u] == CtorNode(0);
    assert GraphOf(reg, 1)[u][i] == |reg.nodes[1]|;
  }

  lemma OneParamOrders(reg: Registry, n: nat, k: Key, s: nat)
    requires n < |reg.ctors| && reg.ctors[n].params == [SingleParam(k, false)]
    ensures EdgesOf(reg, CtorNode(n), s) == CtorOrders(reg, reg.AllProviders(s, k), s)
  {
    var ps := reg.ctors[n].params;
    assert ps[1..] == [];
    assert ListOrders(reg, ps, s) == ParamOrders(reg, ps[0], s) + ListOrders(reg, ps[1..], s);
  }

  // ---------------------------------------------------------------------------------------------
  // Exported constructors

  /** Root scope 0 with children 1 and 2. Constructors 0 and 2 are exported, from 1 and from 2: each takes what only
      the scope it comes from provides, and that in turn takes what the other one makes. */
  const Hop0 := Row([Named(2)], Single(Named(0)), Named(0), 0, 1)
  const Hop1 := Makes([Named(1)], Named(2), 1)
  const Hop2 := Row([Named(3)], Single(Named(1)), Named(1), 0, 2)
  const Hop3 := Makes([Named(0)], Named(3), 2)
  const Siblings: seq<Option<nat>> := [None, Some(0), Some(0)]

  const ExportOps := [ScopeOp(0), ScopeOp(0),
                      ProvideOf(Hop0, true), ProvideOf(Hop1, false), ProvideOf(Hop2, true), ProvideOf(Hop3, false)]

  lemma SiblingPaths()
    ensures Ancestors(Siblings, 0) == [0] && Ancestors(Siblings, 1) == [1, 0] && Ancestors(Siblings, 2) == [2, 0]
  {
    assert Ancestors(Siblings, 0) == [0];
  }

  /** Each scope can rank the constructors that it sees. */
  function HopRank(c: nat, n: nat): nat {
    if c == 1 then if n < 3 then 3 - n else 0
    else if n == 2 then 3 else if n == 3 then 2 else 1
  }

  lemma HopsFall(rows: seq<Row>)
    requires rows <= [Hop0, Hop1, Hop2, Hop3]
    ensures RowsFall(Siblings, rows, HopRank)
  {
    hide Ancestors;
    SiblingPaths();
    forall n | 0 <= n < |rows| ensures rows[n] == [Hop0, Hop1, Hop2, Hop3][n] {}
  }

  lemma HopIsValid(row: Row)
    requires row in [Hop0, Hop1, Hop2, Hop3]
    ensures row.Valid()
  {
    SingleEntry(row.key);
  }

  /** The run, as far as its first `|rows|` Provides */
  ghost predicate Hopped(reg: Registry, rows: seq<Row>) {
    |rows| <= 4 && Stage(reg, false, ExportOps[..2 + |rows|], Siblings, rows)
  }

  lemma SiblingsReached() returns (reg: Registry)
    ensures Hopped(reg, [])
  {
    hide Stage;
    var reg0 := StageNew(false);
    var reg1 := StageScope(reg0, false, [], [None], [], 0);
    reg := StageScope(reg1, false, [] + [ScopeOp(0)], [None] + [Some(0)], [], 0);
    assert [None] + [Some(0)] + [Some(0)] == Siblings;
    assert [] + [ScopeOp(0)] + [ScopeOp(0)] == ExportOps[..2];
  }

  lemma HopNext(reg: Registry, rows: seq<Row>) returns (reg': Registry)
    requires Hopped(reg, rows) && rows < [Hop0, Hop1, Hop2, Hop3]
    ensures Hopped(reg', [Hop0, Hop1, Hop2, Hop3][..|rows| + 1])
  {
    hide Stage, RowsFall, Row.Valid;
    var hops, ops := [Hop0, Hop1, Hop2, Hop3], ExportOps[..2 + |rows|];
    var row, exported := hops[|rows|], |rows| % 2 == 0;
    assert rows + [row] == hops[..|rows| + 1];
    assert (reg.parents == Siblings) by { StageIs(reg, false, ops, Siblings, rows); }
    HopTarget(reg, row, exported);
    HopIsValid(row);
    assert forall n :: 0 <= n < |rows| ==> rows[n] == hops[n];
    HopsFall(rows + [row]);
    reg' := StageProvide(reg, false, ops, Siblings, rows, row, exported, HopRank);
    assert ops + [ProvideOf(row, exported)] == ExportOps[..2 + |rows| + 1];
  }

  lemma HopTarget(reg: Registry, row: Row, exported: bool)
    requires reg.parents == Siblings && row in [Hop0, Hop1, Hop2, Hop3] && exported == (row == Hop0 || row == Hop2)
    ensures row.scope == Target(reg, row.orig, exported)
  {
    SiblingPaths();
  }

  lemma ExportIsReached() returns (reg: Registry)
    ensures Hopped(reg, [Hop0, Hop1, Hop2, Hop3])
  {
    hide Hopped;
    var hops := [Hop0, Hop1, Hop2, Hop3];
    var reg0 := SiblingsReached();
    var reg1 := HopNext(reg0, []);
    var reg2 := HopNext(reg1, hops[..1]);
    var reg3 := HopNext(reg2, hops[..2]);
    reg := HopNext(reg3, hops[..3]);
    assert hops[..4] == hops;
  }

  /** Every Provide of this run is accepted and no scope's graph has a cycle, but the calls that hop between the
      sibling scopes go in a circle: nothing ranks callers above what they call. */
  lemma ExportHidesCycle()
    ensures CleanHistory(false, ExportOps)
    ensures var reg := History(false, ExportOps);
            && |reg.nodes| == |reg.parents| == 3 && NodesNumbered(reg) && reg.Providers(0, Named(0)) == [0]
            && IsDag(GraphOf(reg, 0)) && IsDag(GraphOf(reg, 1)) && IsDag(GraphOf(reg, 2))
            && forall e: Env :: e.reg == reg && 0 in e.scopes ==> !e.Closed()
  {
    hide Env.Closed, IsDag, GraphOf, History, CleanHistory, Stage, Tells;
    var reg := ExportIsReached();
    assert ExportOps[..6] == ExportOps;
    StageIs(reg, false, ExportOps, Siblings, [Hop0, Hop1, Hop2, Hop3]);
    HopsAcyclic(reg);
    forall e: Env | e.reg == reg && 0 in e.scopes ensures !e.Closed() {
      HopCircle(e);
    }
  }

  lemma HopsAcyclic(reg: Registry)
    requires Tells(reg, false, Siblings, [Hop0, Hop1, Hop2, Hop3])
    ensures |reg.nodes| == |reg.parents| == 3 && NodesNumbered(reg) && reg.Providers(0, Named(0)) == [0]
    ensures IsDag(GraphOf(reg, 0)) && IsDag(GraphOf(reg, 1)) && IsDag(GraphOf(reg, 2))
  {
    hide CtorsOrdered, GroupsOrdered, ProvidersListed, ProvidersPlaced, CtorsListed, ProvidersApart, OrdersScoped,
         IsDag, GraphOf, DecoratorsListed;
    var hops := [Hop0, Hop1, Hop2, Hop3];
    assert 0 in Listing(hops, 0, Named(0)) && 1 in Listing(hops, 1, Named(2)) && 3 in Listing(hops, 2, Named(3));
    assert Provides(reg, 0, Named(0)) && Provides(reg, 1, Named(2)) && Provides(reg, 2, Named(3));
    assert Listing(hops, 0, Named(0)) == [0] by { OneLister(hops, 0, Named(0), 0); }
  }

  /** Only constructor `n` is listed. */
  lemma {:induction false} OneLister(rows: seq<Row>, s: nat, k: Key, n: nat)
    requires n < |rows| && forall m :: 0 <= m < |rows| ==> (rows[m].scope == s && rows[m].key == k <==> m == n)
    ensures Listing(rows, s, k) == [n]
  {
    var init := rows[..|rows| - 1];
    if n == |rows| - 1 {
      HeadIsMember(Listing(init, s, k));
    } else {
      OneLister(init, s, k, n);
    }
  }

  lemma HopCircle(e: Env)
    requires Tells(e.reg, false, Siblings, [Hop0, Hop1, Hop2, Hop3]) && 0 in e.scopes
    ensures !e.Closed()
  {
    hide Registry.AllProviders, Good;
    var reg, hops := e.reg, [Hop0, Hop1, Hop2, Hop3];
    SiblingPaths();
    assert 0 in Listing(hops, 0, Named(0)) && 1 in Listing(hops, 1, Named(2)) && 2 in Listing(hops, 0, Named(1)) &&
           3 in Listing(hops, 2, Named(3));
    Seen(reg, 1, 1, Named(2), 1);
    Seen(reg, 1, 0, Named(1), 2);
    Seen(reg, 2, 2, Named(3), 3);
    Seen(reg, 2, 0, Named(0), 0);
    OneParam(Named(0));
    OneParam(Named(1));
    OneParam(Named(2));
    OneParam(Named(3));
    HopCircleFalls(e);
  }

  lemma Seen(reg: Registry, c: nat, s: nat, k: Key, n: nat)
    requires s in reg.PathToRoot(c) && n in reg.Providers(s, k)
    ensures n in reg.AllProviders(c, k)
  {
    ProvidersOnMember(reg, reg.PathToRoot(c), k, n);
  }

  /** The rank would fall from each constructor to the next, around the circle. */
  lemma HopCircleFalls(e: Env)
    requires 0 in e.scopes && 0 in e.reg.Providers(0, Named(0)) && |e.reg.ctors| == 4
    requires Named(2) in ListLeaves(e.reg.ctors[0].params) && e.reg.ctors[0].orig == 1
    requires 1 in e.reg.AllProviders(1, Named(2))
    requires Named(1) in ListLeaves(e.reg.ctors[1].params) && e.reg.ctors[1].orig == 1
    requires 2 in e.reg.AllProviders(1, Named(1))
    requires Named(3) in ListLeaves(e.reg.ctors[2].params) && e.reg.ctors[2].orig == 2
    requires 3 in e.reg.AllProviders(2, Named(3))
    requires Named(0) in ListLeaves(e.reg.ctors[3].params) && e.reg.ctors[3].orig == 2
    requires 0 in e.reg.AllProviders(2, Named(0))
    ensures !e.Closed()
  {
    hide Registry.AllProviders, ListLeaves;
  }

  // ---------------------------------------------------------------------------------------------
  // A decorator that depends back on the constructor it serves

  /** Constructor 0 makes the value 1 from the value 0, which constructor 1 makes; the decorator of the value 0
      takes the value 1. */
  const Consumer := Makes([Named(0)], Named(1), 0)
  const Source := Makes([], Named(0), 0)

  const BackOps := [ProvideOf(Consumer, false), ProvideOf(Source, false), DecorateOf(0, [Named(1)], Named(0))]

  /** The user's functions return plain values and no error. */
  ghost predicate Returns(world: World) {
    && (forall n, args :: |world.ctor(n, args)| == 1 && world.ctor(n, args)[0].Opaque?)
    && (forall d, args :: |world.deco(d, args)| == 1 && world.deco(d, args)[0].Opaque?)
  }

  lemma OneProduces(k: Key, v: Value)
    requires !k.IsGroup()
    ensures Only(Single(k)).Valid() && Produce(Only(Single(k)), [v]) == Produced(Written(map[k := v], map[]))
    ensures ExtractFrom(Only(Single(k)), true, [v], 0) == Extracted([Set(k, v)], None)
  {
    var rl := Only(Single(k));
    OnlyDeclares(Single(k));
    assert ExtractFrom(rl, false, [v], 1) == ExtractFrom(rl, true, [v], 1) == Extracted([], None);
    assert Writes(rl.results[0], false, v) == [Set(k, v)];
    assert Writes(rl.results[0], true, v) == [Set(k, v)];
    assert [Set(k, v)] + [] == [Set(k, v)];
    assert Nothing.AddAll([Set(k, v)]) == Nothing.AddAll([]).Add(Set(k, v)) by { assert [Set(k, v)][..0] == []; }
  }

  /** The container at the end of the run, seen from its only scope */
  ghost predicate GoesBack(e: Env) {
    && Alone(e, [Consumer, Source]) && Returns(e.world) && e.rank == map[0 := 1, 1 := 0]
    && e.reg.decorators == map[Slot(0, Named(0)) := 0]
    && e.reg.decos == [Decorator(SingleParams([Named(1)]), Only(Single(Named(0))), 0)]
  }

  lemma BackFalls(rows: seq<Row>)
    requires rows <= [Consumer, Source]
    ensures RowsFall([None], rows, (c, n) => 1 - n % 2)
  {
    forall n | 0 <= n < |rows| ensures rows[n] == [Consumer, Source][n] {}
  }

  lemma BackIsReached() returns (reg: Registry)
    ensures Stage(reg, false, BackOps, [None], [Consumer, Source])
    ensures reg.decorators == map[Slot(0, Named(0)) := 0]
    ensures reg.decos == [Decorator(SingleParams([Named(1)]), Only(Single(Named(0))), 0)]
  {
    hide Stage, RowsFall, Row.Valid;
    var f: (nat, nat) -> nat := (c, n) => 1 - n % 2;
    MakesIsValid([Named(0)], 1, 0);
    MakesIsValid([], 0, 0);
    var reg0 := StageNew(false);
    BackFalls([] + [Consumer]);
    var reg1 := StageProvide(reg0, false, [], [None], [], Consumer, false, f);
    assert [] + [Consumer] == [Consumer];
    BackFalls([Consumer] + [Source]);
    var ops1 := [] + [ProvideOf(Consumer, false)];
    var reg2 := StageProvide(reg1, false, ops1, [None], [Consumer], Source, false, f);
    assert [Consumer] + [Source] == [Consumer, Source];
    var ops2 := ops1 + [ProvideOf(Source, false)];
    reg := StageDecorate(reg2, false, ops2, [None], [Consumer, Source], 0, [Named(1)], Named(0));
    assert ops2 + [DecorateOf(0, [Named(1)], Named(0))] == BackOps;
  }

  lemma BackProviders(e: Env, st: Store)
    requires GoesBack(e)
    ensures e.Closed() && 0 in e.scopes && e.reg.PathToRoot(0) == [0]
    ensures e.reg.Providers(0, Named(0)) == [1] && e.reg.Providers(0, Named(1)) == [0]
    ensures e.reg.AllProviders(0, Named(0)) == [1] && e.reg.AllProviders(0, Named(1)) == [0]
    ensures |e.reg.ctors| == 2 && e.reg.ctors[0] == Consumer.Provider() && e.reg.ctors[1] == Source.Provider()
  {
    hide Good, Env.Closed, IsDag, GraphOf;
    var rows := [Consumer, Source];
    OneLister(rows, 0, Named(0), 1);
    OneLister(rows, 0, Named(1), 0);
    OnePath(e, st, Named(0));
    OnePath(e, st, Named(1));
  }

  /** What a successful run of constructor `n` leaves */
  ghost predicate Ran(st: Store, st': Store, n: nat, slot: Slot, v: Value) {
    && st'.commits == st.commits + [n] && st'.called == st.called + {n} && st'.states == st.states
    && st'.values == st.values[slot := v] && st'.decorated == st.decorated
  }

  lemma RunOne(e: Env, n: nat, k: Key, args: seq<Value>, st: Store, st1: Store)
    requires e.Closed() && n in e.rank && Returns(e.world) && Steps(st, st1) && !k.IsGroup()
    requires n < |e.reg.ctors| && e.reg.ctors[n].results == Only(Single(k))
    ensures e.RunCtor(n, args, st, st1).0 == None
    ensures Ran(st1, e.RunCtor(n, args, st, st1).1, n, Slot(e.reg.ctors[n].scope, k), e.world.ctor(n, args)[0])
  {
    hide Env.Closed, Steps, Store.Commit, Produce;
    var v := e.world.ctor(n, args)[0];
    assert Fit(e.world.ctor(n, args), 1) == [v];
    OneProduces(k, v);
    CommitOne(st1.(runs := st1.runs + [n]), e.reg.ctors[n].scope, k, v);
  }

  /** A constructor that takes one value, which can be built, and makes one of `made` */
  lemma {:induction false} CallTaking(e: Env, n: nat, k: Key, made: Key, st: Store)
    requires e.Closed() && n in e.rank && n !in st.called && Returns(e.world) && !made.IsGroup() && n < |e.reg.ctors|
    requires e.reg.ctors[n].params == SingleParams([k]) && e.reg.ctors[n].results == Only(Single(made))
    requires e.reg.AllProviders(e.reg.ctors[n].orig, k) != []
    requires e.reg.ctors[n].orig in e.scopes && e.Below({k}, e.reg.ctors[n].orig, e.rank[n])
    requires e.BuildSingle(k, false, e.reg.ctors[n].orig, e.rank[n], st).0.Ok?
    ensures var (v, st1) := e.BuildSingle(k, false, e.reg.ctors[n].orig, e.rank[n], st);
            && e.CallCtor(n, st).0 == None
            && Ran(st1, e.CallCtor(n, st).1, n, Slot(e.reg.ctors[n].scope, made), e.world.ctor(n, [v.value])[0])
  {
    hide Env.RunCtor, Env.BuildSingle, Env.BuildList, Env.Below, Env.Closed, Ran, Returns, Only, Single;
    var c := e.reg.ctors[n].orig;
    var ps := SingleParams([k]);
    OneParam(k);
    assert e.MissingList(st, ps, c) == [] by { assert ps[1..] == []; }
    BuildOne(e, k, c, e.rank[n], st);
    var (args, st1) := e.BuildList(ps, c, e.rank[n], st);
    RunOne(e, n, made, args.value, st, st1);
  }

  lemma CommitOne(st: Store, s: nat, k: Key, v: Value)
    ensures var st' := st.Commit(s, Written(map[k := v], map[]));
            st'.values == st.values[Slot(s, k) := v] && st' == st.(values := st'.values, groups := st'.groups)
  {
    hide AddsGroups;
    var w := Written(map[k := v], map[]);
    CommitAdds(st, s, w);
    CommitKeepsRest(st, s, w);
    hide Store.Commit;
    OneValueAdded(st, st.Commit(s, w), s, k, v);
  }

  lemma OneValueAdded(st: Store, st': Store, s: nat, k: Key, v: Value)
    requires AddsValues(st, s, Written(map[k := v], map[]), st')
    ensures st'.values == st.values[Slot(s, k) := v]
  {
    forall slot: Slot ensures slot in st'.values <==> slot in st.values || slot == Slot(s, k) {}
    forall slot: Slot | slot in st'.values ensures st'.values[slot] == st.values[Slot(s, k) := v][slot] {}
  }

  lemma CommitKeepsRest(st: Store, s: nat, w: Written)
    ensures var st' := st.Commit(s, w); st' == st.(values := st'.values, groups := st'.groups)
  {}

  lemma BackBelow(e: Env)
    requires GoesBack(e)
    ensures e.Closed() && 0 in e.scopes && e.Below({Named(0)}, 0, 1)
  {
    hide Good;
    BackProviders(e, Empty);
    OneParam(Named(0));
    assert 0 in e.rank && e.rank[0] == 1;
  }

  lemma {:induction false} CallSource(e: Env, st: Store)
    requires GoesBack(e) && 1 !in st.called
    ensures e.CallCtor(1, st).0 == None && Ran(st, e.CallCtor(1, st).1, 1, Slot(0, Named(0)), e.world.ctor(1, [])[0])
  {
    hide Env.RunCtor, Env.Closed, Good;
    BackProviders(e, st);
    assert e.reg.ctors[1].params == [];
    NothingBelow(e, 0, 0);
    assert e.BuildList([], 0, 0, st) == (Ok([]), st);
    RunOne(e, 1, Named(0), [], st, st);
  }

  /** While the decorator is being run, its value is looked up undecorated. */
  lemma {:induction false} BuildSource(e: Env, level: nat, st: Store)
    requires GoesBack(e) && st.State(0) == OnStack && 1 !in st.called && Slot(0, Named(0)) !in st.values
    requires Slot(0, Named(0)) !in st.decorated
    requires e.Below({Named(0)}, 0, level)
    ensures var r := e.BuildSingle(Named(0), false, 0, level, st);
            r.0.Ok? && Ran(st, r.1, 1, Slot(0, Named(0)), e.world.ctor(1, [])[0])
  {
    hide Env.CallCtor, Env.Below, Env.Closed, Good;
    BackProviders(e, st);
    OnePath(e, st, Named(0));
    e.BelowProviders(Named(0), 0, 0, level);
    CallSource(e, st);
    CallOne(e, 1, level, st);
  }

  /** The inner call of constructor 0, made for the decorator */
  lemma {:induction false} CallInner(e: Env, st: Store)
    requires GoesBack(e) && st.State(0) == OnStack && st.called == {} && st.values == map[] && st.decorated == map[]
    ensures var r := e.CallCtor(0, st);
            && r.0 == None && r.1.commits == st.commits + [1, 0] && r.1.states == st.states && r.1.called == {0, 1}
            && Slot(0, Named(1)) in r.1.values && r.1.decorated == st.decorated
  {
    hide Env.CallCtor, Env.BuildSingle, Good, Env.Below, Env.Closed;
    BackProviders(e, st);
    BackBelow(e);
    BuildSource(e, 1, st);
    CallTaking(e, 0, Named(0), Named(1), st);
    assert st.commits + [1] + [0] == st.commits + [1, 0];
  }

  /** The decorator's argument: it takes the inner call of constructor 0. */
  lemma {:induction false} BuildForDecorator(e: Env, level: nat, st: Store)
    requires GoesBack(e) && st.State(0) == OnStack && st.called == {} && st.values == map[] && st.decorated == map[]
    requires e.Below({Named(1)}, 0, level)
    ensures var r := e.BuildSingle(Named(1), false, 0, level, st);
            && r.0.Ok? && r.1.commits == st.commits + [1, 0] && r.1.states == st.states
            && r.1.called == {0, 1} && r.1.decorated == st.decorated
  {
    hide Env.CallCtor, Env.Below, Env.Closed, Good;
    BackProviders(e, st);
    OnePath(e, st, Named(1));
    e.BelowProviders(Named(1), 0, 0, level);
    CallInner(e, st);
    CallOne(e, 0, level, st);
  }

  lemma {:induction false} CallBack(e: Env, level: nat)
    requires GoesBack(e)
    ensures e.reg.decos[0].results.Valid() && e.Closed()
    ensures var r := e.CallDecorator(0, level, Empty);
            r.0 == None && r.1.commits == [1, 0] && r.1.called == {0, 1}
  {
    hide Env.RunDecorator, Env.BuildSingle, Env.Below, Env.Closed, Good;
    OnlyDeclares(Single(Named(0)));
    var st := Empty.(states := map[0 := OnStack]);
    BackProviders(e, st);
    OneParam(Named(1));
    var ps := SingleParams([Named(1)]);
    assert e.MissingList(st, ps, 0) == [] by { assert ps[1..] == []; }
    e.AllBelowTop({Named(1)}, 0);
    BuildForDecorator(e, e.Top(), st);
    BuildOne(e, Named(1), 0, e.Top(), st);
    var (args, st1) := e.BuildList(ps, 0, e.Top(), st);
    e.StartedSteps(0, Empty, st1);
    RunBack(e, args.value, st1);
  }

  lemma RunBack(e: Env, args: seq<Value>, st1: Store)
    requires GoesBack(e) && e.Closed() && Steps(Empty, st1) && 0 in st1.states && 0 !in st1.decoRuns[|Empty.decoRuns|..]
    requires e.reg.decos[0].results.Valid()
    ensures var r := e.RunDecorator(0, args, Empty, st1);
            r.0 == None && r.1.commits == st1.commits && r.1.called == st1.called
  {
    hide Env.Closed, Steps, Good;
    var v := e.world.deco(0, args)[0];
    assert Fit(e.world.deco(0, args), 1) == [v];
    OneProduces(Named(0), v);
  }

  /** Nothing is called yet when constructor 0 is called for; by the time its argument is built it has been run,
      for the decorator of its argument, and it is run again. */
  /** The argument of the outer call: the decorator has run, and in it constructor 0. */
  lemma {:induction false} BuildDecorated(e: Env)
    requires GoesBack(e) && e.Closed() && 0 in e.scopes && e.Below({Named(0)}, 0, 1)
    ensures var r := e.BuildSingle(Named(0), false, 0, 1, Empty); r.0.Ok? && r.1.commits == [1, 0]
  {
    hide Env.CallDecorator, Env.BuildUndecorated, Good, Env.Below;
    BackProviders(e, Empty);
    OnePath(e, Empty, Named(0));
    CallBack(e, 1);
  }

  lemma {:induction false} CallTwice(e: Env)
    requires GoesBack(e) && e.Closed()
    ensures e.CallCtor(0, Empty).0 == None && e.CallCtor(0, Empty).1.commits == [1, 0, 0]
  {
    hide Env.CallCtor, Env.BuildSingle, Good, Env.Below, Env.Closed;
    BackProviders(e, Empty);
    BackBelow(e);
    BuildDecorated(e);
    CallTaking(e, 0, Named(0), Named(1), Empty);
    assert [1, 0] + [0] == [1, 0, 0];
  }

  lemma {:induction false} BuildTwice(e: Env)
    requires GoesBack(e) && e.Closed() && e.Below({Named(1)}, 0, e.Top())
    ensures var r := e.BuildSingle(Named(1), false, 0, e.Top(), Empty); r.0.Ok? && r.1.commits == [1, 0, 0]
  {
    hide Env.CallCtor, Env.Below, Env.Closed, Good;
    BackProviders(e, Empty);
    OnePath(e, Empty, Named(1));
    e.BelowProviders(Named(1), 0, 0, e.Top());
    CallTwice(e);
    CallOne(e, 0, e.Top(), Empty);
  }

  /** In this run the first Invoke, of a function that takes the value 1, runs constructor 0 twice. */
  lemma ConstructorRunsTwice(world: World)
    requires Returns(world)
    ensures CleanHistory(false, BackOps)
    ensures var reg := History(false, BackOps);
            && 0 < |reg.parents| && Checked(world, reg, 0, SingleSpecs([Named(1)]))
            && InvokedFrom(world, reg, 0, SingleSpecs([Named(1)]), Empty).0.Built?
            && InvokedFrom(world, reg, 0, SingleSpecs([Named(1)]), Empty).2.commits == [1, 0, 0]
  {
    hide Tells, Stage, Checked, InvokedFrom, History, CleanHistory, Alone, Returns, Good;
    var reg := BackIsReached();
    StageIs(reg, false, BackOps, [None], [Consumer, Source]);
    var e := Env(world, reg, {0}, map[0 := 1, 1 := 0], map[]);
    AloneIsClosed(e, [Consumer, Source]);
    AskTwice(e);
  }

  lemma AskTwice(e: Env)
    requires GoesBack(e) && Good(e.reg) && 0 < |e.reg.parents|
    ensures Checked(e.world, e.reg, 0, SingleSpecs([Named(1)]))
    ensures InvokedFrom(e.world, e.reg, 0, SingleSpecs([Named(1)]), Empty).0.Built?
    ensures InvokedFrom(e.world, e.reg, 0, SingleSpecs([Named(1)]), Empty).2.commits == [1, 0, 0]
  {
    hide Tells, Checked, InvokedFrom, Env.BuildSingle, Returns, Env.Closed, Good, IsDag, GraphOf, Listing, Env.Below;
    AloneIs(e, [Consumer, Source], Named(1));
    BackProviders(e, Empty);
    BuildTwice(e);
    AskOne(e, false, [None], [Consumer, Source], Named(1), 0, Empty);
  }

  // ---------------------------------------------------------------------------------------------
  // Lookups from the root

  lemma {:induction false} OnePath(e: Env, st: Store, k: Key)
    requires e.reg.PathToRoot(0) == [0]
    ensures e.reg.AllProviders(0, k) == e.reg.Providers(0, k)
    ensures e.ClosestDecorator(st, k, [0])
         == if Slot(0, k) in e.reg.decorators && st.State(e.reg.decorators[Slot(0, k)]) != OnStack then Some(0)
            else None
    ensures e.Closest(st.decorated, k, [0])
         == if Slot(0, k) in st.decorated then Some(st.decorated[Slot(0, k)]) else None
    ensures e.Locate(st, k, [0]) == if Slot(0, k) in st.values || e.reg.Providers(0, k) != [] then Some(0) else None
  {
    assert [0][1..] == [];
    assert e.reg.ProvidersOn([0], k) == e.reg.Providers(0, k) + e.reg.ProvidersOn([0][1..], k);
  }
}
