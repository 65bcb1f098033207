/** Runs told by what they register: constructors that take single values and make one value each, and decorators of
    single values. */
module Scenario {
  import opened Values
  import opened ResultTree
  import opened Registry
  import opened Registration
  import opened RegistrationInvariant
  import opened RegistrationSteps
  import opened Resolver
  import opened Runs
  import opened Coverage
  import opened Digraph

  function Named(i: nat): Key { Key(Plain(i), "", "") }

  function SingleSpecs(ks: seq<Key>): (r: seq<ParamSpec>)
    ensures |r| == |ks| && forall i :: 0 <= i < |ks| ==> r[i] == SingleSpec(ks[i], false)
  {
    seq(|ks|, i requires 0 <= i < |ks| => SingleSpec(ks[i], false))
  }

  function SingleParams(ks: seq<Key>): (r: seq<Param>)
    ensures |r| == |ks| && forall i :: 0 <= i < |ks| ==> r[i] == SingleParam(ks[i], false)
  {
    seq(|ks|, i requires 0 <= i < |ks| => SingleParam(ks[i], false))
  }

  lemma {:induction false} NewSingles(reg: Registry, s: nat, ks: seq<Key>)
    requires |reg.nodes| == |reg.parents|
    ensures NewParams(reg, s, SingleSpecs(ks)) == (Some(SingleParams(ks)), reg)
  {
    if ks == [] {
      assert SingleParams(ks) == [];
    } else {
      assert SingleSpecs(ks)[1..] == SingleSpecs(ks[1..]);
      NewSingles(reg, s, ks[1..]);
      assert SingleParams(ks) == [SingleParam(ks[0], false)] + SingleParams(ks[1..]);
    }
  }

  lemma SinglesAsk(ks: seq<Key>)
    ensures ListGroupLeaves(SingleParams(ks)) == {}
    ensures forall k :: k in ListLeaves(SingleParams(ks)) <==> k in ks
  {
    if ks != [] {
      assert SingleParams(ks)[1..] == SingleParams(ks[1..]);
      SinglesAsk(ks[1..]);
      assert forall k :: k in ks <==> k == ks[0] || k in ks[1..];
    }
  }

  /** The results of a function that returns one value */
  function Only(r: Result): ResultList {
    ResultList([r], [0])
  }

  lemma {:induction false} OnlyDeclares(r: Result)
    ensures ListOf([DeclaredResult(r)]) == Some(Only(r)) && Only(r).Valid()
    ensures ListEntries(Only(r).results) == Entries(r)
  {
    var ds := [DeclaredResult(r)];
    assert ds[..0] == [];
    assert Accepted(ds) == Accepted(ds[..0]) + [r] == [r];
    assert Positions(ds) == Positions(ds[..0]) + [0] == [0];
    assert Only(r).Valid() by { assert Only(r).indexes[0] == 0; }
    assert Only(r).results[1..] == [];
  }

  /** A constructor: what it takes, the one result it declares, the key it registers, and where it goes */
  datatype Row = Row(takes: seq<Key>, result: Result, key: Key, scope: nat, orig: nat) {
    /** The result registers the one key. */
    ghost predicate Valid() {
      |Entries(result)| == 1 && Entries(result)[0].key == key
    }

    function Provider(): Ctor { Ctor(SingleParams(takes), Only(result), scope, orig) }
  }

  /** A value of `k` */
  function Single(k: Key): Result { SingleResult(k.name, k.t, []) }

  /** Constructor that makes a value of `k` in the scope it is provided to */
  function Makes(takes: seq<Key>, k: Key, scope: nat): Row {
    Row(takes, Single(k), k, scope, scope)
  }

  lemma SingleEntry(k: Key)
    requires !k.IsGroup()
    ensures Entries(Single(k)) == [Entry(k, true)] && KeysOf(Entries(Single(k))) == {k}
  {}

  /** The constructors among `rows` that scope `s` lists for `k` */
  function Listing(rows: seq<Row>, s: nat, k: Key): (ns: seq<nat>)
    ensures forall n: nat :: n in ns <==> n < |rows| && rows[n].scope == s && rows[n].key == k
  {
    if rows == [] then [] else
      Listing(rows[..|rows| - 1], s, k)
      + if rows[|rows| - 1].scope == s && rows[|rows| - 1].key == k then [|rows| - 1] else []
  }

  /** The container has the scopes `parents`, the constructors `rows` and the decorators `decorators`. */
  ghost predicate Tells(reg: Registry, deferred: bool, parents: seq<Option<nat>>, rows: seq<Row>) {
    && Good(reg) && reg.parents == parents && Sized(reg)
    && (forall c :: 0 <= c < |reg.deferred| ==> reg.deferred[c] == deferred)
    && |reg.ctors| == |rows|
    && (forall n :: 0 <= n < |rows| ==> reg.ctors[n] == rows[n].Provider())
    && (forall s, k :: reg.Providers(s, k) == Listing(rows, s, k))
  }

  lemma TellsGood(reg: Registry, deferred: bool, parents: seq<Option<nat>>, rows: seq<Row>)
    requires Tells(reg, deferred, parents, rows)
    ensures Good(reg) && reg.parents == parents
  {}

  /** As seen from each scope, the constructors are ranked above what they take. */
  ghost predicate RowsFall(parents: seq<Option<nat>>, rows: seq<Row>, f: (nat, nat) -> nat) {
    forall c: nat, n, m :: c < |parents| && 0 <= n < |rows| && 0 <= m < |rows| && rows[m].key in rows[n].takes ==>
      rows[n].scope in Ancestors(parents, c) && rows[m].scope in Ancestors(parents, c) ==> f(c, m) < f(c, n)
  }

  lemma {:induction false} TellsFalls(reg: Registry, parents: seq<Option<nat>>, rows: seq<Row>,
          f: (nat, nat) -> nat, c: nat)
    requires Tables(reg) && reg.parents == parents && c < |parents| && |reg.ctors| == |rows|
    requires forall n :: 0 <= n < |rows| ==> reg.ctors[n] == rows[n].Provider()
    requires forall s, k :: reg.Providers(s, k) == Listing(rows, s, k)
    requires RowsFall(parents, rows, f)
    ensures Falls(reg, c, n => f(c, n)) && AllGroupsKnown(reg, c)
  {
    TablesFacts(reg);
    forall n: nat | n < |rows|
      ensures ListGroupLeaves(reg.ctors[n].params) == {}
      ensures forall k :: k in ListLeaves(reg.ctors[n].params) <==> k in rows[n].takes
    {
      SinglesAsk(rows[n].takes);
    }
    forall n: nat, k, m |
      CtorNode(n) in reg.nodes[c] && n < |reg.ctors| && k in ListLeaves(reg.ctors[n].params) &&
      m in reg.AllProviders(c, k)
      ensures f(c, m) < f(c, n)
    {
      assert Within(reg, reg.ctors[n].scope, c);
      ProvidersOnMember(reg, reg.PathToRoot(c), k, m);
      var s :| s in reg.PathToRoot(c) && m in reg.Providers(s, k);
      assert m in Listing(rows, s, k);
    }
  }

  // ---------------------------------------------------------------------------------------------
  // Steps

  ghost function Joining(reg: Registry, row: Row): Registry
    requires |reg.nodes| == |reg.parents| == |reg.snaps|
  {
    Candidate(row.orig, row.scope, SingleParams(row.takes), Snapshot(reg, row.scope), Only(row.result))
  }

  /** The key of the row is not provided by its scope. */
  ghost predicate Free(rows: seq<Row>, row: Row) {
    row.Valid() && forall n :: 0 <= n < |rows| && rows[n].scope == row.scope ==> rows[n].key != row.key
  }

  lemma RowIsAcceptable(reg: Registry, row: Row)
    requires row.Valid() && !Provides(reg, row.scope, row.key)
    ensures Acceptable(reg, row.scope, ListEntries(Only(row.result).results)) && KeysOfCtor(row.Provider()) == {row.key}
  {
    hide Entries;
    OnlyDeclares(row.result);
    var es := Entries(row.result);
    forall i | 0 <= i < |es| && es[i].single
      ensures !Provides(reg, row.scope, es[i].key) && es[i].key !in KeysOf(es[..i])
    {
      assert es[..0] == [];
    }
    assert es == [es[0]];
  }

  /** The candidate has the tables in order, one constructor more, and is otherwise as before. */
  lemma JoiningIs(reg: Registry, row: Row)
    requires Tables(reg) && row.scope < |reg.parents| && row.Valid() && !Provides(reg, row.scope, row.key)
    ensures var cand := Joining(reg, row);
            && Tables(cand) && cand.parents == reg.parents && cand.deferred == reg.deferred
            && cand.decorators == reg.decorators && cand.decos == reg.decos && cand.groupKeys == reg.groupKeys
            && cand.ctors == reg.ctors + [row.Provider()]
            && forall s, k :: cand.Providers(s, k)
                           == if s == row.scope && k == row.key then reg.Providers(s, k) + [|reg.ctors|]
                              else reg.Providers(s, k)
  {
    hide Tables, Grown, NewCtor, Acceptable;
    TablesFacts(reg);
    var t, ctor := row.scope, row.Provider();
    var reg0 := Snapshot(reg, t);
    RowIsAcceptable(reg, row);
    OnlyDeclares(row.result);
    NewSingles(reg0, t, row.takes);
    JoinFacts(reg, t, row.orig, SingleSpecs(row.takes), [DeclaredResult(row.result)]);
    var reg2 := NewCtor(reg0, t, ctor);
    SnapshotKeepsTables(reg, t);
    ListLists(reg2, ctor, |reg.ctors|);
    JoinKeepsTables(reg0, reg2, Joining(reg, row), ctor);
    NewCtorGrows(reg0, t, ctor);
    GrownFields(reg0, reg2, t);
    NewCtorKeepsGroups(reg0, t, ctor);
    var cand := Joining(reg, row);
    forall s, k ensures cand.Providers(s, k)
                     == if s == row.scope && k == row.key then reg.Providers(s, k) + [|reg.ctors|]
                        else reg.Providers(s, k)
    {
      assert Listed(cand.providers, Slot(s, k)) == cand.Providers(s, k);
    }
  }

  lemma NewCtorKeepsGroups(reg: Registry, s: nat, ctor: Ctor)
    requires |reg.nodes| == |reg.parents|
    ensures NewCtor(reg, s, ctor).groupKeys == reg.groupKeys && NewCtor(reg, s, ctor).ctors == reg.ctors + [ctor]
  {}

  /** A Provide whose candidate passes all checks is accepted, and leaves the candidate. */
  lemma ProvideAccepted(reg: Registry, row: Row, exported: bool)
    requires Tables(reg) && row.orig < |reg.parents| && row.scope == Target(reg, row.orig, exported) < |reg.parents|
    requires row.Valid() && !Provides(reg, row.scope, row.key)
    requires NodesNumbered(Joining(reg, row)) && Sized(Joining(reg, row)) && Joining(reg, row).parents == reg.parents
    requires forall c :: Within(reg, row.scope, c) ==> Passes(Joining(reg, row), c)
    ensures var (outcome, reg') :=
              Provide(reg, row.orig, exported, SingleSpecs(row.takes), [DeclaredResult(row.result)]);
            && outcome == Provided && reg' == Joining(reg, row).(verified := reg'.verified)
            && |reg'.verified| == |reg.parents|
  {
    hide Tables, Grown, NewCtor, Acceptable, IsDag, GraphOf, Restore, Rollback, List, NodesNumbered;
    TablesFacts(reg);
    var t, ctor := row.scope, row.Provider();
    var reg0 := Snapshot(reg, t);
    RowIsAcceptable(reg, row);
    OnlyDeclares(row.result);
    NewSingles(reg0, t, row.takes);
    var cand := Joining(reg, row);
    var cs := Subscopes(reg, t);
    forall c | c in cs ensures Within(reg, t, c) { SubscopesMembers(reg, t, c); }
    CheckRejects(cand, cs);
  }

  lemma CandidatePasses(reg: Registry, deferred: bool, parents: seq<Option<nat>>, rows: seq<Row>, row: Row,
          f: (nat, nat) -> nat)
    requires Tells(reg, deferred, parents, rows) && row.Valid() && row.scope < |parents|
    requires !Provides(reg, row.scope, row.key)
    requires deferred || RowsFall(parents, rows + [row], f)
    ensures Tables(Joining(reg, row)) && |Joining(reg, row).parents| == |parents|
    ensures forall c :: Within(reg, row.scope, c) ==> Passes(Joining(reg, row), c)
  {
    hide Tables, FlagsSound, DecoratorsListed, IsDag, GraphOf, RowsFall, Row.Provider, NodesNumbered, Listing, Joining,
         Falls, AllGroupsKnown;
    JoiningIs(reg, row);
    var cand := Joining(reg, row);
    CandidateTells(reg, rows, row, cand);
    TablesFacts(cand);
    forall c | Within(reg, row.scope, c) ensures Passes(cand, c) {
      if !deferred {
        TellsFalls(cand, parents, rows + [row], f, c);
        FallingIsAcyclic(cand, c, n => f(c, n));
      }
    }
  }

  lemma NotListed(reg: Registry, deferred: bool, parents: seq<Option<nat>>, rows: seq<Row>, row: Row)
    requires Tells(reg, deferred, parents, rows) && Free(rows, row)
    ensures !Provides(reg, row.scope, row.key)
  {
    HeadIsMember(reg.Providers(row.scope, row.key));
  }

  /** Provide */
  lemma ProvideRow(reg: Registry, deferred: bool, parents: seq<Option<nat>>, rows: seq<Row>, row: Row,
          exported: bool, f: (nat, nat) -> nat)
    requires Tells(reg, deferred, parents, rows) && Free(rows, row)
    requires row.orig < |parents| && row.scope == Target(reg, row.orig, exported) < |parents|
    requires deferred || RowsFall(parents, rows + [row], f)
    ensures var op := ProvideOp(row.orig, exported, SingleSpecs(row.takes), [DeclaredResult(row.result)]);
            && Clean(reg, op)
            && Provide(reg, row.orig, exported, op.specs, op.results).0 == Provided
            && Tells(Step(reg, op), deferred, parents, rows + [row])
            && Step(reg, op).decorators == reg.decorators && Step(reg, op).decos == reg.decos
  {
    hide Tables, FlagsSound, DecoratorsListed, IsDag, GraphOf, RowsFall, Row.Provider, Target, NodesNumbered, Listing,
         Joining, Provide, OnlyDescendantCycles, Passes, Provides;
    var op := ProvideOp(row.orig, exported, SingleSpecs(row.takes), [DeclaredResult(row.result)]);
    NotListed(reg, deferred, parents, rows, row);
    CandidatePasses(reg, deferred, parents, rows, row, f);
    TablesFacts(Joining(reg, row));
    JoiningIs(reg, row);
    ProvideAccepted(reg, row, exported);
    ProvideForeseen(reg, row.orig, exported, op.specs, op.results);
    StepKeepsGood(reg, op);
    StepTells(reg, deferred, parents, rows, row, Joining(reg, row), Step(reg, op));
  }

  lemma StepTells(reg: Registry, deferred: bool, parents: seq<Option<nat>>, rows: seq<Row>, row: Row,
          cand: Registry, reg': Registry)
    requires Tells(reg, deferred, parents, rows) && Good(reg') && reg' == cand.(verified := reg'.verified)
    requires cand.parents == reg.parents && cand.deferred == reg.deferred && cand.ctors == reg.ctors + [row.Provider()]
    requires forall s, k :: cand.Providers(s, k)
                     == if s == row.scope && k == row.key then reg.Providers(s, k) + [|reg.ctors|]
                        else reg.Providers(s, k)
    ensures Tells(reg', deferred, parents, rows + [row])
  {
    hide FlagsSound, DecoratorsListed, Row.Provider, Listing, NodesNumbered, CtorsOrdered, GroupsOrdered,
         ProvidersListed, ProvidersPlaced, CtorsListed, ProvidersApart, OrdersScoped;
    CandidateTells(reg, rows, row, cand);
    forall s, k
      ensures reg'.Providers(s, k) == Listing(rows + [row], s, k)
    {
      assert cand.Providers(s, k) == reg'.Providers(s, k);
    }
  }

  lemma {:induction false} CandidateTells(reg: Registry, rows: seq<Row>, row: Row, cand: Registry)
    requires |reg.ctors| == |rows| && forall n :: 0 <= n < |rows| ==> reg.ctors[n] == rows[n].Provider()
    requires forall s, k :: reg.Providers(s, k) == Listing(rows, s, k)
    requires cand.ctors == reg.ctors + [row.Provider()]
    requires forall s, k :: cand.Providers(s, k)
                     == if s == row.scope && k == row.key then reg.Providers(s, k) + [|reg.ctors|]
                        else reg.Providers(s, k)
    ensures |cand.ctors| == |rows + [row]|
    ensures forall n :: 0 <= n < |rows + [row]| ==> cand.ctors[n] == (rows + [row])[n].Provider()
    ensures forall s, k :: cand.Providers(s, k) == Listing(rows + [row], s, k)
  {
    hide Registry.Providers, Row.Provider;
    var all := rows + [row];
    assert all[..|all| - 1] == rows;
  }

  /** Scope */
  lemma ScopeRow(reg: Registry, deferred: bool, parents: seq<Option<nat>>, rows: seq<Row>, p: nat)
    requires Tells(reg, deferred, parents, rows) && p < |parents|
    ensures Clean(reg, ScopeOp(p)) && Tells(Step(reg, ScopeOp(p)), deferred, parents + [Some(p)], rows)
    ensures Step(reg, ScopeOp(p)).decorators == reg.decorators && Step(reg, ScopeOp(p)).decos == reg.decos
  {
    hide Tables, FlagsSound, DecoratorsListed, Listing;
    StepKeepsGood(reg, ScopeOp(p));
  }

  /** Decorate by a function that takes single values and returns a value of `k` */
  lemma DecorateRow(reg: Registry, deferred: bool, parents: seq<Option<nat>>, rows: seq<Row>,
          s: nat, ks: seq<Key>, k: Key)
    requires Tells(reg, deferred, parents, rows) && s < |parents| && !k.IsGroup() && Slot(s, k) !in reg.decorators
    ensures var op := DecorateOp(s, SingleSpecs(ks), [DeclaredResult(Single(k))]);
            && Clean(reg, op) && Whole(reg, op)
            && Tells(Step(reg, op), deferred, parents, rows)
            && Step(reg, op).decorators == reg.decorators[Slot(s, k) := |reg.decos|]
            && Step(reg, op).decos == reg.decos + [Decorator(SingleParams(ks), Only(Single(k)), s)]
  {
    hide Tables, FlagsSound, DecoratorsListed, Listing;
    var op := DecorateOp(s, SingleSpecs(ks), [DeclaredResult(Single(k))]);
    NewSingles(reg, s, ks);
    OnlyDeclares(Single(k));
    OneKeyFound(k);
    StepKeepsGood(reg, op);
    InsertOne(reg.(decos := reg.decos + [Decorator(SingleParams(ks), Only(Single(k)), s)]), s, |reg.decos|, k);
  }

  lemma {:induction false} InsertOne(reg: Registry, s: nat, d: nat, k: Key)
    requires Slot(s, k) !in reg.decorators
    ensures Insert(reg, s, d, [k]) == (true, reg.(decorators := reg.decorators[Slot(s, k) := d]))
  {
    assert [k][1..] == [];
  }

  lemma OneKeyFound(k: Key)
    requires !k.IsGroup()
    ensures SearchKeys(Only(Single(k)).results) == Some([k])
  {
    var q := Only(Single(k)).results;
    assert q[1..] == [];
    assert SearchKeys(q[1..]) == Some([]);
    assert [k] + [] == [k];
  }

  // ---------------------------------------------------------------------------------------------
  // Runs

  ghost predicate Reaches(deferred: bool, ops: seq<Op>, reg: Registry) {
    CleanHistory(deferred, ops) && History(deferred, ops) == reg
  }

  lemma ReachNew(deferred: bool)
    ensures Reaches(deferred, [], NewContainer(deferred)) && Tells(NewContainer(deferred), deferred, [None], [])
  {
    NewContainerIsGood(deferred);
  }

  lemma {:induction false} RunSnoc(reg: Registry, ops: seq<Op>, op: Op)
    requires Good(reg) && CleanRun(reg, ops) && Clean(Run(reg, ops), op)
    ensures CleanRun(reg, ops + [op]) && Run(reg, ops + [op]) == Step(Run(reg, ops), op)
    decreases |ops|
  {
    hide Inv, DecoratorsListed, Clean, Step;
    if ops == [] {
      assert [op][1..] == [];
      StepKeepsGood(reg, op);
      assert ops + [op] == [op];
    } else {
      StepKeepsGood(reg, ops[0]);
      assert (ops + [op])[1..] == ops[1..] + [op];
      RunSnoc(Step(reg, ops[0]), ops[1..], op);
    }
  }

  lemma ReachNext(deferred: bool, ops: seq<Op>, reg: Registry, op: Op)
    requires Reaches(deferred, ops, reg) && Good(reg) && Clean(reg, op)
    ensures Reaches(deferred, ops + [op], Step(reg, op))
  {
    hide Inv, DecoratorsListed, Clean, Step;
    NewContainerIsGood(deferred);
    RunSnoc(NewContainer(deferred), ops, op);
  }

  /** The run `ops` leads to the container `reg`, which is told by `parents` and `rows`. */
  ghost predicate Stage(reg: Registry, deferred: bool, ops: seq<Op>, parents: seq<Option<nat>>, rows: seq<Row>) {
    Tells(reg, deferred, parents, rows) && Reaches(deferred, ops, reg)
  }

  lemma StageIs(reg: Registry, deferred: bool, ops: seq<Op>, parents: seq<Option<nat>>, rows: seq<Row>)
    requires Stage(reg, deferred, ops, parents, rows)
    ensures CleanHistory(deferred, ops) && History(deferred, ops) == reg
    ensures Tells(reg, deferred, parents, rows) && Good(reg) && reg.parents == parents
  {}

  lemma StageNew(deferred: bool) returns (reg: Registry)
    ensures Stage(reg, deferred, [], [None], []) && reg.decorators == map[] && reg.decos == []
  {
    hide Reaches, Tells;
    reg := NewContainer(deferred);
    ReachNew(deferred);
  }

  function ProvideOf(row: Row, exported: bool): Op {
    ProvideOp(row.orig, exported, SingleSpecs(row.takes), [DeclaredResult(row.result)])
  }

  lemma StageProvide(reg: Registry, deferred: bool, ops: seq<Op>, parents: seq<Option<nat>>, rows: seq<Row>,
          row: Row, exported: bool, f: (nat, nat) -> nat) returns (reg': Registry)
    requires Stage(reg, deferred, ops, parents, rows) && Free(rows, row)
    requires row.orig < |parents| && row.scope == Target(reg, row.orig, exported) < |parents|
    requires deferred || RowsFall(parents, rows + [row], f)
    ensures Stage(reg', deferred, ops + [ProvideOf(row, exported)], parents, rows + [row])
    ensures reg'.decorators == reg.decorators && reg'.decos == reg.decos
  {
    hide Tells, Reaches, Free, RowsFall, History, CleanHistory;
    StageIs(reg, deferred, ops, parents, rows);
    ProvideRow(reg, deferred, parents, rows, row, exported, f);
    ReachNext(deferred, ops, reg, ProvideOf(row, exported));
    reg' := Step(reg, ProvideOf(row, exported));
  }

  lemma StageScope(reg: Registry, deferred: bool, ops: seq<Op>, parents: seq<Option<nat>>, rows: seq<Row>,
          p: nat) returns (reg': Registry)
    requires Stage(reg, deferred, ops, parents, rows) && p < |parents|
    ensures Stage(reg', deferred, ops + [ScopeOp(p)], parents + [Some(p)], rows)
    ensures reg'.decorators == reg.decorators && reg'.decos == reg.decos
  {
    hide Tells, Reaches, History, CleanHistory;
    StageIs(reg, deferred, ops, parents, rows);
    ScopeRow(reg, deferred, parents, rows, p);
    ReachNext(deferred, ops, reg, ScopeOp(p));
    reg' := Step(reg, ScopeOp(p));
  }

  function DecorateOf(s: nat, ks: seq<Key>, k: Key): Op {
    DecorateOp(s, SingleSpecs(ks), [DeclaredResult(Single(k))])
  }

  lemma StageDecorate(reg: Registry, deferred: bool, ops: seq<Op>, parents: seq<Option<nat>>, rows: seq<Row>,
          s: nat, ks: seq<Key>, k: Key) returns (reg': Registry)
    requires Stage(reg, deferred, ops, parents, rows) && s < |parents| && !k.IsGroup() && Slot(s, k) !in reg.decorators
    ensures Stage(reg', deferred, ops + [DecorateOf(s, ks, k)], parents, rows)
    ensures reg'.decorators == reg.decorators[Slot(s, k) := |reg.decos|]
    ensures reg'.decos == reg.decos + [Decorator(SingleParams(ks), Only(Single(k)), s)]
  {
    hide Tells, Reaches, History, CleanHistory;
    StageIs(reg, deferred, ops, parents, rows);
    DecorateRow(reg, deferred, parents, rows, s, ks, k);
    ReachNext(deferred, ops, reg, DecorateOf(s, ks, k));
    reg' := Step(reg, DecorateOf(s, ks, k));
  }
}
