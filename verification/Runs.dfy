/** Every run of registrations: what holds after any number of Provide, Scope, Decorate and Invoke calls, and
    what the check for cycles is worth to the resolver. */
module Runs {
  import opened Values
  import opened ResultTree
  import opened Registry
  import opened Registration
  import opened RegistrationInvariant
  import opened RegistrationSteps
  import opened Digraph

  /** New: a container is its root scope. */
  function NewContainer(deferred: bool): Registry {
    Registry([None], [[]], [deferred], [false], [[]], [-1], map[], map[], map[], [], [], [])
  }

  datatype Op =
    | ProvideOp(scope: nat, exported: bool, specs: seq<ParamSpec>, results: seq<Declared>)
    | ScopeOp(scope: nat)
    | DecorateOp(scope: nat, specs: seq<ParamSpec>, results: seq<Declared>)
    | InvokeOp(scope: nat, specs: seq<ParamSpec>, missing: bool)

  ghost predicate Good(reg: Registry) {
    Inv(reg) && DecoratorsListed(reg)
  }

  /** The operation is on a scope that exists and, if it is a Provide, it is not the scopes below its target
      scope alone that have a cycle. */
  ghost predicate Clean(reg: Registry, op: Op)
    requires Good(reg)
  {
    && op.scope < |reg.parents|
    && (op.ProvideOp? ==> !OnlyDescendantCycles(reg, op.scope, op.exported, op.specs, op.results))
  }

  ghost function Step(reg: Registry, op: Op): Registry
    requires Good(reg) && Clean(reg, op)
  {
    match op
    case ProvideOp(s, exported, specs, ds) => Provide(reg, s, exported, specs, ds).1
    case ScopeOp(p) => NewScope(reg, p)
    case DecorateOp(s, specs, ds) => Decorate(reg, s, specs, ds).1
    case InvokeOp(s, specs, missing) => Invoked(reg, s, specs, missing)
  }

  lemma StepKeepsGood(reg: Registry, op: Op)
    requires Good(reg) && Clean(reg, op)
    ensures Good(Step(reg, op))
  {
    hide Inv, Grown, Provide, OnlyDescendantCycles;
    InvFacts(reg);
    match op
    case ProvideOp(s, exported, specs, ds) =>
      ProvideForeseen(reg, s, exported, specs, ds);
      ProvideKeepsInv(reg, s, exported, specs, ds);
      ProvideKeepsDecorators(reg, s, exported, specs, ds);
    case ScopeOp(p) =>
      NewScopeKeepsInv(reg, p);
    case DecorateOp(s, specs, ds) =>
      DecorateKeepsInv(reg, s, specs, ds);
      DecorateKeepsDecorators(reg, s, specs, ds);
    case InvokeOp(s, specs, missing) =>
      InvokedKeepsInv(reg, s, specs, missing);
      NewParamsGrow(reg, s, specs);
      GrownFields(reg, NewParams(reg, s, specs).1, s);
  }

  lemma ProvideKeepsDecorators(reg: Registry, s: nat, exported: bool, specs: seq<ParamSpec>,
          ds: seq<Declared>)
    requires Tables(reg) && s < |reg.parents|
    ensures Provide(reg, s, exported, specs, ds).1.decorators == reg.decorators
    ensures Provide(reg, s, exported, specs, ds).1.decos == reg.decos
    ensures Provide(reg, s, exported, specs, ds).1.parents == reg.parents
    ensures Provide(reg, s, exported, specs, ds).1.deferred == reg.deferred
  {
    TargetExists(reg, s, exported);
    var t := Target(reg, s, exported);
    var (ps, reg1) := NewParams(Snapshot(reg, t), t, specs);
    NewParamsGrow(Snapshot(reg, t), t, specs);
    GrownFields(Snapshot(reg, t), reg1, t);
  }

  /** A run of clean operations */
  ghost predicate CleanRun(reg: Registry, ops: seq<Op>)
    requires Good(reg)
    decreases |ops|
  {
    ops == [] || (Clean(reg, ops[0]) && (StepKeepsGood(reg, ops[0]); CleanRun(Step(reg, ops[0]), ops[1..])))
  }

  ghost function Run(reg: Registry, ops: seq<Op>): (reg': Registry)
    requires Good(reg) && CleanRun(reg, ops)
    ensures Good(reg')
    decreases |ops|
  {
    if ops == [] then reg else
      StepKeepsGood(reg, ops[0]);
      Run(Step(reg, ops[0]), ops[1..])
  }

  lemma NewContainerIsGood(deferred: bool)
    ensures Good(NewContainer(deferred))
  {}

  /** Clean operations on a new container */
  ghost predicate CleanHistory(deferred: bool, ops: seq<Op>) {
    NewContainerIsGood(deferred);
    CleanRun(NewContainer(deferred), ops)
  }

  ghost function History(deferred: bool, ops: seq<Op>): (reg: Registry)
    requires CleanHistory(deferred, ops)
    ensures Good(reg)
  {
    NewContainerIsGood(deferred);
    Run(NewContainer(deferred), ops)
  }

  // ---------------------------------------------------------------------------------------------
  // Runs in which no key is decorated twice in one scope

  ghost predicate Whole(reg: Registry, op: Op)
    requires Good(reg)
  {
    op.DecorateOp? ==> Decorate(reg, op.scope, op.specs, op.results).0 != AlreadyDecorated
  }

  ghost predicate WholeRun(reg: Registry, ops: seq<Op>)
    requires Good(reg) && CleanRun(reg, ops)
    decreases |ops|
  {
    ops == [] || (Whole(reg, ops[0]) && (StepKeepsGood(reg, ops[0]); WholeRun(Step(reg, ops[0]), ops[1..])))
  }

  lemma StepKeepsWhole(reg: Registry, op: Op)
    requires Good(reg) && Clean(reg, op) && Whole(reg, op) && DecoratorsWhole(reg)
    ensures DecoratorsListed(Step(reg, op)) && DecoratorsWhole(Step(reg, op))
  {
    hide Inv, Grown;
    InvFacts(reg);
    StepKeepsGood(reg, op);
    match op
    case ProvideOp(s, exported, specs, ds) =>
      ProvideForeseen(reg, s, exported, specs, ds);
      ProvideKeepsDecorators(reg, s, exported, specs, ds);
    case ScopeOp(p) =>
    case DecorateOp(s, specs, ds) =>
      DecorateKeepsDecorators(reg, s, specs, ds);
    case InvokeOp(s, specs, missing) =>
      NewParamsGrow(reg, s, specs);
      GrownFields(reg, NewParams(reg, s, specs).1, s);
  }

  lemma {:induction false} RunKeepsWhole(reg: Registry, ops: seq<Op>)
    requires Good(reg) && CleanRun(reg, ops) && WholeRun(reg, ops) && DecoratorsWhole(reg)
    ensures DecoratorsWhole(Run(reg, ops))
    decreases |ops|
  {
    hide Inv, DecoratorsWhole, Whole, Step;
    if ops != [] {
      StepKeepsGood(reg, ops[0]);
      StepKeepsWhole(reg, ops[0]);
      RunKeepsWhole(Step(reg, ops[0]), ops[1..]);
    }
  }

  ghost predicate WholeHistory(deferred: bool, ops: seq<Op>) {
    CleanHistory(deferred, ops) && (NewContainerIsGood(deferred); WholeRun(NewContainer(deferred), ops))
  }

  /** In every clean run in which no Decorate finds its key decorated: a decorator is registered for all its keys. */
  lemma EveryRunIsWhole(deferred: bool, ops: seq<Op>)
    requires WholeHistory(deferred, ops)
    ensures DecoratorsWhole(History(deferred, ops))
  {
    NewContainerIsGood(deferred);
    RunKeepsWhole(NewContainer(deferred), ops);
  }

  /** In every clean run: order indices are exact and edges in range; a scope flagged as verified has no cycle. */
  lemma EveryRunIsSound(deferred: bool, ops: seq<Op>)
    requires CleanHistory(deferred, ops)
    ensures var reg := History(deferred, ops);
            && Good(reg)
            && forall c :: 0 <= c < |reg.parents| ==>
               InRange(GraphOf(reg, c)) && (reg.verified[c] ==> HasNoCycle(GraphOf(reg, c)))
  {
    var reg := History(deferred, ops);
    forall c | 0 <= c < |reg.parents|
      ensures InRange(GraphOf(reg, c)) && (reg.verified[c] ==> HasNoCycle(GraphOf(reg, c)))
    {
      EdgesInRange(reg, c);
      if reg.verified[c] { DagHasNoCycle(GraphOf(reg, c)); }
    }
  }

  // ---------------------------------------------------------------------------------------------
  // Constructors are never taken away

  /** Nothing that has been provided is taken away. */
  ghost predicate Extends(reg: Registry, reg': Registry) {
    && reg.ctors <= reg'.ctors && |reg.nodes| <= |reg'.nodes|
    && forall c, n :: 0 <= c < |reg.nodes| && CtorNode(n) in reg.nodes[c] ==> CtorNode(n) in reg'.nodes[c]
  }

  lemma GrownExtends(reg: Registry, reg': Registry, s: nat)
    requires Grown(reg, reg', s)
    ensures Extends(reg, reg')
  {}

  lemma ProvideExtends(reg: Registry, s: nat, exported: bool, specs: seq<ParamSpec>, ds: seq<Declared>)
    requires Tables(reg) && s < |reg.parents| && !OnlyDescendantCycles(reg, s, exported, specs, ds)
    ensures Extends(reg, Provide(reg, s, exported, specs, ds).1)
  {
    hide Tables, Grown, OnlyDescendantCycles, Check, TreeOk, NodesNumbered;
    TablesFacts(reg);
    if Provide(reg, s, exported, specs, ds).0 == Provided {
      ProvidedExtends(reg, s, exported, specs, ds);
    } else {
      ProvideUndoes(reg, s, exported, specs, ds);
      ProvideForeseen(reg, s, exported, specs, ds);
    }
  }

  lemma ProvidedExtends(reg: Registry, s: nat, exported: bool, specs: seq<ParamSpec>, ds: seq<Declared>)
    requires Tables(reg) && s < |reg.parents| && Provide(reg, s, exported, specs, ds).0 == Provided
    ensures Extends(reg, Provide(reg, s, exported, specs, ds).1)
  {
    hide Tables, Grown, CheckScopes, Restore, Rollback, GraphOf, IsDag, Acceptable;
    TablesFacts(reg);
    TargetExists(reg, s, exported);
    var t := Target(reg, s, exported);
    var (ps, reg1) := NewParams(Snapshot(reg, t), t, specs);
    NewParamsGrow(Snapshot(reg, t), t, specs);
    var ctor := Ctor(ps.value, ListOf(ds).value, t, s);
    NewCtorGrows(reg1, t, ctor);
    GrownFromSnapshot(reg, reg1, NewCtor(reg1, t, ctor), t);
    GrownExtends(Snapshot(reg, t), NewCtor(reg1, t, ctor), t);
  }

  lemma StepExtends(reg: Registry, op: Op)
    requires Good(reg) && Clean(reg, op)
    ensures Extends(reg, Step(reg, op))
  {
    hide Tables, FlagsSound, Grown, OnlyDescendantCycles, Provide, DecoratorsListed;
    InvFacts(reg);
    TablesFacts(reg);
    match op
    case ProvideOp(s, exported, specs, ds) => ProvideExtends(reg, s, exported, specs, ds);
    case ScopeOp(p) =>
    case DecorateOp(s, specs, ds) =>
      NewParamsGrow(reg, s, specs);
      GrownExtends(reg, NewParams(reg, s, specs).1, s);
    case InvokeOp(s, specs, missing) =>
      NewParamsGrow(reg, s, specs);
      GrownExtends(reg, NewParams(reg, s, specs).1, s);
  }
}
