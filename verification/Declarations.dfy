/** What a registration declares is what the container holds afterwards: the parameters of constructors and decorators,
    the keys that they are found by, and the scopes that see them (param.go, provide.go, decorate.go, scope.go). */
module Declarations {
  import opened Values
  import opened ResultTree
  import opened Registry
  import opened Registration
  import opened RegistrationInvariant
  import opened RegistrationSteps
  import opened Resolver
  import opened Runs
  import opened Invocation
  import opened Digraph

  // ---------------------------------------------------------------------------------------------
  // Parameters

  /** newParam refuses no part of the declared parameter. */
  ghost predicate Usable(spec: ParamSpec) {
    match spec
    case SingleSpec(_, _) => true
    case GroupSpec(_, _, _) => true
    case ObjectSpec(fields) => forall i :: 0 <= i < |fields| ==> Usable(fields[i].spec)
    case Unusable => false
  }

  ghost predicate AllUsable(specs: seq<ParamSpec>) {
    forall i :: 0 <= i < |specs| ==> Usable(specs[i])
  }

  /** `p` asks for what `spec` declares; group parameters are numbered for the group of theirs. */
  ghost predicate Made(groupKeys: seq<Key>, spec: ParamSpec, p: Param)
    decreases spec
  {
    match spec
    case SingleSpec(k, optional) => p == SingleParam(k, optional)
    case GroupSpec(elem, slice, soft) =>
      p.GroupParam? && p == GroupParam(p.id, elem, slice, soft) && p.id < |groupKeys| && groupKeys[p.id] == elem
    case ObjectSpec(fields) =>
      && p.ObjectParam? && |p.fields| == |fields|
      && forall i :: 0 <= i < |fields| ==>
           p.fields[i].index == fields[i].index && Made(groupKeys, fields[i].spec, p.fields[i].param)
    case Unusable => false
  }

  ghost predicate AllMade(groupKeys: seq<Key>, specs: seq<ParamSpec>, ps: seq<Param>) {
    |ps| == |specs| && forall i :: 0 <= i < |specs| ==> Made(groupKeys, specs[i], ps[i])
  }

  /** Group parameters that are numbered later do not matter. */
  lemma {:induction false} MadeStays(keys: seq<Key>, keys': seq<Key>, spec: ParamSpec, p: Param)
    requires Made(keys, spec, p) && keys <= keys'
    ensures Made(keys', spec, p)
    decreases spec
  {
    match spec
    case SingleSpec(_, _) =>
    case GroupSpec(_, _, _) =>
    case ObjectSpec(fields) =>
      forall i | 0 <= i < |fields| ensures Made(keys', fields[i].spec, p.fields[i].param) {
        MadeStays(keys, keys', fields[i].spec, p.fields[i].param);
      }
  }

  ghost predicate FieldsMade(keys: seq<Key>, fields: seq<FieldSpec>, fs: seq<ParamField>) {
    && |fs| == |fields|
    && forall i :: 0 <= i < |fields| ==> fs[i].index == fields[i].index && Made(keys, fields[i].spec, fs[i].param)
  }

  lemma {:induction false} NewParamIsMade(reg: Registry, s: nat, spec: ParamSpec)
    requires |reg.nodes| == |reg.parents|
    ensures var (p, reg1) := NewParam(reg, s, spec);
            && (p.Some? <==> Usable(spec))
            && (p.Some? ==> Made(reg1.groupKeys, spec, p.value))
            && reg.groupKeys <= reg1.groupKeys
    decreases spec, 1
  {
    hide AddNode;
    match spec
    case SingleSpec(_, _) =>
    case GroupSpec(elem, _, _) =>
      assert NewGroupNode(reg, s, elem).groupKeys == reg.groupKeys + [elem] by { GroupIsNumbered(reg, s, elem); }
    case ObjectSpec(fields) => NewFieldsAreMade(reg, s, fields);
    case Unusable =>
  }

  lemma GroupIsNumbered(reg: Registry, s: nat, elem: Key)
    requires |reg.nodes| == |reg.parents|
    ensures NewGroupNode(reg, s, elem).groupKeys == reg.groupKeys + [elem]
  {}

  lemma {:induction false} NewFieldsAreMade(reg: Registry, s: nat, fields: seq<FieldSpec>)
    requires |reg.nodes| == |reg.parents|
    ensures var (fs, reg1) := NewFields(reg, s, fields);
            && (fs.Some? <==> forall i :: 0 <= i < |fields| ==> Usable(fields[i].spec))
            && (fs.Some? ==> FieldsMade(reg1.groupKeys, fields, fs.value))
            && reg.groupKeys <= reg1.groupKeys
    decreases fields, 0
  {
    hide Made, Usable, NewParam;
    if fields != [] {
      assert (fields[0] decreases to fields[0].spec);
      var (p, reg1) := NewParam(reg, s, fields[0].spec);
      NewParamIsMade(reg, s, fields[0].spec);
      if p.Some? {
        NewFieldsAreMade(reg1, s, fields[1..]);
        var (fs, reg2) := NewFields(reg1, s, fields[1..]);
        MadeStays(reg1.groupKeys, reg2.groupKeys, fields[0].spec, p.value);
        assert forall i :: 1 <= i < |fields| ==> fields[i] == fields[1..][i - 1];
      }
    }
  }

  /** newParamList succeeds if and only if no declared parameter is refused, and then makes one for each, in order. */
  lemma {:induction false} NewParamsAreMade(reg: Registry, s: nat, specs: seq<ParamSpec>)
    requires |reg.nodes| == |reg.parents|
    ensures var (ps, reg1) := NewParams(reg, s, specs);
            && (ps.Some? <==> AllUsable(specs))
            && (ps.Some? ==> AllMade(reg1.groupKeys, specs, ps.value))
            && reg.groupKeys <= reg1.groupKeys
    decreases |specs|
  {
    hide Made, Usable, NewParam;
    if specs != [] {
      var (p, reg1) := NewParam(reg, s, specs[0]);
      NewParamIsMade(reg, s, specs[0]);
      if p.Some? {
        NewParamsAreMade(reg1, s, specs[1..]);
        var (ps, reg2) := NewParams(reg1, s, specs[1..]);
        MadeStays(reg1.groupKeys, reg2.groupKeys, specs[0], p.value);
        assert forall i :: 1 <= i < |specs| ==> specs[i] == specs[1..][i - 1];
      }
    }
  }

  // ---------------------------------------------------------------------------------------------
  // Keys

  /** The result is to be found by the key `k`. */
  ghost predicate Registers(r: Result, k: Key) {
    match r
    case SingleResult(name, t, ts) => k == Key(t, name, "") || exists a :: a in ts && k == Key(a, name, "")
    case GroupedResult(group, t, _, ts) => k == Key(t, "", group) || exists a :: a in ts && k == Key(a, "", group)
    case ObjectResult(fields) => exists i :: 0 <= i < |fields| && Registers(fields[i].result, k)
  }

  ghost predicate DeclaresKey(ds: seq<Declared>, k: Key) {
    exists i :: 0 <= i < |ds| && ds[i].DeclaredResult? && Registers(ds[i].result, k)
  }

  lemma {:induction false} KeyOfTypes(t: Type, ts: seq<Type>, name: string, group: string, single: bool, k: Key)
    ensures k in KeysOf(MarkAll(AsKeys([t] + ts, name, group), single))
       <==> (k == Key(t, name, group) || exists a :: a in ts && k == Key(a, name, group))
  {
    var es := MarkAll(AsKeys([t] + ts, name, group), single);
    assert es[0] in es && es[0].key == Key(t, name, group);
    forall i | 0 <= i < |ts| ensures Key(ts[i], name, group) in KeysOf(es) {
      assert es[i + 1] in es && es[i + 1].key == Key(ts[i], name, group);
    }
    if k in KeysOf(es) {
      var i :| 0 <= i < |es| && es[i].key == k;
      if i > 0 { assert ts[i - 1] in ts && k == Key(ts[i - 1], name, group); }
    }
  }

  lemma {:induction false} EntriesRegister(r: Result, k: Key)
    ensures k in KeysOf(Entries(r)) <==> Registers(r, k)
    decreases r, 1
  {
    match r
    case SingleResult(name, t, ts) => KeyOfTypes(t, ts, name, "", true, k);
    case GroupedResult(group, t, _, ts) => KeyOfTypes(t, ts, "", group, false, k);
    case ObjectResult(fields) => FieldsRegister(fields, k);
  }

  lemma {:induction false} FieldsRegister(fields: seq<ResultField>, k: Key)
    ensures k in KeysOf(FieldEntries(fields)) <==> exists i :: 0 <= i < |fields| && Registers(fields[i].result, k)
    decreases fields, 0
  {
    hide Registers;
    if fields != [] {
      assert (fields[0] decreases to fields[0].result);
      EntriesRegister(fields[0].result, k);
      FieldsRegister(fields[1..], k);
      KeysOfConcat(Entries(fields[0].result), FieldEntries(fields[1..]));
      assert forall i :: 1 <= i < |fields| ==> fields[i] == fields[1..][i - 1];
      if i :| 0 <= i < |fields[1..]| && Registers(fields[1..][i].result, k) {
        assert Registers(fields[i + 1].result, k);
      }
    }
  }

  lemma {:induction false} ResultsRegister(rs: seq<Result>, k: Key)
    ensures k in KeysOf(ListEntries(rs)) <==> exists i :: 0 <= i < |rs| && Registers(rs[i], k)
  {
    hide Registers, Entries;
    if rs != [] {
      EntriesRegister(rs[0], k);
      ResultsRegister(rs[1..], k);
      KeysOfConcat(Entries(rs[0]), ListEntries(rs[1..]));
      assert forall i :: 1 <= i < |rs| ==> rs[i] == rs[1..][i - 1];
      if i :| 0 <= i < |rs[1..]| && Registers(rs[1..][i], k) { assert Registers(rs[i + 1], k); }
    }
  }

  /** The keys of a constructor are those of its declared results. */
  lemma {:induction false} ListRegisters(ds: seq<Declared>, k: Key)
    requires ListOf(ds).Some?
    ensures k in KeysOf(ListEntries(ListOf(ds).value.results)) <==> DeclaresKey(ds, k)
  {
    hide Registers, ListEntries;
    var rl := ListOf(ds).value;
    PositionsMatch(ds);
    PositionsCover(ds);
    ResultsRegister(rl.results, k);
    if i :| 0 <= i < |rl.results| && Registers(rl.results[i], k) {
      assert i in rl.indexes;
      var j :| 0 <= j < |ds| && rl.indexes[j] == i;
      assert ds[j].DeclaredResult? && Registers(ds[j].result, k);
    }
    if j :| 0 <= j < |ds| && ds[j].DeclaredResult? && Registers(ds[j].result, k) {
      assert Registers(rl.results[rl.indexes[j]], k);
    }
  }

  // ---------------------------------------------------------------------------------------------
  // Provide

  /** What an accepted Provide leaves: one constructor more, which holds what was declared, and which exactly its
      target scope lists, for exactly the declared keys. */
  ghost predicate AcceptsCtor(reg: Registry, reg': Registry, t: nat, s: nat, specs: seq<ParamSpec>, ds: seq<Declared>) {
    && reg'.parents == reg.parents
    && |reg'.ctors| == |reg.ctors| + 1 && reg.ctors <= reg'.ctors
    && (var ctor := reg'.ctors[|reg.ctors|];
        ctor.scope == t && ctor.orig == s && AllMade(reg'.groupKeys, specs, ctor.params)
        && ListOf(ds) == Some(ctor.results))
    && (forall slot: Slot :: Listed(reg'.providers, slot)
                          == if slot.scope == t && DeclaresKey(ds, slot.key)
                             then Listed(reg.providers, slot) + [|reg.ctors|] else Listed(reg.providers, slot))
  }

  lemma {:induction false} CheckedIsListed(reg: Registry, reg1: Registry, reg2: Registry, ctor: Ctor)
    requires TreeOk(reg) && NodesNumbered(reg) && ctor.scope < |reg.parents|
    requires Grown(Snapshot(reg, ctor.scope), reg1, ctor.scope) && Grown(reg1, reg2, ctor.scope)
    requires Check(reg, reg1, reg2, ctor).0 == Provided
    ensures var reg' := Check(reg, reg1, reg2, ctor).1;
            reg' == List(reg2, ctor.scope, KeysOfCtor(ctor), |reg1.ctors|).(verified := reg'.verified)
  {
    hide Grown, GraphOf, IsDag, KeysOfCtor, TreeOk, NodesNumbered, Restore, Rollback;
    var t := ctor.scope;
    var reg3 := List(reg2, t, KeysOfCtor(ctor), |reg1.ctors|);
    ListedSized(reg, reg1, reg2, reg3, t);
    forall c | c in Subscopes(reg, t) ensures c < |reg.parents| { SubscopesMembers(reg, t, c); }
  }

  lemma JoinedHolds(reg: Registry, reg2: Registry, reg': Registry, ctor: Ctor, specs: seq<ParamSpec>,
          ds: seq<Declared>)
    requires reg2.ctors == reg.ctors + [ctor] && reg2.parents == reg.parents && reg2.providers == reg.providers
    requires reg' == List(reg2, ctor.scope, KeysOfCtor(ctor), |reg.ctors|).(verified := reg'.verified)
    requires AllMade(reg2.groupKeys, specs, ctor.params) && ListOf(ds) == Some(ctor.results)
    ensures AcceptsCtor(reg, reg', ctor.scope, ctor.orig, specs, ds)
  {
    hide AllMade, DeclaresKey, List, ListOf, KeysOf, ListEntries;
    ListLists(reg2, ctor, |reg.ctors|);
    forall slot: Slot ensures slot.key in KeysOfCtor(ctor) <==> DeclaresKey(ds, slot.key) {
      ListRegisters(ds, slot.key);
    }
  }

  /** Provide refuses a parameter exactly if one is declared that newParam refuses; an accepted Provide adds exactly
      what was declared. */
  lemma {:induction false} ProvideHoldsDeclared(reg: Registry, s: nat, exported: bool, specs: seq<ParamSpec>,
          ds: seq<Declared>)
    requires Tables(reg) && s < |reg.parents|
    ensures Provide(reg, s, exported, specs, ds).0 == BadParam <==> !AllUsable(specs)
    ensures Provide(reg, s, exported, specs, ds).0 == Provided ==>
              AcceptsCtor(reg, Provide(reg, s, exported, specs, ds).1, Target(reg, s, exported), s, specs, ds)
  {
    hide Tables, Grown, Check, List, AddNode, AcceptsCtor, AllMade, AllUsable, Rollback;
    TablesFacts(reg);
    TargetExists(reg, s, exported);
    var t := Target(reg, s, exported);
    var (ps, reg1) := NewParams(Snapshot(reg, t), t, specs);
    NewParamsGrow(Snapshot(reg, t), t, specs);
    NewParamsAreMade(Snapshot(reg, t), t, specs);
    if ps.Some? && ListOf(ds).Some? {
      var ctor := Ctor(ps.value, ListOf(ds).value, t, s);
      NewCtorGrows(reg1, t, ctor);
      NewCtorHolds(reg1, t, ctor);
      CheckOutcomes(reg, reg1, NewCtor(reg1, t, ctor), ctor);
      if Provide(reg, s, exported, specs, ds).0 == Provided {
        CheckedIsListed(reg, reg1, NewCtor(reg1, t, ctor), ctor);
        GrownFields(Snapshot(reg, t), reg1, t);
        JoinedHolds(reg, NewCtor(reg1, t, ctor), Provide(reg, s, exported, specs, ds).1, ctor, specs, ds);
      }
    }
  }

  /** A declared single key is provided by the scope already, or met before among the declared keys. */
  ghost predicate Clashes(reg: Registry, t: nat, es: seq<Entry>) {
    exists i :: 0 <= i < |es| && es[i].single
                && (reg.Providers(t, es[i].key) != [] || exists j :: 0 <= j < i && es[j].key == es[i].key)
  }

  lemma ClashIsConflict(reg: Registry, t: nat, es: seq<Entry>)
    ensures Clashes(reg, t, es) <==> !Acceptable(reg, t, es)
  {
    forall i | 0 <= i < |es|
      ensures es[i].key in KeysOf(es[..i]) <==> exists j :: 0 <= j < i && es[j].key == es[i].key
    {
      if j :| 0 <= j < i && es[j].key == es[i].key { assert es[j] in es[..i]; }
      if es[i].key in KeysOf(es[..i]) {
        var x :| x in es[..i] && x.key == es[i].key;
        var j :| 0 <= j < i && es[j] == x;
      }
    }
  }

  /** Why a Provide fails: a parameter is refused; else a result is; else a single key is taken; else there is no key at
      all; else some scope has a cycle. */
  lemma {:induction false} ProvideFailsFor(reg: Registry, s: nat, exported: bool, specs: seq<ParamSpec>,
          ds: seq<Declared>)
    requires Tables(reg) && s < |reg.parents|
    ensures var outcome := Provide(reg, s, exported, specs, ds).0;
            if !AllUsable(specs) then outcome == BadParam
            else if Refused in ds then outcome == BadResult
            else if Clashes(reg, Target(reg, s, exported), ListEntries(Accepted(ds))) then outcome == Conflict
            else if forall k :: !DeclaresKey(ds, k) then outcome == NoKeys
            else outcome == Provided || outcome.CycleIn?
  {
    hide Tables, Grown, Check, List, AddNode, AllMade, AllUsable, Rollback, Acceptable, Clashes, DeclaresKey, KeysOf,
         ListEntries;
    TablesFacts(reg);
    TargetExists(reg, s, exported);
    var t := Target(reg, s, exported);
    var (ps, reg1) := NewParams(Snapshot(reg, t), t, specs);
    NewParamsGrow(Snapshot(reg, t), t, specs);
    NewParamsAreMade(Snapshot(reg, t), t, specs);
    if ps.Some? && ListOf(ds).Some? {
      var ctor := Ctor(ps.value, ListOf(ds).value, t, s);
      NewCtorGrows(reg1, t, ctor);
      CheckOutcomes(reg, reg1, NewCtor(reg1, t, ctor), ctor);
      ClashIsConflict(reg, t, ListEntries(Accepted(ds)));
      forall k ensures k in KeysOfCtor(ctor) <==> DeclaresKey(ds, k) { ListRegisters(ds, k); }
    }
  }

  lemma NewCtorHolds(reg: Registry, t: nat, ctor: Ctor)
    requires |reg.nodes| == |reg.parents|
    ensures var reg' := NewCtor(reg, t, ctor);
            && reg'.ctors == reg.ctors + [ctor] && reg'.groupKeys == reg.groupKeys
            && reg'.parents == reg.parents && reg'.providers == reg.providers
  {}

  lemma CheckOutcomes(reg: Registry, reg1: Registry, reg2: Registry, ctor: Ctor)
    requires TreeOk(reg) && NodesNumbered(reg) && ctor.scope < |reg.parents|
    requires Grown(Snapshot(reg, ctor.scope), reg1, ctor.scope) && Grown(reg1, reg2, ctor.scope)
    ensures Check(reg, reg1, reg2, ctor).0 == Provided || Check(reg, reg1, reg2, ctor).0.CycleIn?
  {
    hide Grown, GraphOf, IsDag, KeysOfCtor, Restore, Rollback, List;
  }

  /** The new constructor is seen for exactly the declared keys, from exactly the scopes at and below its target. */
  lemma {:induction false} AcceptedIsSeen(reg: Registry, reg': Registry, t: nat, s: nat, specs: seq<ParamSpec>,
          ds: seq<Declared>, c: nat, k: Key)
    requires Tables(reg) && AcceptsCtor(reg, reg', t, s, specs, ds) && c < |reg.parents|
    ensures |reg.ctors| in reg'.AllProviders(c, k) <==> Within(reg, t, c) && DeclaresKey(ds, k)
  {
    hide DeclaresKey, AllMade, Registry.ProvidersOn;
    var n := |reg.ctors|;
    ProvidersOnMember(reg', reg'.PathToRoot(c), k, n);
    forall a ensures n !in reg.Providers(a, k) { NumberIsFree(reg, Slot(a, k)); }
    forall a ensures n in reg'.Providers(a, k) <==> a == t && DeclaresKey(ds, k) {
      assert Listed(reg'.providers, Slot(a, k)) == reg'.Providers(a, k);
    }
  }

  // ---------------------------------------------------------------------------------------------
  // Export

  /** The way to the root goes from each scope to its parent, and ends at a scope that has none. */
  lemma {:induction false} PathGoesToRoot(reg: Registry, s: nat)
    requires TreeOk(reg) && s < |reg.parents|
    ensures var path := reg.PathToRoot(s);
            && path[0] == s && path[|path| - 1] < |reg.parents| && reg.parents[path[|path| - 1]].None?
            && forall i :: 0 <= i < |path| - 1 ==> path[i] < |reg.parents| && reg.parents[path[i]] == Some(path[i + 1])
    decreases s
  {
    if reg.parents[s].Some? {
      var p := reg.parents[s].value;
      PathGoesToRoot(reg, p);
      var path, rest := reg.PathToRoot(s), reg.PathToRoot(p);
      assert path == [s] + rest;
      forall i | 0 <= i < |path| - 1 ensures path[i] < |reg.parents| && reg.parents[path[i]] == Some(path[i + 1]) {
        if i > 0 { assert path[i] == rest[i - 1]; }
      }
    }
  }

  /** The providers that a scope sees are its own, and after them those that its parent sees. */
  lemma {:induction false} OwnProvidersFirst(reg: Registry, s: nat, k: Key)
    requires TreeOk(reg) && s < |reg.parents|
    ensures reg.AllProviders(s, k)
         == reg.Providers(s, k) + if reg.parents[s].Some? then reg.AllProviders(reg.parents[s].value, k) else []
  {
    var path := reg.PathToRoot(s);
    if reg.parents[s].Some? {
      assert path[1..] == reg.PathToRoot(reg.parents[s].value);
    } else {
      assert path == [s] && path[1..] == [];
      assert reg.ProvidersOn([], k) == [];
    }
  }

  lemma RootHasNoParent(reg: Registry, s: nat)
    requires TreeOk(reg) && s < |reg.parents|
    ensures var root := Root(reg, s);
            root in reg.PathToRoot(s) && root < |reg.parents| && reg.parents[root].None?
  {
    hide TreeOk;
    PathGoesToRoot(reg, s);
  }

  /** The first scope is the only one without a parent. */
  ghost predicate OneRoot(reg: Registry) {
    |reg.parents| > 0 && forall c :: 0 <= c < |reg.parents| ==> (reg.parents[c].None? <==> c == 0)
  }

  lemma StepKeepsOneRoot(reg: Registry, op: Op)
    requires Good(reg) && Clean(reg, op) && OneRoot(reg)
    ensures OneRoot(Step(reg, op))
  {
    hide Inv, Grown, DecoratorsListed;
    InvFacts(reg);
    match op
    case ProvideOp(s, exported, specs, ds) => ProvideKeepsDecorators(reg, s, exported, specs, ds);
    case ScopeOp(_) =>
    case DecorateOp(s, specs, _) =>
      NewParamsGrow(reg, s, specs);
      GrownFields(reg, NewParams(reg, s, specs).1, s);
    case InvokeOp(s, specs, _) =>
      NewParamsGrow(reg, s, specs);
      GrownFields(reg, NewParams(reg, s, specs).1, s);
  }

  lemma {:induction false} RunKeepsOneRoot(reg: Registry, ops: seq<Op>)
    requires Good(reg) && OneRoot(reg) && CleanRun(reg, ops)
    ensures OneRoot(Run(reg, ops))
    decreases |ops|
  {
    hide Good, Clean, Step, OneRoot;
    if ops != [] {
      StepKeepsGood(reg, ops[0]);
      StepKeepsOneRoot(reg, ops[0]);
      RunKeepsOneRoot(Step(reg, ops[0]), ops[1..]);
    }
  }

  /** In every container that registrations lead to, an exported constructor goes to scope 0, which every scope has on
      its way to the root. */
  lemma {:induction false} ExportGoesToRoot(deferred: bool, ops: seq<Op>, s: nat)
    requires CleanHistory(deferred, ops) && s < |History(deferred, ops).parents|
    ensures var reg := History(deferred, ops);
            && Target(reg, s, true) == 0
            && forall c: nat :: c < |reg.parents| ==> Within(reg, 0, c)
  {
    hide Inv, DecoratorsListed, CleanRun, Run, TreeOk;
    var reg := History(deferred, ops);
    NewContainerIsGood(deferred);
    RunKeepsOneRoot(NewContainer(deferred), ops);
    InvFacts(reg);
    RootHasNoParent(reg, s);
    forall c: nat | c < |reg.parents| ensures Within(reg, 0, c) { RootHasNoParent(reg, c); }
  }

  /** An accepted Provide with Export makes its constructor visible from every scope, for exactly the declared keys. */
  lemma {:induction false} ExportedIsSeenEverywhere(deferred: bool, ops: seq<Op>, s: nat, specs: seq<ParamSpec>,
          ds: seq<Declared>, c: nat, k: Key)
    requires CleanHistory(deferred, ops) && s < |History(deferred, ops).parents| && c < |History(deferred, ops).parents|
    requires var reg := History(deferred, ops);
             TreeOk(reg) && NodesNumbered(reg) && Provide(reg, s, true, specs, ds).0 == Provided
    ensures var reg := History(deferred, ops);
            |reg.ctors| in Provide(reg, s, true, specs, ds).1.AllProviders(c, k) <==> DeclaresKey(ds, k)
  {
    hide Inv, DecoratorsListed, CleanHistory, History, DeclaresKey, Provide, AcceptsCtor, Target, Within;
    var reg := History(deferred, ops);
    InvFacts(reg);
    ExportGoesToRoot(deferred, ops, s);
    ProvideHoldsDeclared(reg, s, true, specs, ds);
    AcceptedIsSeen(reg, Provide(reg, s, true, specs, ds).1, 0, s, specs, ds, c, k);
  }

  // ---------------------------------------------------------------------------------------------
  // Decorate

  /** The insertion loop comes to its end exactly if no key is decorated in the scope already, or listed twice. */
  lemma {:induction false} InsertSucceeds(reg: Registry, s: nat, d: nat, keys: seq<Key>)
    ensures Insert(reg, s, d, keys).0 <==> (Distinct(keys) && forall k :: k in keys ==> Slot(s, k) !in reg.decorators)
    decreases |keys|
  {
    if keys != [] && Slot(s, keys[0]) !in reg.decorators {
      var reg1 := reg.(decorators := reg.decorators[Slot(s, keys[0]) := d]);
      InsertSucceeds(reg1, s, d, keys[1..]);
      assert forall k :: k in keys <==> k == keys[0] || k in keys[1..];
      DistinctHead(keys);
    } else if keys != [] {
      assert keys[0] in keys;
    }
  }

  lemma DistinctHead(keys: seq<Key>)
    requires keys != []
    ensures Distinct(keys) <==> keys[0] !in keys[1..] && Distinct(keys[1..])
  {
    if Distinct(keys) {
      forall i, j | 0 <= i < j < |keys[1..]| ensures keys[1..][i] != keys[1..][j] {
        assert keys[1..][i] == keys[i + 1] && keys[1..][j] == keys[j + 1];
      }
    }
    if keys[0] !in keys[1..] && Distinct(keys[1..]) {
      forall i, j | 0 <= i < j < |keys| ensures keys[i] != keys[j] {
        assert keys[j] == keys[1..][j - 1];
        if i > 0 { assert keys[i] == keys[1..][i - 1]; }
      }
    }
  }

  /** What a Decorate that is accepted leaves: one decorator more, which holds what was declared and is registered in
      its scope for exactly the leaves of its results. */
  ghost predicate AcceptsDecorator(reg: Registry, reg': Registry, s: nat, specs: seq<ParamSpec>, ds: seq<Declared>) {
    && |reg'.decos| == |reg.decos| + 1 && reg.decos <= reg'.decos
    && (var deco := reg'.decos[|reg.decos|];
        && deco.scope == s && AllMade(reg'.groupKeys, specs, deco.params) && ListOf(ds) == Some(deco.results)
        && forall slot: Slot ::
             if slot.scope == s && slot.key in AllLeafKeys(deco.results.results)
             then slot !in reg.decorators && slot in reg'.decorators && reg'.decorators[slot] == |reg.decos|
             else (slot in reg'.decorators <==> slot in reg.decorators)
                  && (slot in reg.decorators ==> reg'.decorators[slot] == reg.decorators[slot]))
  }

  lemma {:induction false} InsertFields(reg: Registry, s: nat, d: nat, keys: seq<Key>)
    ensures Insert(reg, s, d, keys).1 == reg.(decorators := Insert(reg, s, d, keys).1.decorators)
    decreases |keys|
  {
    if keys != [] && Slot(s, keys[0]) !in reg.decorators {
      InsertFields(reg.(decorators := reg.decorators[Slot(s, keys[0]) := d]), s, d, keys[1..]);
    }
  }

  /** Decorate refuses a parameter exactly if newParam refuses it; an accepted Decorate adds exactly what was
      declared. */
  lemma {:induction false} DecorateHoldsDeclared(reg: Registry, s: nat, specs: seq<ParamSpec>, ds: seq<Declared>)
    requires |reg.nodes| == |reg.parents|
    ensures Decorate(reg, s, specs, ds).0 == RefusedParam <==> !AllUsable(specs)
    ensures Decorate(reg, s, specs, ds).0 == Decorated ==>
              AcceptsDecorator(reg, Decorate(reg, s, specs, ds).1, s, specs, ds)
  {
    hide Grown, AllUsable, AllMade, SearchKeys, AllLeafKeys, AllDecorating, NewParams, Insert;
    var (ps, reg1) := NewParams(reg, s, specs);
    NewParamsGrow(reg, s, specs);
    GrownFields(reg, reg1, s);
    NewParamsAreMade(reg, s, specs);
    if Decorate(reg, s, specs, ds).0 == Decorated {
      var rl := ListOf(ds).value;
      var keys := SearchKeys(rl.results).value;
      var reg2 := reg1.(decos := reg1.decos + [Decorator(ps.value, rl, s)]);
      InsertInserts(reg2, s, |reg.decos|, keys);
      InsertSucceeds(reg2, s, |reg.decos|, keys);
      InsertFields(reg2, s, |reg.decos|, keys);
      SearchFindsLeaves(rl.results);
      assert forall k :: k in keys <==> k in multiset(keys);
      assert forall slot: Slot :: slot == Slot(slot.scope, slot.key);
    }
  }

  // ---------------------------------------------------------------------------------------------
  // Invoke

  /** Invoke refuses its arguments exactly if newParam does; otherwise it builds the declared ones. */
  lemma {:induction false} InvokeAsksDeclared(world: World, reg: Registry, c: nat, specs: seq<ParamSpec>, st: Store)
    requires Good(reg) && c < |reg.parents| && Checked(world, reg, c, specs)
    ensures InvokedFrom(world, reg, c, specs, st).0 == BadArguments <==> !AllUsable(specs)
    ensures |reg.nodes| == |reg.parents|
    ensures AllUsable(specs) ==>
              var (ps, reg1) := NewParams(reg, c, specs);
              ps.Some? && AllMade(reg1.groupKeys, specs, ps.value)
  {
    hide Good, GraphOf, IsDag, InRange, Env.MissingList, Viewed, AllUsable, AllMade, NewParams;
    InvokeIsSafe(reg, c, specs);
    NewParamsAreMade(reg, c, specs);
  }
}
