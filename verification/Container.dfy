/** The container as the program runs it: an object whose methods resolve dependencies step by step, updating the
    stores. Each method is proved to do what the functions of resolution say. */
module ContainerRuntime {
  import opened Values
  import opened ResultTree
  import opened Extraction
  import opened Registry
  import opened Registration
  import opened RegistryTables
  import opened Resolver
  import opened Shuffle
  import opened RegistrationInvariant
  import opened Runs
  import opened Independence
  import opened Invocation
  import opened Digraph

  class Container {
    const tables: ScopeTables
    const world: World
    var values: map<Slot, Value>
    var groups: map<Slot, seq<Value>>
    var decorated: map<Slot, Value>
    var decoratedGroups: map<Slot, Value>
    var called: set<nat>
    var states: map<nat, Started>
    ghost var runs: seq<nat>
    ghost var commits: seq<nat>
    ghost var decoRuns: seq<nat>

    ghost function St(): Store
      reads this
    {
      Store(values, groups, decorated, decoratedGroups, called, states, runs, commits, decoRuns)
    }

    /** `e` is this container with its registrations as they are. */
    ghost predicate Is(e: Env)
      reads tables
    {
      e.reg == tables.Reg() && e.world == world && e.Closed() && TreeOk(e.reg)
    }

    /** New */
    constructor (world: World, deferred: bool)
      ensures this.world == world && fresh(tables) && tables.Reg() == NewContainer(deferred) && St() == Empty
    {
      this.world := world;
      tables := new ScopeTables(deferred);
      values, groups, decorated, decoratedGroups := map[], map[], map[], map[];
      called, states := {}, map[];
      runs, commits, decoRuns := [], [], [];
    }

    // -----------------------------------------------------------------------------------------
    // Lookups

    /** findMissingDependencies */
    method FindMissing(p: Param, c: nat, ghost e: Env) returns (missing: seq<Key>)
      requires e.reg == tables.Reg() && TreeOk(e.reg) && c < |e.reg.parents|
      ensures missing == e.Missing(St(), p, c)
      decreases p
    {
      missing := [];
      match p
      case SingleParam(k, optional) =>
        var ns := tables.GetAllProviders(c, k);
        if |ns| == 0 && Slot(c, k) !in decorated && !optional {
          missing := [k];
        }
      case GroupParam(_, _, _, _) =>
      case ObjectParam(fields) =>
        for i := 0 to |fields|
          invariant e.MissingFields(St(), fields, c) == missing + e.MissingFields(St(), fields[i..], c)
        {
          assert fields[i..][1..] == fields[i + 1..];
          assert (fields[i] decreases to fields[i].param);
          var more := FindMissing(fields[i].param, c, e);
          missing := missing + more;
        }
        assert fields[|fields|..] == [];
    }

    /** shallowCheckDependencies */
    method ShallowCheck(ps: seq<Param>, c: nat, ghost e: Env) returns (missing: seq<Key>)
      requires e.reg == tables.Reg() && TreeOk(e.reg) && c < |e.reg.parents|
      ensures missing == e.MissingList(St(), ps, c)
    {
      missing := [];
      for i := 0 to |ps|
        invariant e.MissingList(St(), ps, c) == missing + e.MissingList(St(), ps[i..], c)
      {
        assert ps[i..][1..] == ps[i + 1..];
        var more := FindMissing(ps[i], c, e);
        missing := missing + more;
      }
      assert ps[|ps|..] == [];
    }

    /** getDecoratedValue of a single parameter */
    method GetDecoratedValue(k: Key, c: nat, ghost e: Env) returns (v: Option<Value>)
      requires Is(e) && c in e.scopes
      ensures v == Env.Closest(decorated, k, e.reg.PathToRoot(c))
    {
      var path := tables.PathToRoot(c);
      assert path[0..] == path;
      for i := 0 to |path|
        invariant Env.Closest(decorated, k, path) == Env.Closest(decorated, k, path[i..])
      {
        assert path[i..][1..] == path[i + 1..];
        if Slot(path[i], k) in decorated {
          return Some(decorated[Slot(path[i], k)]);
        }
      }
      return None;
    }

    /** getDecoratedValues of a group parameter */
    method GetDecoratedValues(slice: Key, c: nat, ghost e: Env) returns (v: Option<Value>)
      requires Is(e) && c in e.scopes
      ensures v == Env.Closest(decoratedGroups, slice, e.reg.PathToRoot(c))
    {
      var path := tables.PathToRoot(c);
      assert path[0..] == path;
      for i := 0 to |path|
        invariant Env.Closest(decoratedGroups, slice, path) == Env.Closest(decoratedGroups, slice, path[i..])
      {
        assert path[i..][1..] == path[i + 1..];
        if Slot(path[i], slice) in decoratedGroups {
          return Some(decoratedGroups[Slot(path[i], slice)]);
        }
      }
      return None;
    }

    /** The search of buildWithDecorators: a decorator that is being run is passed over. */
    method FindDecorator(k: Key, c: nat, ghost e: Env) returns (scope: Option<nat>)
      requires Is(e) && c in e.scopes
      ensures scope == e.ClosestDecorator(St(), k, e.reg.PathToRoot(c))
    {
      var path := tables.PathToRoot(c);
      assert path[0..] == path;
      for i := 0 to |path|
        invariant e.ClosestDecorator(St(), k, path) == e.ClosestDecorator(St(), k, path[i..])
      {
        assert path[i..][1..] == path[i + 1..];
        if Slot(path[i], k) !in tables.decorators {
          continue;
        }
        var d := tables.decorators[Slot(path[i], k)];
        if d in states && states[d] == OnStack {
          continue;
        }
        return Some(path[i]);
      }
      return None;
    }
  
    // -----------------------------------------------------------------------------------------
    // Writing to the stores

    /** submitGroupedValue of the scope */
    method SubmitGroupedValue(s: nat, k: Key, v: Value)
      modifies this`groups
      ensures groups == old(groups)[Slot(s, k) := Listed(old(groups), Slot(s, k)) + [v]]
    {
      groups := groups[Slot(s, k) := Listed(groups, Slot(s, k)) + [v]];
    }

    /** The first loop of Commit */
    method CommitValues(w: StagingWriter, s: nat)
      modifies this`values
      ensures Changed(old(values), values, s, w.values)
    {
      hide Changed;
      ghost var before, done := values, map[];
      ChangedNothing(values, s);
      var left := w.values.Keys;
      while left != {}
        invariant left <= w.values.Keys && done.Keys == w.values.Keys - left
        invariant forall k :: k in done ==> done[k] == w.values[k]
        invariant Changed(before, values, s, done)
        decreases left
      {
        var k :| k in left;
        ChangedOne(before, values, s, done, k, w.values[k]);
        values := values[Slot(s, k) := w.values[k]];
        done := done[k := w.values[k]];
        left := left - {k};
      }
      assert done == w.values;
    }

    /** The inner loop of Commit's second loop */
    method CommitGroup(s: nat, k: Key, vs: seq<Value>)
      requires vs != []
      modifies this`groups
      ensures groups == old(groups)[Slot(s, k) := Listed(old(groups), Slot(s, k)) + vs]
    {
      ghost var before := groups;
      for i := 0 to |vs|
        invariant i > 0 ==> groups == before[Slot(s, k) := Listed(before, Slot(s, k)) + vs[..i]]
        invariant i == 0 ==> groups == before
      {
        assert Listed(groups, Slot(s, k)) == Listed(before, Slot(s, k)) + vs[..i];
        SubmitGroupedValue(s, k, vs[i]);
        assert Listed(before, Slot(s, k)) + vs[..i] + [vs[i]] == Listed(before, Slot(s, k)) + vs[..i + 1];
        assert groups == before[Slot(s, k) := Listed(before, Slot(s, k)) + vs[..i + 1]];
      }
      assert vs[..|vs|] == vs;
    }

    /** Commit */
    method Commit(w: StagingWriter, s: nat)
      requires forall k :: k in w.groups ==> w.groups[k] != []
      modifies this`values, this`groups
      ensures St() == old(St()).Commit(s, w.Staged())
    {
      hide Changed, Store.Commit;
      ghost var st := St();
      CommitValues(w, s);
      ghost var done: map<Key, seq<Value>> := map[];
      ChangedNothing(groups, s);
      var left := w.groups.Keys;
      while left != {}
        invariant left <= w.groups.Keys && done.Keys == w.groups.Keys - left
        invariant forall k :: k in done ==> done[k] == Listed(st.groups, Slot(s, k)) + w.groups[k]
        invariant Changed(st.groups, groups, s, done)
        modifies this`groups
        decreases left
      {
        var k :| k in left;
        ChangedOne(st.groups, groups, s, done, k, Listed(groups, Slot(s, k)) + w.groups[k]);
        done := done[k := Listed(groups, Slot(s, k)) + w.groups[k]];
        CommitGroup(s, k, w.groups[k]);
        left := left - {k};
      }
      CommitChanges(st, s, w.Staged(), done);
      ChangedUnique(st.values, values, st.Commit(s, w.Staged()).values, s, w.values);
      ChangedUnique(st.groups, groups, st.Commit(s, w.Staged()).groups, s, done);
    }

    /** Extract on the scope, for a decorator's results */
    method ExtractDecorated(r: Result, s: nat, v: Value)
      modifies this`decorated, this`decoratedGroups
      ensures St() == old(St()).DecorateAll(s, Writes(r, true, v))
      decreases r
    {
      ghost var ws := Writes(r, true, v);
      match r
      case SingleResult(name, t, _) =>
        assert ws[..0] == [];
        decorated := decorated[Slot(s, Key(t, name, "")) := v];
      case GroupedResult(group, t, _, _) =>
        assert ws[..0] == [];
        decoratedGroups := decoratedGroups[Slot(s, Key(t, "", group)) := v];
      case ObjectResult(fields) =>
        for i := 0 to |fields|
          invariant St() == old(St()).DecorateAll(s, FieldWrites(fields[..i], true, v))
        {
          FieldWritesSnoc(fields, true, v, i);
          DecorateAllConcat(old(St()), s, FieldWrites(fields[..i], true, v),
                            Writes(fields[i].result, true, v.Field(fields[i].index)));
          ExtractDecorated(fields[i].result, s, v.Field(fields[i].index));
        }
        assert fields[..|fields|] == fields;
    }

    /** ExtractList on the scope, for a decorator's results: what is written before an error stays. */
    method ExtractDecoratedList(rl: ResultList, s: nat, vals: seq<Value>) returns (err: Option<UserError>)
      requires rl.Valid() && |vals| == |rl.indexes|
      modifies this`decorated, this`decoratedGroups
      ensures err == ExtractFrom(rl, true, vals, 0).error
      ensures St() == old(St()).DecorateAll(s, ExtractFrom(rl, true, vals, 0).writes)
    {
      hide ExtractFrom, Writes, Store.DecorateAll;
      ghost var ws: seq<Write> := [];
      DecorateNothing(St(), s);
      for i := 0 to |vals|
        invariant St() == old(St()).DecorateAll(s, ws)
        invariant ExtractFrom(rl, true, vals, 0).error == ExtractFrom(rl, true, vals, i).error
        invariant ExtractFrom(rl, true, vals, 0).writes == ws + ExtractFrom(rl, true, vals, i).writes
      {
        ExtractStep(rl, true, vals, i, ws);
        if rl.indexes[i] >= 0 {
          var r := rl.results[rl.indexes[i]];
          DecorateAllConcat(old(St()), s, ws, Writes(r, true, vals[i]));
          ExtractDecorated(r, s, vals[i]);
          ws := ws + Writes(r, true, vals[i]);
        } else if vals[i].AsError().Some? {
          assert ws + [] == ws;
          return vals[i].AsError();
        }
      }
      ExtractNothing(rl, true, vals);
      assert ws + [] == ws;
      return None;
    }

    // -----------------------------------------------------------------------------------------
    // Build and Call

    /** paramList.BuildList */
    method BuildList(ps: seq<Param>, c: nat, ghost e: Env, ghost level: nat) returns (r: Try<seq<Value>>)
      requires Is(e) && c in e.scopes && e.Below(ListLeaves(ps), c, level)
      modifies this
      ensures (r, St()) == e.BuildList(ps, c, level, old(St()))
      decreases e.Idle(St()), level, 0, ListSize(ps), 0
    {
      hide Env.Closed, Env.Below, Env.BuildList, Env.Build, Steps, Env.Idle, TreeOk;
      ghost var st := St();
      var args: seq<Value> := [];
      assert ps[0..] == ps;
      StepsNowhere(st);
      PrefixedByNothing(e.BuildList(ps, c, level, st).0);
      for i := 0 to |ps|
        invariant e.Below(ListLeaves(ps[i..]), c, level) && Steps(st, St()) && ListSize(ps[i..]) <= ListSize(ps)
        invariant e.BuildList(ps, c, level, st).1 == e.BuildList(ps[i..], c, level, St()).1
        invariant e.BuildList(ps, c, level, st).0 == Prefixed(args, e.BuildList(ps[i..], c, level, St()).0)
      {
        assert ps[i..][0] == ps[i] && ps[i..][1..] == ps[i + 1..];
        ghost var st1 := St();
        BuildListStep(e, ps[i..], c, level, st1);
        IdleShrinks(e, st, st1);
        var v := Build(ps[i], c, e, level);
        StepsTransitive(st, st1, St());
        if v.Fail? {
          return Fail(v.error);
        }
        PrefixedTwice(args, v.value, e.BuildList(ps[i + 1..], c, level, St()).0);
        args := args + [v.value];
      }
      assert ps[|ps|..] == [] && args + [] == args;
      BuildNothing(e, c, level, St());
      return Ok(args);
    }

    /** param.Build */
    method Build(p: Param, c: nat, ghost e: Env, ghost level: nat) returns (r: Try<Value>)
      requires Is(e) && c in e.scopes && e.Below(Leaves(p), c, level)
      modifies this
      ensures (r, St()) == e.Build(p, c, level, old(St()))
      decreases e.Idle(St()), level, 0, Size(p), 3
    {
      hide Env.Closed, Env.Below, Env.BuildSingle, Env.BuildGroup, Env.BuildFields, TreeOk;
      match p
      case SingleParam(k, optional) =>
        r := BuildSingle(k, optional, c, e, level);
      case GroupParam(_, elem, slice, soft) =>
        r := BuildGroup(elem, slice, soft, c, e, level);
      case ObjectParam(fields) =>
        r := BuildObject(fields, c, e, level);
    }

    /** paramObject.Build */
    method BuildObject(fields: seq<ParamField>, c: nat, ghost e: Env, ghost level: nat) returns (r: Try<Value>)
      requires Is(e) && c in e.scopes && e.Below(FieldLeaves(fields), c, level)
      modifies this
      ensures (r, St()) == e.Build(ObjectParam(fields), c, level, old(St()))
      decreases e.Idle(St()), level, 0, 1 + FieldSize(fields), 2
    {
      hide Env.Closed, Env.Below, Env.BuildFields, Env.Idle, Steps, TreeOk, BuildOrder;
      var ordered := OrderFields(fields);
      BuildOrderKeeps(fields);
      BuildObjectIs(e, fields, c, level, St());
      ghost var st := St();
      var dest: map<nat, Value> := map[];
      StepsNowhere(st);
      BuildNoFields(e, ordered, c, level, st);
      for i := 0 to |ordered|
        invariant Steps(st, St()) && e.Below(FieldLeaves(ordered[..i]), c, level)
        invariant e.BuildFields(ordered[..i], c, level, st) == (Ok(dest), St())
      {
        BuildFieldsStep(e, ordered, i, c, level, st);
        ghost var st1 := St();
        IdleShrinks(e, st, st1);
        var v := Build(ordered[i].param, c, e, level);
        StepsTransitive(st, st1, St());
        if v.Fail? {
          BuildFieldsFails(e, ordered, i + 1, c, level, st);
          return Fail(v.error);
        }
        dest := dest[ordered[i].index := v.value];
      }
      assert ordered[..|ordered|] == ordered;
      return Ok(Struct(dest));
    }

    /** The order in which paramObject.Build goes through the fields */
    method OrderFields(fields: seq<ParamField>) returns (ordered: seq<ParamField>)
      ensures ordered == BuildOrder(fields)
    {
      hide Soft;
      var softGroups: seq<ParamField> := [];
      ordered := [];
      for i := 0 to |fields|
        invariant Soft(fields, false) == ordered + Soft(fields[i..], false)
        invariant Soft(fields, true) == softGroups + Soft(fields[i..], true)
      {
        assert fields[i..][1..] == fields[i + 1..];
        SoftHead(fields[i..]);
        if fields[i].param.IsSoftGroup() {
          softGroups := softGroups + [fields[i]];
        } else {
          ordered := ordered + [fields[i]];
        }
      }
      SoftNothing();
      assert fields[|fields|..] == [];
      ordered := ordered + softGroups;
    }

    /** paramSingle.Build */
    method BuildSingle(k: Key, optional: bool, c: nat, ghost e: Env, ghost level: nat) returns (r: Try<Value>)
      requires Is(e) && c in e.scopes && e.Below({k}, c, level)
      modifies this
      ensures (r, St()) == e.BuildSingle(k, optional, c, level, old(St()))
      decreases e.Idle(St()), level, 0, 1, 2
    {
      hide Env.Below, Env.BuildUndecorated, Env.CallDecorator, TreeOk, Env.Idle;
      var scope := FindDecorator(k, c, e);
      if scope.Some? {
        DecoratorIsPlaced(e, c, Slot(scope.value, k));
        var err := CallDecorator(tables.decorators[Slot(scope.value, k)], e, level);
        if err.Some? {
          return Fail(ParamSingleFailed(k, Unnamed, err.value));
        }
        return Ok(if Slot(scope.value, k) in decorated then decorated[Slot(scope.value, k)] else NoValue);
      }
      var v := GetDecoratedValue(k, c, e);
      if v.Some? {
        return Ok(v.value);
      }
      r := BuildUndecorated(k, optional, c, e, level);
    }

    /** The part of paramSingle.Build that looks for a value or a provider */
    method BuildUndecorated(k: Key, optional: bool, c: nat, ghost e: Env, ghost level: nat) returns (r: Try<Value>)
      requires Is(e) && c in e.scopes && e.Below({k}, c, level)
      modifies this
      ensures (r, St()) == e.BuildUndecorated(k, optional, c, level, old(St()))
      decreases e.Idle(St()), level, 0, 1, 1
    {
      hide Env.Below, Env.CallAll, TreeOk, Env.Idle, Env.Closed, Steps;
      ScopeExists(e, c);
      ghost var st := St();
      var path := tables.PathToRoot(c);
      var ns: seq<nat> := [];
      var at := c;
      assert path[0..] == path;
      var i := 0;
      while i < |path| && ns == []
        invariant 0 <= i <= |path| && St() == st
        invariant ns == [] ==> e.Locate(st, k, path) == e.Locate(st, k, path[i..])
        invariant ns != [] ==> at in path && ns == e.reg.Providers(at, k)
        invariant ns != [] ==> e.Locate(st, k, path) == Some(at) && Slot(at, k) !in values
        decreases |path| - i, |ns| == 0
      {
        assert path[i..][1..] == path[i + 1..];
        if Slot(path[i], k) in values {
          return Ok(values[Slot(path[i], k)]);
        }
        ns := Listed(tables.providers, Slot(path[i], k));
        at := path[i];
        i := i + 1;
      }
      if ns == [] {
        return if optional then Ok(Zero(k.t)) else Fail(MissingTypes([k]));
      }
      e.BelowProviders(k, c, at, level);
      var failed := CallAll(ns, e, level);
      if failed.Some? {
        if failed.value.1.HasMissing() && optional {
          return Ok(Zero(k.t));
        }
        return Fail(ParamSingleFailed(k, ByCtor(failed.value.0), failed.value.1));
      }
      return Ok(if Slot(at, k) in values then values[Slot(at, k)] else NoValue);
    }

    /** The loops that call providers: up to the first that fails */
    method CallAll(ns: seq<nat>, ghost e: Env, ghost level: nat) returns (failed: Option<(nat, Error)>)
      requires Is(e) && forall n :: n in ns ==> n in e.rank && e.rank[n] < level
      modifies this
      ensures (failed, St()) == e.CallAll(ns, level, old(St()))
      decreases e.Idle(St()), level, 0, 0, |ns|
    {
      hide Env.CallCtor, TreeOk, Env.Idle, Env.Closed, Steps;
      ghost var st := St();
      StepsNowhere(st);
      assert ns[0..] == ns;
      for i := 0 to |ns|
        invariant Steps(st, St())
        invariant forall n :: n in ns[i..] ==> n in e.rank && e.rank[n] < level
        invariant e.CallAll(ns, level, st) == e.CallAll(ns[i..], level, St())
      {
        assert ns[i..][0] == ns[i] && ns[i] in ns && ns[i..][1..] == ns[i + 1..];
        ghost var st1 := St();
        IdleShrinks(e, st, st1);
        var err := CallCtor(ns[i], e);
        StepsTransitive(st, st1, St());
        if err.Some? {
          return Some((ns[i], err.value));
        }
      }
      assert ns[|ns|..] == [];
      return None;
    }

    /** constructorNode.Call */
    method CallCtor(n: nat, ghost e: Env) returns (err: Option<Error>)
      requires Is(e) && n in e.rank
      modifies this
      ensures (err, St()) == e.CallCtor(n, old(St()))
      decreases e.Idle(St()), e.rank[n], 1, 0, 0
    {
      hide TreeOk, Env.Idle, Env.BuildList, Env.RunCtor, Env.MissingList;
      if n in called {
        return None;
      }
      var ctor := tables.ctors[n];
      var missing := ShallowCheck(ctor.params, ctor.orig, e);
      if |missing| > 0 {
        return Some(MissingDependencies(MissingTypes(missing)));
      }
      ghost var st := St();
      var args := BuildList(ctor.params, ctor.orig, e, e.rank[n]);
      if args.Fail? {
        return Some(ArgumentsFailed(args.error));
      }
      err := RunCtor(n, args.value, e, st);
    }

    /** The rest of constructorNode.Call: nothing is written to the scope unless the constructor succeeds. */
    method RunCtor(n: nat, args: seq<Value>, ghost e: Env, ghost st: Store) returns (err: Option<Error>)
      requires Is(e) && n in e.rank && Steps(st, St())
      modifies this
      ensures (err, St()) == e.RunCtor(n, args, st, old(St()))
    {
      hide TreeOk, Steps, Env.Closed, ExtractFrom, Written.AddAll, Store.Commit, Env.RunCtor, Produce;
      RunCtorIs(e, n, args, st, St());
      var ctor := tables.ctors[n];
      var receiver := new StagingWriter();
      var vals := Fit(world.ctor(n, args), |ctor.results.indexes|);
      runs := runs + [n];
      var failed := receiver.ExtractList(ctor.results, vals);
      StagedGroups(ExtractFrom(ctor.results, false, vals, 0).writes);
      if failed.Some? {
        return Some(ConstructorFailed(failed.value));
      }
      Commit(receiver, ctor.scope);
      called, commits := called + {n}, commits + [n];
      return None;
    }

    /** decoratorNode.Call */
    method CallDecorator(d: nat, ghost e: Env, ghost level: nat) returns (err: Option<Error>)
      requires Is(e) && d < |e.reg.decos| && e.reg.decos[d].scope in e.scopes && e.reg.decos[d].results.Valid()
      requires St().State(d) != OnStack
      modifies this
      ensures (err, St()) == e.CallDecorator(d, level, old(St()))
      decreases e.Idle(St()), level, 0, 0, 0
    {
      hide TreeOk, Env.BuildList, Env.RunDecorator, Env.MissingList, Env.Below, Env.Closed, Steps;
      ScopeExists(e, e.reg.decos[d].scope);
      if d in states && states[d] == Called {
        return None;
      }
      ghost var st := St();
      states := states[d := OnStack];
      var deco := tables.decos[d];
      var missing := ShallowCheck(deco.params, deco.scope, e);
      if |missing| > 0 {
        return Some(MissingDependencies(MissingTypes(missing)));
      }
      assert d in e.Idle(st) && d !in e.Idle(St()) && e.Idle(St()) <= e.Idle(st);
      e.AllBelowTop(ListLeaves(deco.params), deco.scope);
      var args := BuildList(deco.params, deco.scope, e, e.Top());
      e.StartedSteps(d, st, St());
      if args.Fail? {
        return Some(ArgumentsFailed(args.error));
      }
      err := RunDecorator(d, args.value, e, st);
    }

    /** The rest of decoratorNode.Call */
    method RunDecorator(d: nat, args: seq<Value>, ghost e: Env, ghost st: Store) returns (err: Option<Error>)
      requires Is(e) && d < |e.reg.decos| && e.reg.decos[d].results.Valid()
      requires d !in st.states && Steps(st, St()) && d in states && d !in decoRuns[|st.decoRuns|..]
      modifies this
      ensures (err, St()) == e.RunDecorator(d, args, st, old(St()))
    {
      hide TreeOk, Steps, Env.Closed;
      var deco := tables.decos[d];
      var vals := Fit(world.deco(d, args), |deco.results.indexes|);
      decoRuns := decoRuns + [d];
      var failed := ExtractDecoratedList(deco.results, deco.scope, vals);
      if failed.Some? {
        return Some(DecoratorFailed(failed.value));
      }
      states := states[d := Called];
      return None;
    }

    /** paramGroupedSlice.Build */
    method BuildGroup(elem: Key, slice: Key, soft: bool, c: nat, ghost e: Env, ghost level: nat) returns (r: Try<Value>)
      requires Is(e) && c in e.scopes && e.Below({elem}, c, level)
      modifies this
      ensures (r, St()) == e.BuildGroup(elem, slice, soft, c, level, old(St()))
      decreases e.Idle(St()), level, 0, 1, 2
    {
      hide TreeOk, Env.CallGroupDecorators, Env.CallAll, Env.Below, Env.Idle, Steps;
      ghost var st := St();
      var err := CallGroupDecorators(elem, c, e, level);
      if err.Some? {
        return Fail(err.value);
      }
      var v := GetDecoratedValues(slice, c, e);
      if v.Some? {
        return Ok(v.value);
      }
      if !soft {
        IdleShrinks(e, st, St());
        var failed := CallGroupProviders(elem, c, e, level);
        if failed.Some? {
          return Fail(ParamGroupFailed(elem, ByCtor(failed.value.0), failed.value.1));
        }
      }
      var items := CollectGroup(elem, c, e);
      return Ok(Bag(multiset(items)));
    }

    /** getValueGroup: a shuffled copy */
    method GetValueGroup(s: nat, k: Key) returns (items: seq<Value>)
      ensures multiset(items) == multiset(Listed(groups, Slot(s, k)))
    {
      items := ShuffledCopy(Listed(groups, Slot(s, k)));
    }

    /** The values of a group that all visible scopes hold */
    method CollectGroup(elem: Key, c: nat, ghost e: Env) returns (items: seq<Value>)
      requires Is(e) && c in e.scopes
      ensures multiset(items) == multiset(e.GroupOn(St(), elem, e.reg.PathToRoot(c)))
    {
      var path := tables.PathToRoot(c);
      items := [];
      assert path[0..] == path;
      for i := 0 to |path|
        invariant multiset(e.GroupOn(St(), elem, path)) == multiset(items) + multiset(e.GroupOn(St(), elem, path[i..]))
      {
        assert path[i..][1..] == path[i + 1..];
        var more := GetValueGroup(path[i], elem);
        items := items + more;
      }
    }

    /** callGroupProviders */
    method CallGroupProviders(elem: Key, c: nat, ghost e: Env, ghost level: nat) returns (failed: Option<(nat, Error)>)
      requires Is(e) && c in e.scopes && e.Below({elem}, c, level)
      modifies this
      ensures forall n :: n in e.reg.AllProviders(c, elem) ==> n in e.rank && e.rank[n] < level
      ensures (failed, St()) == e.CallAll(e.reg.AllProviders(c, elem), level, old(St()))
      decreases e.Idle(St()), level, 0, 1, 1
    {
      hide TreeOk, Env.CallAll, Env.Idle, Steps, Env.Closed, Env.Below, Registry.ProvidersOn, Registry.PathToRoot;
      ScopeExists(e, c);
      ghost var st := St();
      var path := tables.PathToRoot(c);
      ghost var rest := e.reg.AllProviders(c, elem);
      AllLower(e, elem, c, level);
      assert path[0..] == path;
      StepsNowhere(st);
      for i := 0 to |path|
        invariant Steps(st, St()) && rest == e.reg.ProvidersOn(path[i..], elem)
        invariant forall n :: n in rest ==> n in e.rank && e.rank[n] < level
        invariant e.CallAll(e.reg.AllProviders(c, elem), level, st) == e.CallAll(rest, level, St())
      {
        NextProviders(e, path, i, elem);
        var ns := Listed(tables.providers, Slot(path[i], elem));
        ghost var st1 := St();
        IdleShrinks(e, st, st1);
        rest := e.reg.ProvidersOn(path[i + 1..], elem);
        CallAllConcat(e, ns, rest, level, st1);
        failed := CallAll(ns, e, level);
        StepsTransitive(st, st1, St());
        if failed.Some? {
          return;
        }
      }
      NoProviders(e, path, elem);
      CallNobody(e, level, St());
      return None;
    }

    /** callGroupDecorators */
    method CallGroupDecorators(elem: Key, c: nat, ghost e: Env, ghost level: nat) returns (err: Option<Error>)
      requires Is(e) && c in e.scopes
      modifies this
      ensures forall s :: s in e.reg.PathToRoot(c) ==> s in e.scopes
      ensures (err, St()) == e.CallGroupDecorators(elem, e.reg.PathToRoot(c), level, old(St()))
      decreases e.Idle(St()), level, 0, 1, 1
    {
      hide TreeOk, Env.CallDecorator, Env.CallGroupDecorators, Env.Idle, Steps;
      ghost var st := St();
      var path := tables.PathToRoot(c);
      StepsNowhere(st);
      assert path[|path|..] == [];
      DecorateNobody(e, elem, level, st);
      for i := |path| downto 0
        invariant Steps(st, St())
        invariant e.CallGroupDecorators(elem, path[i..], level, st) == (None, St())
      {
        GroupDecoratorsStep(e, elem, path, i, level, st);
        if Slot(path[i], elem) in tables.decorators {
          var d := tables.decorators[Slot(path[i], elem)];
          if d in states && states[d] == OnStack {
            continue;
          }
          DecoratorIsPlaced(e, c, Slot(path[i], elem));
          ghost var st1 := St();
          IdleShrinks(e, st, st1);
          var failed := CallDecorator(d, e, level);
          StepsTransitive(st, st1, St());
          if failed.Some? {
            err := Some(ParamGroupFailed(elem, ByDecorator(d), failed.value));
            GroupDecoratorsFail(e, elem, path, i, level, st);
            return;
          }
        }
      }
      assert path[0..] == path;
      return None;
    }

    // -----------------------------------------------------------------------------------------
    // Invoke

    /** Scope.Invoke up to the call of the function */
    method Invoke(c: nat, specs: seq<ParamSpec>) returns (outcome: InvokeOutcome)
      requires TreeOk(tables.Reg()) && NodesNumbered(tables.Reg()) && c < |tables.parents|
      requires Invokable(world, tables.Reg(), c, specs, St())
      modifies this, tables
      ensures (outcome, tables.Reg(), St()) == InvokedAnyhow(world, old(tables.Reg()), c, specs, old(St()))
      ensures old(Good(tables.Reg())) ==> Good(tables.Reg())
    {
      hide TreeOk, NewParams, NodesNumbered, GraphOf, IsDag, InRange, Env.MissingList, Env.BuildList, Env.Closed,
           Viewed, Rankable, Good;
      ghost var reg := tables.Reg();
      ParamsKeepTree(reg, c, specs);
      if Good(reg) { AnyhowKeepsGood(world, reg, c, specs, St()); }
      var ps := tables.NewParamList(c, specs);
      ghost var reg1 := tables.Reg();
      if ps.None? {
        return BadArguments;
      }
      var missing := ShallowCheck(ps.value, c, Lookup(world, reg1));
      if |missing| > 0 {
        return NotBuilt(MissingDependencies(MissingTypes(missing)));
      }
      if !tables.verified[c] {
        var ok := tables.CheckGraph(c);
        if !ok {
          return Cyclic;
        }
        tables.verified := tables.verified[c := true];
      }
      assert tables.Reg() == Verified(reg1, c);
      VerifiedIsRankable(world, reg1, c);
      ghost var e := Viewed(world, tables.Reg(), c);
      e.AllBelowTop(ListLeaves(ps.value), c);
      SameMissing(Lookup(world, reg1), e, St(), ps.value, c);
      var args := BuildList(ps.value, c, e, e.Top());
      return if args.Fail? then NotBuilt(ArgumentsFailed(args.error)) else Built(args.value);
    }
  }

  /** Values built before those of `rest` */
  ghost function Prefixed(args: seq<Value>, rest: Try<seq<Value>>): Try<seq<Value>> {
    if rest.Fail? then rest else Ok(args + rest.value)
  }

  lemma PrefixedByNothing(rest: Try<seq<Value>>)
    ensures Prefixed([], rest) == rest
  {
    if rest.Ok? { assert [] + rest.value == rest.value; }
  }

  lemma PrefixedTwice(args: seq<Value>, v: Value, rest: Try<seq<Value>>)
    ensures Prefixed(args + [v], rest) == Prefixed(args, Prefixed([v], rest))
  {
    if rest.Ok? { assert (args + [v]) + rest.value == args + ([v] + rest.value); }
  }

  lemma {:induction false} SoftHead(fields: seq<ParamField>)
    requires fields != []
    ensures var soft := fields[0].param.IsSoftGroup();
            && Soft(fields, soft) == [fields[0]] + Soft(fields[1..], soft)
            && Soft(fields, !soft) == Soft(fields[1..], !soft)
  {}

  lemma SoftNothing()
    ensures Soft([], false) == Soft([], true) == []
  {}

  lemma {:induction false} BuildObjectIs(e: Env, fields: seq<ParamField>, c: nat, level: nat, st: Store)
    requires e.Closed() && c in e.scopes && e.Below(FieldLeaves(fields), c, level)
    ensures e.Below(FieldLeaves(BuildOrder(fields)), c, level)
    ensures var (vs, st1) := e.BuildFields(BuildOrder(fields), c, level, st);
            e.Build(ObjectParam(fields), c, level, st)
              == (if vs.Fail? then Fail(vs.error) else Ok(Struct(vs.value)), st1)
  {
    hide Env.BuildFields, Env.Closed, Env.Below;
    BuildOrderKeeps(fields);
  }

  lemma {:induction false} BelowPrefix(e: Env, fields: seq<ParamField>, i: nat, c: nat, level: nat)
    requires i <= |fields| && e.Below(FieldLeaves(fields), c, level)
    ensures e.Below(FieldLeaves(fields[..i]), c, level) && FieldSize(fields[..i]) <= FieldSize(fields)
  {
    hide Env.Below, FieldLeaves, FieldSize;
    FieldConcat(fields[..i], fields[i..]);
    assert fields == fields[..i] + fields[i..];
    BelowSubset(e, FieldLeaves(fields[..i]), FieldLeaves(fields), c, level);
  }

  lemma BelowSubset(e: Env, ks: set<Key>, more: set<Key>, c: nat, level: nat)
    requires ks <= more && e.Below(more, c, level)
    ensures e.Below(ks, c, level)
  {
    hide Registry.AllProviders;
  }

  lemma {:induction false} BuildNoFields(e: Env, fields: seq<ParamField>, c: nat, level: nat, st: Store)
    requires e.Closed() && c in e.scopes && e.Below(FieldLeaves(fields), c, level)
    ensures e.Below(FieldLeaves(fields[..0]), c, level) && e.BuildFields(fields[..0], c, level, st) == (Ok(map[]), st)
  {
    BelowPrefix(e, fields, 0, c, level);
  }

  /** One turn of the loop over the fields */
  lemma {:induction false} BuildFieldsStep(e: Env, fields: seq<ParamField>, i: nat, c: nat, level: nat, st: Store)
    requires e.Closed() && c in e.scopes && e.Below(FieldLeaves(fields), c, level) && i < |fields|
    requires e.Below(FieldLeaves(fields[..i]), c, level) && e.BuildFields(fields[..i], c, level, st).0.Ok?
    ensures e.Below(Leaves(fields[i].param), c, level) && e.Below(FieldLeaves(fields[..i + 1]), c, level)
    ensures Size(fields[i].param) < FieldSize(fields)
    ensures var (vs, st1) := e.BuildFields(fields[..i], c, level, st);
            var (v, st2) := e.Build(fields[i].param, c, level, st1);
            && Steps(st1, st2)
            && e.BuildFields(fields[..i + 1], c, level, st)
               == (if v.Fail? then Fail(v.error) else Ok(vs.value[fields[i].index := v.value]), st2)
  {
    hide Env.Build, Env.Closed, Steps;
    BelowPrefix(e, fields, i + 1, c, level);
    var init := fields[..i + 1];
    assert init[..|init| - 1] == fields[..i] && init == fields[..i] + [fields[i]];
    FieldConcat(fields[..i], [fields[i]]);
  }

  lemma {:induction false} BuildFieldsFails(e: Env, fields: seq<ParamField>, i: nat, c: nat, level: nat, st: Store)
    requires e.Closed() && c in e.scopes && e.Below(FieldLeaves(fields), c, level) && i <= |fields|
    requires e.Below(FieldLeaves(fields[..i]), c, level) && e.BuildFields(fields[..i], c, level, st).0.Fail?
    ensures e.BuildFields(fields, c, level, st) == e.BuildFields(fields[..i], c, level, st)
    decreases |fields|
  {
    hide Env.Build, Env.Closed, Steps;
    if i == |fields| {
      assert fields[..i] == fields;
    } else {
      var init := fields[..|fields| - 1];
      BelowPrefix(e, fields, |fields| - 1, c, level);
      assert init[..i] == fields[..i];
      BuildFieldsFails(e, init, i, c, level, st);
      assert fields == init + [fields[|fields| - 1]];
    }
  }

  lemma ScopeExists(e: Env, c: nat)
    requires e.Closed() && c in e.scopes
    ensures c < |e.reg.parents|
  {}

  lemma RunCtorIs(e: Env, n: nat, args: seq<Value>, st: Store, st1: Store)
    requires e.Closed() && n in e.rank && Steps(st, st1)
    ensures n < |e.reg.ctors| && e.reg.ctors[n].results.Valid()
    ensures var ctor := e.reg.ctors[n];
            var x := ExtractFrom(ctor.results, false, Fit(e.world.ctor(n, args), |ctor.results.indexes|), 0);
            var ran := st1.(runs := st1.runs + [n]);
            e.RunCtor(n, args, st, st1)
            == if x.error.Some? then (Some(ConstructorFailed(x.error.value)), ran)
               else (None, ran.Commit(ctor.scope, Nothing.AddAll(x.writes))
                            .(called := ran.called + {n}, commits := ran.commits + [n]))
  {
    hide Steps, ExtractFrom, Written.AddAll, Store.Commit;
  }

  lemma DecoratorIsPlaced(e: Env, c: nat, slot: Slot)
    requires e.Closed() && c in e.scopes && slot.scope in e.reg.PathToRoot(c) && slot in e.reg.decorators
    ensures var d := e.reg.decorators[slot];
            d < |e.reg.decos| && e.reg.decos[d].scope in e.scopes && e.reg.decos[d].results.Valid()
  {}

  lemma AllLower(e: Env, k: Key, c: nat, level: nat)
    requires e.Below({k}, c, level)
    ensures forall n :: n in e.reg.AllProviders(c, k) ==> n in e.rank && e.rank[n] < level
  {}

  lemma {:induction false} NextProviders(e: Env, path: seq<nat>, i: nat, k: Key)
    requires i < |path|
    ensures e.reg.ProvidersOn(path[i..], k) == e.reg.Providers(path[i], k) + e.reg.ProvidersOn(path[i + 1..], k)
  {
    assert path[i..][0] == path[i] && path[i..][1..] == path[i + 1..];
  }

  lemma {:induction false} NoProviders(e: Env, path: seq<nat>, k: Key)
    ensures e.reg.ProvidersOn(path[|path|..], k) == []
  {}

  lemma {:induction false} CallNobody(e: Env, level: nat, st: Store)
    requires e.Closed()
    ensures e.CallAll([], level, st) == (None, st)
  {}

  lemma {:induction false} CallAllConcat(e: Env, a: seq<nat>, b: seq<nat>, level: nat, st: Store)
    requires e.Closed() && forall n :: n in a + b ==> n in e.rank && e.rank[n] < level
    ensures (forall n :: n in a ==> n in e.rank && e.rank[n] < level)
    ensures (forall n :: n in b ==> n in e.rank && e.rank[n] < level)
    ensures var (failed, st1) := e.CallAll(a, level, st);
            e.CallAll(a + b, level, st) == if failed.Some? then (failed, st1) else e.CallAll(b, level, st1)
    decreases |a|
  {
    hide Env.CallCtor, Env.Closed, Steps;
    forall n | n in a ensures n in e.rank && e.rank[n] < level { assert n in a + b; }
    forall n | n in b ensures n in e.rank && e.rank[n] < level { assert n in a + b; }
    if a == [] {
      assert a + b == b;
    } else {
      assert (a + b)[1..] == a[1..] + b;
      CallAllConcat(e, a[1..], b, level, e.CallCtor(a[0], st).1);
    }
  }

  lemma {:induction false} DecorateNobody(e: Env, elem: Key, level: nat, st: Store)
    requires e.Closed()
    ensures e.CallGroupDecorators(elem, [], level, st) == (None, st)
  {}

  /** One turn of callGroupDecorators */
  lemma {:induction false} GroupDecoratorsStep(e: Env, elem: Key, path: seq<nat>, i: nat, level: nat, st: Store)
    requires e.Closed() && (forall s :: s in path ==> s in e.scopes) && i < |path|
    requires e.CallGroupDecorators(elem, path[i + 1..], level, st).0.None?
    ensures var st1 := e.CallGroupDecorators(elem, path[i + 1..], level, st).1;
            var slot := Slot(path[i], elem);
            e.CallGroupDecorators(elem, path[i..], level, st)
            == if slot !in e.reg.decorators || st1.State(e.reg.decorators[slot]) == OnStack then (None, st1)
               else var (err, st2) := e.CallDecorator(e.reg.decorators[slot], level, st1);
                    (if err.Some? then Some(ParamGroupFailed(elem, ByDecorator(e.reg.decorators[slot]), err.value))
                     else None, st2)
  {
    hide Env.CallDecorator, Steps;
    assert path[i..][0] == path[i] && path[i..][1..] == path[i + 1..];
  }

  lemma {:induction false} GroupDecoratorsFail(e: Env, elem: Key, path: seq<nat>, i: nat, level: nat, st: Store)
    requires e.Closed() && (forall s :: s in path ==> s in e.scopes) && i <= |path|
    requires e.CallGroupDecorators(elem, path[i..], level, st).0.Some?
    ensures e.CallGroupDecorators(elem, path, level, st) == e.CallGroupDecorators(elem, path[i..], level, st)
    decreases i
  {
    hide Env.CallDecorator, Steps, Env.Closed;
    if i == 0 {
      assert path[0..] == path;
    } else {
      assert path[1..][i - 1..] == path[i..];
      GroupDecoratorsFail(e, elem, path[1..], i - 1, level, st);
    }
  }

  lemma StepsNowhere(st: Store)
    ensures Steps(st, st)
  {}

  lemma {:induction false} BuildNothing(e: Env, c: nat, level: nat, st: Store)
    requires e.Closed() && c in e.scopes && e.Below(ListLeaves([]), c, level)
    ensures e.BuildList([], c, level, st) == (Ok([]), st)
  {}

  /** One turn of BuildList */
  lemma {:induction false} BuildListStep(e: Env, ps: seq<Param>, c: nat, level: nat, st: Store)
    requires ps != [] && e.Closed() && c in e.scopes && e.Below(ListLeaves(ps), c, level)
    ensures e.Below(Leaves(ps[0]), c, level) && e.Below(ListLeaves(ps[1..]), c, level)
    ensures Size(ps[0]) < ListSize(ps) && ListSize(ps[1..]) < ListSize(ps)
    ensures var (v, st1) := e.Build(ps[0], c, level, st);
            && Steps(st, st1)
            && e.BuildList(ps, c, level, st)
               == if v.Fail? then (Fail(v.error), st1)
                  else (Prefixed([v.value], e.BuildList(ps[1..], c, level, st1).0),
                        e.BuildList(ps[1..], c, level, st1).1)
  {
    hide Env.Build, Env.Closed;
  }

  lemma {:induction false} DecorateNothing(st: Store, s: nat)
    ensures st.DecorateAll(s, []) == st
  {}

  lemma {:induction false} DecorateAllConcat(st: Store, s: nat, a: seq<Write>, b: seq<Write>)
    ensures st.DecorateAll(s, a + b) == st.DecorateAll(s, a).DecorateAll(s, b)
  {
    if b == [] {
      assert a + b == a;
    } else {
      DecorateAllConcat(st, s, a, b[..|b| - 1]);
      assert (a + b)[..|a + b| - 1] == a + b[..|b| - 1];
    }
  }

  lemma CommitChanges(st: Store, s: nat, w: Written, upd: map<Key, seq<Value>>)
    requires upd.Keys == w.groups.Keys && forall k :: k in upd ==> upd[k] == Listed(st.groups, Slot(s, k)) + w.groups[k]
    ensures Changed(st.values, st.Commit(s, w).values, s, w.values)
    ensures Changed(st.groups, st.Commit(s, w).groups, s, upd)
    ensures st.Commit(s, w) == st.(values := st.Commit(s, w).values, groups := st.Commit(s, w).groups)
  {
    forall slot: Slot | slot.scope == s && slot.key in w.values ensures slot == Slot(s, slot.key) {}
    forall slot: Slot | slot.scope == s && slot.key in w.groups ensures slot == Slot(s, slot.key) {}
  }

  /** Staged groups are never empty. */
  lemma {:induction false} StagedGroups(ws: seq<Write>)
    ensures forall k :: k in Nothing.AddAll(ws).groups ==> Nothing.AddAll(ws).groups[k] != []
  {
    if ws != [] { StagedGroups(ws[..|ws| - 1]); }
  }
}
