/** Resolution depends on the scope tree, the providers, the decorators and the user's functions, and on nothing else:
    not on how constructors are ranked, nor on graph nodes, flags and group parameters. */
module Independence {
  import opened Values
  import opened ResultTree
  import opened Extraction
  import opened Registry
  import opened Resolver
  import opened Sessions

  /** The tables that resolution reads */
  ghost predicate Alike(a: Registry, b: Registry) {
    && a.parents == b.parents && a.providers == b.providers && a.decorators == b.decorators
    && a.ctors == b.ctors && a.decos == b.decos
  }

  ghost predicate SameCore(a: Env, b: Env) {
    a.world == b.world && Alike(a.reg, b.reg)
  }

  lemma SamePath(a: Env, b: Env, c: nat)
    requires SameCore(a, b)
    ensures a.reg.PathToRoot(c) == b.reg.PathToRoot(c)
    ensures forall s, k :: a.reg.Providers(s, k) == b.reg.Providers(s, k)
  {}

  lemma {:induction false} SameProvidersOn(a: Env, b: Env, path: seq<nat>, k: Key)
    requires SameCore(a, b)
    ensures a.reg.ProvidersOn(path, k) == b.reg.ProvidersOn(path, k)
  {
    hide SameCore;
    if path != [] {
      SamePath(a, b, 0);
      SameProvidersOn(a, b, path[1..], k);
    }
  }

  lemma SameAllProviders(a: Env, b: Env, c: nat, k: Key)
    requires SameCore(a, b)
    ensures a.reg.AllProviders(c, k) == b.reg.AllProviders(c, k)
  {
    hide SameCore;
    SamePath(a, b, c);
    SameProvidersOn(a, b, a.reg.PathToRoot(c), k);
  }

  lemma {:induction false} SameMissing(a: Env, b: Env, st: Store, ps: seq<Param>, c: nat)
    requires SameCore(a, b)
    ensures a.MissingList(st, ps, c) == b.MissingList(st, ps, c)
  {
    hide SameCore;
    if ps != [] {
      SameMissingParam(a, b, st, ps[0], c);
      SameMissing(a, b, st, ps[1..], c);
    }
  }

  lemma {:induction false} SameMissingParam(a: Env, b: Env, st: Store, p: Param, c: nat)
    requires SameCore(a, b)
    ensures a.Missing(st, p, c) == b.Missing(st, p, c)
    decreases p, 1
  {
    hide SameCore;
    match p
    case SingleParam(k, _) => SameAllProviders(a, b, c, k);
    case GroupParam(_, _, _, _) =>
    case ObjectParam(fields) => SameMissingFields(a, b, st, fields, c);
  }

  lemma {:induction false} SameMissingFields(a: Env, b: Env, st: Store, fields: seq<ParamField>, c: nat)
    requires SameCore(a, b)
    ensures a.MissingFields(st, fields, c) == b.MissingFields(st, fields, c)
    decreases fields, 0
  {
    hide SameCore;
    if fields != [] {
      assert (fields[0] decreases to fields[0].param);
      SameMissingParam(a, b, st, fields[0].param, c);
      SameMissingFields(a, b, st, fields[1..], c);
    }
  }

  lemma {:induction false} SameClosestDecorator(a: Env, b: Env, st: Store, k: Key, path: seq<nat>)
    requires SameCore(a, b)
    ensures a.ClosestDecorator(st, k, path) == b.ClosestDecorator(st, k, path)
  {
    if path != [] { SameClosestDecorator(a, b, st, k, path[1..]); }
  }

  lemma {:induction false} SameLocate(a: Env, b: Env, st: Store, k: Key, path: seq<nat>)
    requires SameCore(a, b)
    ensures a.Locate(st, k, path) == b.Locate(st, k, path)
  {
    if path != [] { SameLocate(a, b, st, k, path[1..]); }
  }

  lemma {:induction false} SameGroupOn(a: Env, b: Env, st: Store, k: Key, path: seq<nat>)
    ensures a.GroupOn(st, k, path) == b.GroupOn(st, k, path)
  {
    if path != [] { SameGroupOn(a, b, st, k, path[1..]); }
  }

  // ---------------------------------------------------------------------------------------------
  // Build and Call

  lemma {:induction false} BuildListSame(a: Env, b: Env, ps: seq<Param>, c: nat, la: nat, lb: nat, st: Store)
    requires SameCore(a, b) && a.Closed() && b.Closed() && c in a.scopes && c in b.scopes
    requires a.Below(ListLeaves(ps), c, la) && b.Below(ListLeaves(ps), c, lb)
    ensures a.BuildList(ps, c, la, st) == b.BuildList(ps, c, lb, st)
    decreases a.Idle(st), la, 0, ListSize(ps), 0
  {
    hide Steps, SameCore, Env.Closed, Env.Idle, Env.Build;
    if ps != [] {
      var st1 := a.Build(ps[0], c, la, st).1;
      BuildSame(a, b, ps[0], c, la, lb, st);
      IdleShrinks(a, st, st1);
      BuildListSame(a, b, ps[1..], c, la, lb, st1);
    }
  }

  lemma {:induction false} BuildSame(a: Env, b: Env, p: Param, c: nat, la: nat, lb: nat, st: Store)
    requires SameCore(a, b) && a.Closed() && b.Closed() && c in a.scopes && c in b.scopes
    requires a.Below(Leaves(p), c, la) && b.Below(Leaves(p), c, lb)
    ensures a.Build(p, c, la, st) == b.Build(p, c, lb, st)
    decreases a.Idle(st), la, 0, Size(p), 3
  {
    hide Steps, SameCore, Env.Closed, Env.Idle, Env.BuildSingle, Env.BuildGroup, Env.BuildFields;
    match p
    case SingleParam(k, optional) => BuildSingleSame(a, b, k, optional, c, la, lb, st);
    case GroupParam(_, elem, slice, soft) => BuildGroupSame(a, b, elem, slice, soft, c, la, lb, st);
    case ObjectParam(fields) =>
      BuildOrderKeeps(fields);
      BuildFieldsSame(a, b, BuildOrder(fields), c, la, lb, st);
  }

  lemma {:induction false} BuildFieldsSame(a: Env, b: Env, fields: seq<ParamField>, c: nat, la: nat, lb: nat, st: Store)
    requires SameCore(a, b) && a.Closed() && b.Closed() && c in a.scopes && c in b.scopes
    requires a.Below(FieldLeaves(fields), c, la) && b.Below(FieldLeaves(fields), c, lb)
    ensures a.BuildFields(fields, c, la, st) == b.BuildFields(fields, c, lb, st)
    decreases a.Idle(st), la, 0, FieldSize(fields), 0
  {
    hide Steps, SameCore, Env.Closed, Env.Idle, Env.Build;
    if fields != [] {
      var init, last := fields[..|fields| - 1], fields[|fields| - 1];
      FieldConcat(init, [last]);
      assert fields == init + [last];
      var st1 := a.BuildFields(init, c, la, st).1;
      BuildFieldsSame(a, b, init, c, la, lb, st);
      IdleShrinks(a, st, st1);
      BuildSame(a, b, last.param, c, la, lb, st1);
    }
  }

  lemma {:induction false} BuildSingleSame(a: Env, b: Env, k: Key, optional: bool, c: nat, la: nat, lb: nat, st: Store)
    requires SameCore(a, b) && a.Closed() && b.Closed() && c in a.scopes && c in b.scopes
    requires a.Below({k}, c, la) && b.Below({k}, c, lb)
    ensures a.BuildSingle(k, optional, c, la, st) == b.BuildSingle(k, optional, c, lb, st)
    decreases a.Idle(st), la, 0, 1, 2
  {
    hide Steps, Env.Below, Env.Idle, Env.CallDecorator, Env.BuildUndecorated, Env.ClosestDecorator;
    SamePath(a, b, c);
    var path := a.reg.PathToRoot(c);
    SameClosestDecorator(a, b, st, k, path);
    var s := a.ClosestDecorator(st, k, path);
    if s.Some? {
      CallDecoratorSame(a, b, a.reg.decorators[Slot(s.value, k)], la, lb, st);
    } else if Env.Closest(st.decorated, k, path).None? {
      BuildUndecoratedSame(a, b, k, optional, c, la, lb, st);
    }
  }

  lemma {:induction false} BuildUndecoratedSame(a: Env, b: Env, k: Key, optional: bool, c: nat, la: nat, lb: nat,
          st: Store)
    requires SameCore(a, b) && a.Closed() && b.Closed() && c in a.scopes && c in b.scopes
    requires a.Below({k}, c, la) && b.Below({k}, c, lb)
    ensures a.BuildUndecorated(k, optional, c, la, st) == b.BuildUndecorated(k, optional, c, lb, st)
    decreases a.Idle(st), la, 0, 1, 1
  {
    hide Steps, SameCore, Env.Below, Env.Closed, Env.Idle, Env.CallAll, Env.Locate;
    SamePath(a, b, c);
    var path := a.reg.PathToRoot(c);
    SameLocate(a, b, st, k, path);
    var s := a.Locate(st, k, path);
    if s.Some? && Slot(s.value, k) !in st.values {
      a.BelowProviders(k, c, s.value, la);
      b.BelowProviders(k, c, s.value, lb);
      CallAllSame(a, b, a.reg.Providers(s.value, k), la, lb, st);
    }
  }

  lemma {:induction false} CallAllSame(a: Env, b: Env, ns: seq<nat>, la: nat, lb: nat, st: Store)
    requires SameCore(a, b) && a.Closed() && b.Closed()
    requires forall n :: n in ns ==> n in a.rank && a.rank[n] < la
    requires forall n :: n in ns ==> n in b.rank && b.rank[n] < lb
    ensures a.CallAll(ns, la, st) == b.CallAll(ns, lb, st)
    decreases a.Idle(st), la, 0, 0, |ns|
  {
    hide Steps, SameCore, Env.Closed, Env.Idle, Env.CallCtor;
    if ns != [] {
      var st1 := a.CallCtor(ns[0], st).1;
      CallCtorSame(a, b, ns[0], st);
      IdleShrinks(a, st, st1);
      CallAllSame(a, b, ns[1..], la, lb, st1);
    }
  }

  lemma {:induction false} CallCtorSame(a: Env, b: Env, n: nat, st: Store)
    requires SameCore(a, b) && a.Closed() && b.Closed() && n in a.rank && n in b.rank
    ensures a.CallCtor(n, st) == b.CallCtor(n, st)
    decreases a.Idle(st), a.rank[n], 1, 0, 0
  {
    hide Steps, Env.Idle, Env.BuildList, Env.MissingList, Produce, Store.Commit;
    var ctor := a.reg.ctors[n];
    SameMissing(a, b, st, ctor.params, ctor.orig);
    if n !in st.called && a.MissingList(st, ctor.params, ctor.orig) == [] {
      BuildListSame(a, b, ctor.params, ctor.orig, a.rank[n], b.rank[n], st);
    }
  }

  lemma {:induction false} CallDecoratorSame(a: Env, b: Env, d: nat, la: nat, lb: nat, st: Store)
    requires SameCore(a, b) && a.Closed() && b.Closed() && d < |a.reg.decos| && a.reg.decos[d].results.Valid()
    requires a.reg.decos[d].scope in a.scopes && a.reg.decos[d].scope in b.scopes && st.State(d) != OnStack
    ensures a.CallDecorator(d, la, st) == b.CallDecorator(d, lb, st)
    decreases a.Idle(st), la, 0, 0, 0
  {
    hide Steps, Env.BuildList, Env.MissingList, ExtractFrom, Env.Below, Env.Closed, Store.DecorateAll;
    if st.State(d) != Called {
      var deco := a.reg.decos[d];
      var st1 := st.(states := st.states[d := OnStack]);
      SameMissing(a, b, st1, deco.params, deco.scope);
      if a.MissingList(st1, deco.params, deco.scope) == [] {
        assert d in a.Idle(st) && d !in a.Idle(st1);
        a.AllBelowTop(ListLeaves(deco.params), deco.scope);
        b.AllBelowTop(ListLeaves(deco.params), deco.scope);
        BuildListSame(a, b, deco.params, deco.scope, a.Top(), b.Top(), st1);
      }
    }
  }

  lemma {:induction false} BuildGroupSame(a: Env, b: Env, elem: Key, slice: Key, soft: bool, c: nat, la: nat, lb: nat,
          st: Store)
    requires SameCore(a, b) && a.Closed() && b.Closed() && c in a.scopes && c in b.scopes
    requires a.Below({elem}, c, la) && b.Below({elem}, c, lb)
    ensures a.BuildGroup(elem, slice, soft, c, la, st) == b.BuildGroup(elem, slice, soft, c, lb, st)
    decreases a.Idle(st), la, 0, 1, 2
  {
    hide Steps, SameCore, Env.Idle, Env.CallAll, Env.CallGroupDecorators, Env.Closest, Env.GroupOn;
    SamePath(a, b, c);
    var path := a.reg.PathToRoot(c);
    var (err, st1) := a.CallGroupDecorators(elem, path, la, st);
    CallGroupDecoratorsSame(a, b, elem, path, la, lb, st);
    IdleShrinks(a, st, st1);
    SameGroupOn(a, b, st1, elem, path);
    if err.None? && a.Closest(st1.decoratedGroups, slice, path).None? && !soft {
      SameAllProviders(a, b, c, elem);
      CallAllSame(a, b, a.reg.AllProviders(c, elem), la, lb, st1);
      SameGroupOn(a, b, a.CallAll(a.reg.AllProviders(c, elem), la, st1).1, elem, path);
    }
  }

  lemma {:induction false} CallGroupDecoratorsSame(a: Env, b: Env, elem: Key, path: seq<nat>, la: nat, lb: nat,
          st: Store)
    requires SameCore(a, b) && a.Closed() && b.Closed()
    requires (forall s :: s in path ==> s in a.scopes) && forall s :: s in path ==> s in b.scopes
    ensures a.CallGroupDecorators(elem, path, la, st) == b.CallGroupDecorators(elem, path, lb, st)
    decreases a.Idle(st), la, 0, 0, |path|
  {
    hide Steps, Env.Idle, Env.CallDecorator;
    if path != [] {
      CallGroupDecoratorsSame(a, b, elem, path[1..], la, lb, st);
      var (err, st1) := a.CallGroupDecorators(elem, path[1..], la, st);
      IdleShrinks(a, st, st1);
      var slot := Slot(path[0], elem);
      if err.None? && slot in a.reg.decorators && st1.State(a.reg.decorators[slot]) != OnStack {
        CallDecoratorSame(a, b, a.reg.decorators[slot], la, lb, st1);
      }
    }
  }

  /** An Invoke does the same in any two views of the same registrations. */
  lemma InvokeSame(a: Env, b: Env, ps: seq<Param>, c: nat, st: Store)
    requires SameCore(a, b) && a.Closed() && b.Closed() && c in a.scopes && c in b.scopes
    ensures Invoke(a, ps, c, st) == Invoke(b, ps, c, st)
  {
    hide SameCore, Steps, Env.BuildList, Env.Below, Env.Closed, Env.MissingList;
    SameMissing(a, b, st, ps, c);
    if a.MissingList(st, ps, c) == [] {
      a.AllBelowTop(ListLeaves(ps), c);
      b.AllBelowTop(ListLeaves(ps), c);
      BuildListSame(a, b, ps, c, a.Top(), b.Top(), st);
    }
  }
}
