/** Constructors are committed at most once, whatever else happens: groups may be soft or without a name, decorators
    and constructors may fail, and registrations may be added between the Invokes. */
module Commits {
  import opened Values
  import opened ResultTree
  import opened Extraction
  import opened Registry
  import opened Resolver
  import opened Evaluator
  import opened Refinement
  import opened Sessions
  import opened Digraph

  /** Constructors and decorators can be ranked together, so that no decorator depends back on what consumes the
      value that it decorates. */
  ghost predicate Ranked(e: Env) {
    && e.Closed()
    && Layered(e)
    && forall slot :: slot in e.reg.decorators && slot.scope in e.scopes ==> e.reg.decorators[slot] in e.decoRank
  }

  /** The commits made between the two states: of distinct constructors that had not been called, all called now and
      ranked below `level`. */
  ghost predicate Fresh(e: Env, st: Store, st': Store, level: nat) {
    && st.commits <= st'.commits
    && Distinct(st'.commits[|st.commits|..])
    && (forall n :: n in st'.commits[|st.commits|..] ==> n !in st.called && n in e.rank && e.rank[n] < level)
    && (forall n :: n in st'.called <==> n in st.called || n in st'.commits[|st.commits|..])
  }

  lemma FreshHere(e: Env, st: Store, st': Store, level: nat)
    requires st'.commits == st.commits && st'.called == st.called
    ensures Fresh(e, st, st', level)
  {}

  lemma FreshNext(e: Env, a: Store, b: Store, c: Store, level: nat)
    requires Fresh(e, a, b, level) && Fresh(e, b, c, level)
    ensures Fresh(e, a, c, level)
  {
    var first, more := b.commits[|a.commits|..], c.commits[|b.commits|..];
    assert c.commits[|a.commits|..] == first + more;
    forall i, j | 0 <= i < j < |first + more| ensures (first + more)[i] != (first + more)[j] {
      if i < |first| <= j {
        assert (first + more)[i] in first && (first + more)[j] in more;
      }
    }
  }

  lemma FreshHigher(e: Env, st: Store, st': Store, level: nat, level': nat)
    requires Fresh(e, st, st', level) && level <= level'
    ensures Fresh(e, st, st', level')
  {}

  /** A constructor that is run after its arguments have been built from lower ranked constructors */
  lemma FreshRun(e: Env, st: Store, st1: Store, st2: Store, n: nat)
    requires n in e.rank && n !in st.called && Fresh(e, st, st1, e.rank[n])
    requires st2.commits == st1.commits + [n] && st2.called == st1.called + {n}
    ensures Fresh(e, st, st2, e.rank[n] + 1)
  {
    var new1 := st1.commits[|st.commits|..];
    assert st2.commits[|st.commits|..] == new1 + [n];
    assert n !in new1;
  }

  /** The decorator whose parameters are built is being run. */
  ghost predicate Running(st: Store, self: Option<nat>) {
    self.Some? ==> st.State(self.value) == OnStack
  }

  lemma RunningStays(st: Store, st': Store, self: Option<nat>)
    requires Running(st, self) && Steps(st, st')
    ensures Running(st', self)
  {}

  lemma {:induction false} BuildListCommits(e: Env, ps: seq<Param>, c: nat, self: Option<nat>, rl: nat, level: nat,
          st: Store)
    requires Ranked(e) && c in e.scopes && Running(st, self)
    requires e.Below(ListLeaves(ps), c, rl) && Under(e, ListLeaves(ps), c, self, level)
    ensures Fresh(e, st, e.BuildList(ps, c, rl, st).1, level)
    decreases e.Idle(st), rl, 0, ListSize(ps), 0
  {
    hide Steps, Under, Env.Below, Env.Closed, Fresh, Layered, Env.Idle;
    if ps == [] {
      FreshHere(e, st, st, level);
    } else {
      UnderParts(e, Leaves(ps[0]), ListLeaves(ps[1..]), c, self, rl, level);
      var (v, st1) := e.Build(ps[0], c, rl, st);
      BuildCommits(e, ps[0], c, self, rl, level, st);
      if v.Ok? {
        RunningStays(st, st1, self);
        IdleShrinks(e, st, st1);
        BuildListCommits(e, ps[1..], c, self, rl, level, st1);
        FreshNext(e, st, st1, e.BuildList(ps[1..], c, rl, st1).1, level);
      }
    }
  }

  lemma {:induction false} BuildCommits(e: Env, p: Param, c: nat, self: Option<nat>, rl: nat, level: nat, st: Store)
    requires Ranked(e) && c in e.scopes && Running(st, self)
    requires e.Below(Leaves(p), c, rl) && Under(e, Leaves(p), c, self, level)
    ensures Fresh(e, st, e.Build(p, c, rl, st).1, level)
    decreases e.Idle(st), rl, 0, Size(p), 3
  {
    hide Steps, Under, Env.Below, Env.Closed, Fresh, Layered, Env.Idle;
    match p
    case SingleParam(k, optional) => BuildSingleCommits(e, k, optional, c, self, rl, level, st);
    case GroupParam(_, elem, slice, soft) => BuildGroupCommits(e, elem, slice, soft, c, self, rl, level, st);
    case ObjectParam(fields) =>
      BuildOrderKeeps(fields);
      BuildFieldsCommits(e, BuildOrder(fields), c, self, rl, level, st);
  }

  lemma {:induction false} BuildFieldsCommits(e: Env, fields: seq<ParamField>, c: nat, self: Option<nat>,
          rl: nat, level: nat, st: Store)
    requires Ranked(e) && c in e.scopes && Running(st, self)
    requires e.Below(FieldLeaves(fields), c, rl) && Under(e, FieldLeaves(fields), c, self, level)
    ensures Fresh(e, st, e.BuildFields(fields, c, rl, st).1, level)
    decreases e.Idle(st), rl, 0, FieldSize(fields), 0
  {
    hide Steps, Under, Env.Below, Env.Closed, Fresh, Layered, Env.Idle;
    if fields == [] {
      FreshHere(e, st, st, level);
    } else {
      var init, last := fields[..|fields| - 1], fields[|fields| - 1];
      FieldConcat(init, [last]);
      assert fields == init + [last];
      assert FieldLeaves([last]) == Leaves(last.param);
      UnderParts(e, FieldLeaves(init), Leaves(last.param), c, self, rl, level);
      var (vs, st1) := e.BuildFields(init, c, rl, st);
      BuildFieldsCommits(e, init, c, self, rl, level, st);
      if vs.Ok? {
        RunningStays(st, st1, self);
        IdleShrinks(e, st, st1);
        BuildCommits(e, last.param, c, self, rl, level, st1);
        FreshNext(e, st, st1, e.Build(last.param, c, rl, st1).1, level);
      }
    }
  }

  /** A decorator on the path that is not on the stack is ranked below what consumes its value. */
  lemma AppliedIsLower(e: Env, k: Key, c: nat, s: nat, self: Option<nat>, level: nat, st: Store)
    requires Ranked(e) && c in e.scopes && Running(st, self) && Under(e, {k}, c, self, level)
    requires s in e.reg.PathToRoot(c) && Slot(s, k) in e.reg.decorators
    requires st.State(e.reg.decorators[Slot(s, k)]) != OnStack
    ensures var d := e.reg.decorators[Slot(s, k)];
            && d in e.decoRank && e.decoRank[d] < level
            && d < |e.reg.decos| && e.reg.decos[d].scope in e.scopes && e.reg.decos[d].results.Valid()
  {
    hide Layered;
    assert Applies(e.reg, k, s, self);
  }

  lemma {:induction false} BuildSingleCommits(e: Env, k: Key, optional: bool, c: nat, self: Option<nat>,
          rl: nat, level: nat, st: Store)
    requires Ranked(e) && c in e.scopes && Running(st, self) && e.Below({k}, c, rl) && Under(e, {k}, c, self, level)
    ensures Fresh(e, st, e.BuildSingle(k, optional, c, rl, st).1, level)
    decreases e.Idle(st), rl, 0, 1, 2
  {
    hide Steps, Under, Env.Below, Fresh, Layered, Env.Idle, Env.CallDecorator, Env.BuildUndecorated;
    var path := e.reg.PathToRoot(c);
    var s := e.ClosestDecorator(st, k, path);
    if s.Some? {
      var d := e.reg.decorators[Slot(s.value, k)];
      AppliedIsLower(e, k, c, s.value, self, level, st);
      CallDecoratorCommits(e, d, rl, st);
      FreshHigher(e, st, e.CallDecorator(d, rl, st).1, e.decoRank[d], level);
    } else if e.Closest(st.decorated, k, path).Some? {
      FreshHere(e, st, st, level);
    } else {
      BuildUndecoratedCommits(e, k, optional, c, self, rl, level, st);
    }
  }

  lemma UnderIsBelow(e: Env, k: Key, c: nat, self: Option<nat>, level: nat)
    requires Under(e, {k}, c, self, level)
    ensures e.Below({k}, c, level)
  {}

  lemma {:induction false} BuildUndecoratedCommits(e: Env, k: Key, optional: bool, c: nat, self: Option<nat>,
          rl: nat, level: nat, st: Store)
    requires Ranked(e) && c in e.scopes && Running(st, self) && e.Below({k}, c, rl) && Under(e, {k}, c, self, level)
    ensures Fresh(e, st, e.BuildUndecorated(k, optional, c, rl, st).1, level)
    decreases e.Idle(st), rl, 0, 1, 1
  {
    hide Steps, Under, Env.Below, Env.Closed, Fresh, Layered, Env.Idle, Env.CallAll, Env.Locate;
    FreshHere(e, st, st, level);
    var s := e.Locate(st, k, e.reg.PathToRoot(c));
    if s.Some? && Slot(s.value, k) !in st.values {
      UnderIsBelow(e, k, c, self, level);
      e.BelowProviders(k, c, s.value, rl);
      e.BelowProviders(k, c, s.value, level);
      CallAllCommits(e, e.reg.Providers(s.value, k), rl, level, st);
    }
  }

  lemma {:induction false} CallAllCommits(e: Env, ns: seq<nat>, rl: nat, level: nat, st: Store)
    requires Ranked(e) && CtorsBelow(e, ns, rl) && CtorsBelow(e, ns, level)
    ensures Fresh(e, st, e.CallAll(ns, rl, st).1, level)
    decreases e.Idle(st), rl, 0, 0, |ns|
  {
    hide Steps, Env.Closed, Fresh, Layered, Env.Idle, Env.CallCtor;
    if ns == [] {
      FreshHere(e, st, st, level);
    } else {
      var (err, st1) := e.CallCtor(ns[0], st);
      CallCtorCommits(e, ns[0], st);
      FreshHigher(e, st, st1, e.rank[ns[0]] + 1, level);
      if err.None? {
        IdleShrinks(e, st, st1);
        CallAllCommits(e, ns[1..], rl, level, st1);
        FreshNext(e, st, st1, e.CallAll(ns[1..], rl, st1).1, level);
      }
    }
  }

  /** While the arguments of a constructor are built only lower ranked constructors are committed: it is not called
      meanwhile, and the one test of `called` is enough. */
  lemma {:induction false} CallCtorCommits(e: Env, n: nat, st: Store)
    requires Ranked(e) && n in e.rank
    ensures Fresh(e, st, e.CallCtor(n, st).1, e.rank[n] + 1)
    decreases e.Idle(st), e.rank[n], 1, 0, 0
  {
    hide Steps, Fresh, Env.Idle, Env.BuildList, Env.MissingList, Produce, Store.Commit, Under;
    FreshHere(e, st, st, e.rank[n] + 1);
    var ctor := e.reg.ctors[n];
    if n !in st.called && e.MissingList(st, ctor.params, ctor.orig) == [] {
      var (args, st1) := e.BuildList(ctor.params, ctor.orig, e.rank[n], st);
      assert CtorLayered(e, n);
      BuildListCommits(e, ctor.params, ctor.orig, None, e.rank[n], e.rank[n], st);
      FreshHigher(e, st, st1, e.rank[n], e.rank[n] + 1);
      if args.Ok? { RunCtorCommits(e, n, args.value, st, st1); }
    }
  }

  lemma RunCtorCommits(e: Env, n: nat, args: seq<Value>, st: Store, st1: Store)
    requires e.Closed() && n in e.rank && n !in st.called && Steps(st, st1) && Fresh(e, st, st1, e.rank[n])
    ensures Fresh(e, st, e.RunCtor(n, args, st, st1).1, e.rank[n] + 1)
  {
    hide Steps, Fresh, Produce;
    var st2 := e.RunCtor(n, args, st, st1).1;
    if st2.commits == st1.commits {
      FreshHere(e, st1, st2, e.rank[n]);
      FreshNext(e, st, st1, st2, e.rank[n]);
      FreshHigher(e, st, st2, e.rank[n], e.rank[n] + 1);
    } else {
      FreshRun(e, st, st1, st2, n);
    }
  }

  lemma {:induction false} CallDecoratorCommits(e: Env, d: nat, rl: nat, st: Store)
    requires Ranked(e) && d in e.decoRank
    requires d < |e.reg.decos| && e.reg.decos[d].scope in e.scopes && e.reg.decos[d].results.Valid()
    requires st.State(d) != OnStack
    ensures Fresh(e, st, e.CallDecorator(d, rl, st).1, e.decoRank[d])
    decreases e.Idle(st), rl, 0, 0, 0
  {
    hide Steps, Fresh, Env.BuildList, Env.MissingList, Env.RunDecorator, Under, Env.Below, Env.Closed;
    FreshHere(e, st, st, e.decoRank[d]);
    if st.State(d) != Called {
      var deco := e.reg.decos[d];
      var st1 := st.(states := st.states[d := OnStack]);
      FreshHere(e, st, st1, e.decoRank[d]);
      if e.MissingList(st1, deco.params, deco.scope) == [] {
        assert d in e.Idle(st) && d !in e.Idle(st1);
        e.AllBelowTop(ListLeaves(deco.params), deco.scope);
        assert DecoratorLayered(e, d);
        BuildListCommits(e, deco.params, deco.scope, Some(d), e.Top(), e.decoRank[d], st1);
        var (args, st2) := e.BuildList(deco.params, deco.scope, e.Top(), st1);
        FreshNext(e, st, st1, st2, e.decoRank[d]);
        e.StartedSteps(d, st, st2);
        if args.Ok? {
          RunDecoratorCommits(e, d, args.value, st, st2);
          FreshNext(e, st, st2, e.RunDecorator(d, args.value, st, st2).1, e.decoRank[d]);
        }
      }
    }
  }

  /** A decorator commits nothing itself. */
  lemma RunDecoratorCommits(e: Env, d: nat, args: seq<Value>, st: Store, st1: Store)
    requires e.Closed() && d in e.decoRank && d < |e.reg.decos| && e.reg.decos[d].results.Valid()
    requires d !in st.states && Steps(st, st1) && d in st1.states && d !in st1.decoRuns[|st.decoRuns|..]
    ensures Fresh(e, st1, e.RunDecorator(d, args, st, st1).1, e.decoRank[d])
  {
    hide Steps, ExtractFrom, Env.Closed;
    FreshHere(e, st1, e.RunDecorator(d, args, st, st1).1, e.decoRank[d]);
  }

  lemma {:induction false} BuildGroupCommits(e: Env, elem: Key, slice: Key, soft: bool, c: nat, self: Option<nat>,
          rl: nat, level: nat, st: Store)
    requires Ranked(e) && c in e.scopes && Running(st, self) && e.Below({elem}, c, rl)
    requires Under(e, {elem}, c, self, level)
    ensures Fresh(e, st, e.BuildGroup(elem, slice, soft, c, rl, st).1, level)
    decreases e.Idle(st), rl, 0, 1, 2
  {
    hide Steps, Under, Fresh, Layered, Env.Idle, Env.CallAll, Env.CallGroupDecorators;
    var path := e.reg.PathToRoot(c);
    var (err, st1) := e.CallGroupDecorators(elem, path, rl, st);
    CallGroupDecoratorsCommit(e, elem, c, path, self, rl, level, st);
    IdleShrinks(e, st, st1);
    if err.None? && e.Closest(st1.decoratedGroups, slice, path).None? && !soft {
      UnderIsBelow(e, elem, c, self, level);
      CallAllCommits(e, e.reg.AllProviders(c, elem), rl, level, st1);
      FreshNext(e, st, st1, e.CallAll(e.reg.AllProviders(c, elem), rl, st1).1, level);
    }
  }

  lemma {:induction false} CallGroupDecoratorsCommit(e: Env, elem: Key, c: nat, path: seq<nat>, self: Option<nat>,
          rl: nat, level: nat, st: Store)
    requires Ranked(e) && c in e.scopes && Running(st, self) && Under(e, {elem}, c, self, level)
    requires (forall s :: s in path ==> s in e.scopes) && forall s :: s in path ==> s in e.reg.PathToRoot(c)
    ensures Fresh(e, st, e.CallGroupDecorators(elem, path, rl, st).1, level)
    decreases e.Idle(st), rl, 0, 0, |path|
  {
    hide Steps, Under, Env.Closed, Fresh, Layered, Env.Idle, Env.CallDecorator;
    if path == [] {
      FreshHere(e, st, st, level);
    } else {
      CallGroupDecoratorsCommit(e, elem, c, path[1..], self, rl, level, st);
      var (err, st1) := e.CallGroupDecorators(elem, path[1..], rl, st);
      IdleShrinks(e, st, st1);
      RunningStays(st, st1, self);
      var slot := Slot(path[0], elem);
      if err.None? && slot in e.reg.decorators && st1.State(e.reg.decorators[slot]) != OnStack {
        var d := e.reg.decorators[slot];
        AppliedIsLower(e, elem, c, path[0], self, level, st1);
        CallDecoratorCommits(e, d, rl, st1);
        FreshHigher(e, st1, e.CallDecorator(d, rl, st1).1, e.decoRank[d], level);
        FreshNext(e, st, st1, e.CallDecorator(d, rl, st1).1, level);
      }
    }
  }

  // ---------------------------------------------------------------------------------------------
  // Whole runs

  /** A level above all constructors and decorators */
  lemma AllUnder(e: Env, ks: set<Key>, c: nat)
    requires Ranked(e) && c in e.scopes
    ensures Under(e, ks, c, None, Height(e))
  {
    hide Layered;
    forall k, n | k in ks && n in e.reg.AllProviders(c, k) ensures n in e.rank && e.rank[n] < Height(e) {
      e.AllBelowTop(ks, c);
    }
    forall k, s | k in ks && s in e.reg.PathToRoot(c) && Applies(e.reg, k, s, None)
      ensures e.reg.decorators[Slot(s, k)] in e.decoRank && e.decoRank[e.reg.decorators[Slot(s, k)]] < Height(e)
    {
      assert Slot(s, k).scope in e.scopes;
    }
  }

  lemma InvokeCommits(e: Env, ps: seq<Param>, c: nat, st: Store)
    requires Ranked(e) && c in e.scopes
    ensures Fresh(e, st, Invoke(e, ps, c, st).1, Height(e))
  {
    hide Fresh, Steps, Env.BuildList, Under, Env.Below, Env.Closed, Layered, Env.MissingList;
    FreshHere(e, st, st, Height(e));
    if e.MissingList(st, ps, c) == [] {
      e.AllBelowTop(ListLeaves(ps), c);
      AllUnder(e, ListLeaves(ps), c);
      BuildListCommits(e, ps, c, None, e.Top(), Height(e), st);
    }
  }

  ghost predicate CommittedOnce(st: Store) {
    Distinct(st.commits) && forall n :: n in st.called <==> n in st.commits
  }

  lemma FreshKeepsOnce(e: Env, st: Store, st': Store, level: nat)
    requires CommittedOnce(st) && Fresh(e, st, st', level)
    ensures CommittedOnce(st')
  {
    var new1 := st'.commits[|st.commits|..];
    assert st'.commits == st.commits + new1;
    forall i, j | 0 <= i < j < |st'.commits| ensures st'.commits[i] != st'.commits[j] {
      if i < |st.commits| <= j {
        assert st'.commits[i] in st.commits && st'.commits[j] in new1;
      } else if |st.commits| <= i {
        assert st'.commits[i] == new1[i - |st.commits|] && st'.commits[j] == new1[j - |st.commits|];
      }
    }
  }

  /** In every sequence of Invokes, each with the registrations it meets, failing ones included: every constructor is
      committed at most once, and it is committed exactly if it has been called. */
  lemma {:induction false} ConstructorsCommitOnce(calls: seq<Call>)
    requires forall i :: 0 <= i < |calls| ==> Callable(calls[i]) && Ranked(calls[i].env)
    ensures CommittedOnce(After(calls, Empty))
  {
    hide Fresh, CommittedOnce, Ranked, Invoke;
    if calls == [] {
      assert CommittedOnce(Empty) by { NothingCommitted(); }
    } else {
      var init, call := calls[..|calls| - 1], calls[|calls| - 1];
      ConstructorsCommitOnce(init);
      var st := After(init, Empty);
      InvokeCommits(call.env, call.params, call.scope, st);
      FreshKeepsOnce(call.env, st, Invoke(call.env, call.params, call.scope, st).1, Height(call.env));
    }
  }

  lemma NothingCommitted()
    ensures CommittedOnce(Empty)
  {}
}
