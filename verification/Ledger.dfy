/** Where the undecorated values come from: the stores hold exactly what the committed constructors returned,
    whatever is registered between the Invokes. */
module Ledger {
  import opened Values
  import opened ResultTree
  import opened Extraction
  import opened Registry
  import opened Resolver
  import opened Sessions

  /** One commit: what constructor `ctor` returned without an error, and the scope that received it */
  datatype Commitment = Commitment(ctor: nat, scope: nat, written: Written)

  /** The part of the stores that decorators do not touch */
  ghost function Provided(st: Store): Store {
    Empty.(values := st.values, groups := st.groups, called := st.called, commits := st.commits)
  }

  ghost function Record(st: Store, x: Commitment): Store {
    st.Commit(x.scope, x.written).(called := st.called + {x.ctor}, commits := st.commits + [x.ctor])
  }

  ghost function Replay(log: seq<Commitment>, st: Store): Store {
    if log == [] then st else Record(Replay(log[..|log| - 1], st), log[|log| - 1])
  }

  lemma {:induction false} ReplayConcat(a: seq<Commitment>, b: seq<Commitment>, st: Store)
    ensures Replay(a + b, st) == Replay(b, Replay(a, st))
  {
    if b == [] {
      assert a + b == a;
    } else {
      assert (a + b)[..|a + b| - 1] == a + b[..|b| - 1];
      ReplayConcat(a, b[..|b| - 1], st);
    }
  }

  /** The constructor's function, given some arguments, returned `x.written` for the scope it is provided to. */
  ghost predicate Genuine(e: Env, x: Commitment) {
    && x.ctor < |e.reg.ctors|
    && x.scope == e.reg.ctors[x.ctor].scope
    && exists args :: Returns(e, x.ctor, args, x.written)
  }

  ghost predicate Returns(e: Env, n: nat, args: seq<Value>, w: Written)
    requires n < |e.reg.ctors|
  {
    var ctor := e.reg.ctors[n];
    && ctor.results.Valid()
    && Produce(ctor.results, Fit(e.world.ctor(n, args), |ctor.results.indexes|)) == Produced(w)
  }

  ghost predicate AllGenuine(e: Env, log: seq<Commitment>) {
    forall i :: 0 <= i < |log| ==> Genuine(e, log[i])
  }

  ghost predicate Logged(e: Env, st: Store, st': Store, log: seq<Commitment>) {
    AllGenuine(e, log) && Provided(st') == Replay(log, Provided(st))
  }

  /** All that has been provided between the two states comes from commits. */
  ghost predicate Accounted(e: Env, st: Store, st': Store) {
    exists log :: Logged(e, st, st', log)
  }

  lemma AccountedHere(e: Env, st: Store, st': Store)
    requires Provided(st) == Provided(st')
    ensures Accounted(e, st, st')
  {
    assert Logged(e, st, st', []);
  }

  lemma LogsJoin(e: Env, log: seq<Commitment>, more: seq<Commitment>)
    requires AllGenuine(e, log) && AllGenuine(e, more)
    ensures AllGenuine(e, log + more)
  {
    hide Genuine;
  }

  lemma AccountedNext(e: Env, a: Store, b: Store, c: Store)
    requires Accounted(e, a, b) && Accounted(e, b, c)
    ensures Accounted(e, a, c)
  {
    hide AllGenuine, Replay, Provided;
    var log :| Logged(e, a, b, log);
    var more :| Logged(e, b, c, more);
    ReplayConcat(log, more, Provided(a));
    LogsJoin(e, log, more);
    assert Logged(e, a, c, log + more);
  }

  // ---------------------------------------------------------------------------------------------
  // Every step is accounted for

  lemma {:induction false} BuildListAccounted(e: Env, ps: seq<Param>, c: nat, rl: nat, st: Store)
    requires e.Closed() && c in e.scopes && e.Below(ListLeaves(ps), c, rl)
    ensures Accounted(e, st, e.BuildList(ps, c, rl, st).1)
    decreases e.Idle(st), rl, 0, ListSize(ps), 0
  {
    hide Steps, Env.Closed, Accounted, Env.Idle;
    if ps == [] {
      AccountedHere(e, st, st);
    } else {
      var (v, st1) := e.Build(ps[0], c, rl, st);
      BuildAccounted(e, ps[0], c, rl, st);
      if v.Ok? {
        IdleShrinks(e, st, st1);
        BuildListAccounted(e, ps[1..], c, rl, st1);
        AccountedNext(e, st, st1, e.BuildList(ps[1..], c, rl, st1).1);
      }
    }
  }

  lemma {:induction false} BuildAccounted(e: Env, p: Param, c: nat, rl: nat, st: Store)
    requires e.Closed() && c in e.scopes && e.Below(Leaves(p), c, rl)
    ensures Accounted(e, st, e.Build(p, c, rl, st).1)
    decreases e.Idle(st), rl, 0, Size(p), 3
  {
    hide Steps, Env.Closed, Accounted, Env.Idle;
    match p
    case SingleParam(k, optional) => BuildSingleAccounted(e, k, optional, c, rl, st);
    case GroupParam(_, elem, slice, soft) => BuildGroupAccounted(e, elem, slice, soft, c, rl, st);
    case ObjectParam(fields) =>
      BuildOrderKeeps(fields);
      BuildFieldsAccounted(e, BuildOrder(fields), c, rl, st);
  }

  lemma {:induction false} BuildFieldsAccounted(e: Env, fields: seq<ParamField>, c: nat, rl: nat, st: Store)
    requires e.Closed() && c in e.scopes && e.Below(FieldLeaves(fields), c, rl)
    ensures Accounted(e, st, e.BuildFields(fields, c, rl, st).1)
    decreases e.Idle(st), rl, 0, FieldSize(fields), 0
  {
    hide Steps, Env.Closed, Accounted, Env.Idle;
    if fields == [] {
      AccountedHere(e, st, st);
    } else {
      var init, last := fields[..|fields| - 1], fields[|fields| - 1];
      FieldConcat(init, [last]);
      assert fields == init + [last];
      var (vs, st1) := e.BuildFields(init, c, rl, st);
      BuildFieldsAccounted(e, init, c, rl, st);
      if vs.Ok? {
        IdleShrinks(e, st, st1);
        BuildAccounted(e, last.param, c, rl, st1);
        AccountedNext(e, st, st1, e.Build(last.param, c, rl, st1).1);
      }
    }
  }

  lemma {:induction false} BuildSingleAccounted(e: Env, k: Key, optional: bool, c: nat, rl: nat, st: Store)
    requires e.Closed() && c in e.scopes && e.Below({k}, c, rl)
    ensures Accounted(e, st, e.BuildSingle(k, optional, c, rl, st).1)
    decreases e.Idle(st), rl, 0, 1, 2
  {
    hide Steps, Env.Below, Accounted, Env.Idle, Env.CallDecorator, Env.BuildUndecorated;
    var path := e.reg.PathToRoot(c);
    var s := e.ClosestDecorator(st, k, path);
    if s.Some? {
      CallDecoratorAccounted(e, e.reg.decorators[Slot(s.value, k)], rl, st);
    } else if e.Closest(st.decorated, k, path).Some? {
      AccountedHere(e, st, st);
    } else {
      BuildUndecoratedAccounted(e, k, optional, c, rl, st);
    }
  }

  lemma {:induction false} BuildUndecoratedAccounted(e: Env, k: Key, optional: bool, c: nat, rl: nat, st: Store)
    requires e.Closed() && c in e.scopes && e.Below({k}, c, rl)
    ensures Accounted(e, st, e.BuildUndecorated(k, optional, c, rl, st).1)
    decreases e.Idle(st), rl, 0, 1, 1
  {
    hide Steps, Env.Below, Env.Closed, Accounted, Env.Idle, Env.CallAll, Env.Locate;
    AccountedHere(e, st, st);
    var s := e.Locate(st, k, e.reg.PathToRoot(c));
    if s.Some? && Slot(s.value, k) !in st.values {
      e.BelowProviders(k, c, s.value, rl);
      CallAllAccounted(e, e.reg.Providers(s.value, k), rl, st);
    }
  }

  lemma {:induction false} CallAllAccounted(e: Env, ns: seq<nat>, rl: nat, st: Store)
    requires e.Closed() && forall n :: n in ns ==> n in e.rank && e.rank[n] < rl
    ensures Accounted(e, st, e.CallAll(ns, rl, st).1)
    decreases e.Idle(st), rl, 0, 0, |ns|
  {
    hide Steps, Env.Closed, Accounted, Env.Idle, Env.CallCtor;
    if ns == [] {
      AccountedHere(e, st, st);
    } else {
      var (err, st1) := e.CallCtor(ns[0], st);
      CallCtorAccounted(e, ns[0], st);
      if err.None? {
        IdleShrinks(e, st, st1);
        CallAllAccounted(e, ns[1..], rl, st1);
        AccountedNext(e, st, st1, e.CallAll(ns[1..], rl, st1).1);
      }
    }
  }

  lemma {:induction false} CallCtorAccounted(e: Env, n: nat, st: Store)
    requires e.Closed() && n in e.rank
    ensures Accounted(e, st, e.CallCtor(n, st).1)
    decreases e.Idle(st), e.rank[n], 1, 0, 0
  {
    hide Steps, Accounted, Env.Idle, Env.BuildList, Env.MissingList, Env.RunCtor;
    AccountedHere(e, st, st);
    var ctor := e.reg.ctors[n];
    if n !in st.called && e.MissingList(st, ctor.params, ctor.orig) == [] {
      var (args, st1) := e.BuildList(ctor.params, ctor.orig, e.rank[n], st);
      BuildListAccounted(e, ctor.params, ctor.orig, e.rank[n], st);
      if args.Ok? {
        RunCtorAccounted(e, n, args.value, st, st1);
        AccountedNext(e, st, st1, e.RunCtor(n, args.value, st, st1).1);
      }
    }
  }

  /** A run that returns no error is one entry of the log, one that returns an error is none. */
  lemma RunCtorAccounted(e: Env, n: nat, args: seq<Value>, st: Store, st1: Store)
    requires e.Closed() && n in e.rank && Steps(st, st1)
    ensures Accounted(e, st1, e.RunCtor(n, args, st, st1).1)
  {
    hide Steps, Produce, Accounted;
    var ctor := e.reg.ctors[n];
    var st2 := e.RunCtor(n, args, st, st1).1;
    match Produce(ctor.results, Fit(e.world.ctor(n, args), |ctor.results.indexes|))
    case Rejected(_) => AccountedHere(e, st1, st2);
    case Produced(w) => OneCommitment(e, n, args, w, st1, st2);
  }

  lemma OneCommitment(e: Env, n: nat, args: seq<Value>, w: Written, st: Store, st': Store)
    requires n < |e.reg.ctors| && Returns(e, n, args, w)
    requires Provided(st') == Provided(Record(st, Commitment(n, e.reg.ctors[n].scope, w)))
    ensures Accounted(e, st, st')
  {
    var x := Commitment(n, e.reg.ctors[n].scope, w);
    assert Genuine(e, x);
    assert Replay([x], Provided(st)) == Record(Provided(st), x) by {
      assert [x][..0] == [];
    }
    assert Logged(e, st, st', [x]);
  }

  lemma {:induction false} CallDecoratorAccounted(e: Env, d: nat, rl: nat, st: Store)
    requires e.Closed() && d < |e.reg.decos| && e.reg.decos[d].scope in e.scopes && e.reg.decos[d].results.Valid()
    requires st.State(d) != OnStack
    ensures Accounted(e, st, e.CallDecorator(d, rl, st).1)
    decreases e.Idle(st), rl, 0, 0, 0
  {
    hide Steps, Accounted, Env.BuildList, Env.MissingList, Env.RunDecorator, Env.Below, Env.Closed;
    AccountedHere(e, st, st);
    if st.State(d) != Called {
      var deco := e.reg.decos[d];
      var st1 := st.(states := st.states[d := OnStack]);
      AccountedHere(e, st, st1);
      if e.MissingList(st1, deco.params, deco.scope) == [] {
        assert d in e.Idle(st) && d !in e.Idle(st1);
        e.AllBelowTop(ListLeaves(deco.params), deco.scope);
        BuildListAccounted(e, deco.params, deco.scope, e.Top(), st1);
        var (args, st2) := e.BuildList(deco.params, deco.scope, e.Top(), st1);
        AccountedNext(e, st, st1, st2);
        e.StartedSteps(d, st, st2);
        if args.Ok? {
          RunDecoratorAccounted(e, d, args.value, st, st2);
          AccountedNext(e, st, st2, e.RunDecorator(d, args.value, st, st2).1);
        }
      }
    }
  }

  lemma RunDecoratorAccounted(e: Env, d: nat, args: seq<Value>, st: Store, st1: Store)
    requires e.Closed() && d < |e.reg.decos| && e.reg.decos[d].results.Valid()
    requires d !in st.states && Steps(st, st1) && d in st1.states && d !in st1.decoRuns[|st.decoRuns|..]
    ensures Accounted(e, st1, e.RunDecorator(d, args, st, st1).1)
  {
    hide Steps, ExtractFrom, Env.Closed, Accounted;
    AccountedHere(e, st1, e.RunDecorator(d, args, st, st1).1);
  }

  lemma {:induction false} BuildGroupAccounted(e: Env, elem: Key, slice: Key, soft: bool, c: nat, rl: nat, st: Store)
    requires e.Closed() && c in e.scopes && e.Below({elem}, c, rl)
    ensures Accounted(e, st, e.BuildGroup(elem, slice, soft, c, rl, st).1)
    decreases e.Idle(st), rl, 0, 1, 2
  {
    hide Steps, Accounted, Env.Idle, Env.CallAll, Env.CallGroupDecorators;
    var path := e.reg.PathToRoot(c);
    var (err, st1) := e.CallGroupDecorators(elem, path, rl, st);
    CallGroupDecoratorsAccounted(e, elem, path, rl, st);
    IdleShrinks(e, st, st1);
    if err.None? && e.Closest(st1.decoratedGroups, slice, path).None? && !soft {
      CallAllAccounted(e, e.reg.AllProviders(c, elem), rl, st1);
      AccountedNext(e, st, st1, e.CallAll(e.reg.AllProviders(c, elem), rl, st1).1);
    }
  }

  lemma {:induction false} CallGroupDecoratorsAccounted(e: Env, elem: Key, path: seq<nat>, rl: nat, st: Store)
    requires e.Closed() && forall s :: s in path ==> s in e.scopes
    ensures Accounted(e, st, e.CallGroupDecorators(elem, path, rl, st).1)
    decreases e.Idle(st), rl, 0, 0, |path|
  {
    hide Steps, Accounted, Env.Idle, Env.CallDecorator;
    if path == [] {
      AccountedHere(e, st, st);
    } else {
      CallGroupDecoratorsAccounted(e, elem, path[1..], rl, st);
      var (err, st1) := e.CallGroupDecorators(elem, path[1..], rl, st);
      IdleShrinks(e, st, st1);
      var slot := Slot(path[0], elem);
      if err.None? && slot in e.reg.decorators && st1.State(e.reg.decorators[slot]) != OnStack {
        var d := e.reg.decorators[slot];
        CallDecoratorAccounted(e, d, rl, st1);
        AccountedNext(e, st, st1, e.CallDecorator(d, rl, st1).1);
      }
    }
  }

  lemma InvokeAccounted(e: Env, ps: seq<Param>, c: nat, st: Store)
    requires e.Closed() && c in e.scopes
    ensures Accounted(e, st, Invoke(e, ps, c, st).1)
  {
    hide Accounted, Steps, Env.BuildList, Env.Below, Env.Closed, Env.MissingList;
    AccountedHere(e, st, st);
    if e.MissingList(st, ps, c) == [] {
      e.AllBelowTop(ListLeaves(ps), c);
      BuildListAccounted(e, ps, c, e.Top(), st);
    }
  }

  // ---------------------------------------------------------------------------------------------
  // Whole runs

  ghost predicate GenuineInSome(calls: seq<Call>, log: seq<Commitment>) {
    forall i :: 0 <= i < |log| ==> exists j :: 0 <= j < |calls| && Genuine(calls[j].env, log[i])
  }

  /** In every run, with registrations between the Invokes and failures of any kind: replaying what the committed
      constructors returned, each once per commit and to the scope it is provided to, gives exactly the values, the
      groups, the set of called constructors and the order of commits. */
  lemma StoresAreReplayed(calls: seq<Call>) returns (log: seq<Commitment>)
    requires forall i :: 0 <= i < |calls| ==> Callable(calls[i])
    ensures GenuineInSome(calls, log)
    ensures Provided(After(calls, Empty)) == Replay(log, Empty)
  {
    if calls == [] {
      log := [];
    } else {
      var init, call := calls[..|calls| - 1], calls[|calls| - 1];
      var log0 := StoresAreReplayed(init);
      var st := After(init, Empty);
      var more := LogOfInvoke(call, st);
      ReplayConcat(log0, more, Empty);
      log := log0 + more;
      GenuineConcat(calls, log0, more);
    }
  }

  lemma LogOfInvoke(call: Call, st: Store) returns (log: seq<Commitment>)
    requires Callable(call)
    ensures Logged(call.env, st, Invoke(call.env, call.params, call.scope, st).1, log)
  {
    hide Logged, Callable, Invoke;
    assert call.env.Closed() && call.scope in call.env.scopes by { CallableParts(call); }
    InvokeAccounted(call.env, call.params, call.scope, st);
    log :| Logged(call.env, st, Invoke(call.env, call.params, call.scope, st).1, log);
  }

  lemma CallableParts(call: Call)
    requires Callable(call)
    ensures call.env.Closed() && call.scope in call.env.scopes
  {}

  lemma GenuineConcat(calls: seq<Call>, log: seq<Commitment>, more: seq<Commitment>)
    requires calls != [] && GenuineInSome(calls[..|calls| - 1], log) && AllGenuine(calls[|calls| - 1].env, more)
    ensures GenuineInSome(calls, log + more)
  {
    hide Genuine;
    forall i | 0 <= i < |log + more| ensures exists j :: 0 <= j < |calls| && Genuine(calls[j].env, (log + more)[i]) {
      if i < |log| {
        var j :| 0 <= j < |calls| - 1 && Genuine(calls[..|calls| - 1][j].env, log[i]);
        assert Genuine(calls[j].env, (log + more)[i]);
      } else {
        assert Genuine(calls[|calls| - 1].env, (log + more)[i]);
      }
    }
  }

  // ---------------------------------------------------------------------------------------------
  // A called constructor has left its values

  /** Each single key of a called constructor is in the values of the scope it is provided to. */
  ghost predicate Held(ctors: seq<Ctor>, st: Store) {
    forall n, k :: n in st.called && n < |ctors| && k in SingleKeysOf(ListEntries(ctors[n].results.results)) ==>
      Slot(ctors[n].scope, k) in st.values
  }

  lemma RecordHolds(e: Env, ctors: seq<Ctor>, st: Store, x: Commitment)
    requires Held(ctors, st) && e.reg.ctors <= ctors && Genuine(e, x)
    ensures Held(ctors, Record(st, x))
  {
    hide Produce, SingleKeysOf;
    var args :| Returns(e, x.ctor, args, x.written);
    var ctor := e.reg.ctors[x.ctor];
    RegisteredKeysAreWritten(ctor.results, Fit(e.world.ctor(x.ctor, args), |ctor.results.indexes|));
  }

  lemma {:induction false} ReplayHolds(calls: seq<Call>, ctors: seq<Ctor>, log: seq<Commitment>)
    requires GenuineInSome(calls, log)
    requires forall j :: 0 <= j < |calls| ==> calls[j].env.reg.ctors <= ctors
    ensures Held(ctors, Replay(log, Empty))
  {
    hide Genuine, Held, Record;
    if log == [] {
      assert Held(ctors, Empty) by { NothingHeld(ctors); }
    } else {
      var init, x := log[..|log| - 1], log[|log| - 1];
      forall i | 0 <= i < |init| ensures exists j :: 0 <= j < |calls| && Genuine(calls[j].env, init[i]) {
        assert init[i] == log[i];
      }
      ReplayHolds(calls, ctors, init);
      var j :| 0 <= j < |calls| && Genuine(calls[j].env, x);
      RecordHolds(calls[j].env, ctors, Replay(init, Empty), x);
    }
  }

  lemma NothingHeld(ctors: seq<Ctor>)
    ensures Held(ctors, Empty)
  {}

  lemma ProvidedHolds(ctors: seq<Ctor>, st: Store)
    ensures Held(ctors, Provided(st)) <==> Held(ctors, st)
  {}

  /** In every run with constructors added between the Invokes: a constructor that has been called has left a value
      for each of its single keys, so the lookup after a successful call never misses. */
  lemma {:induction false} CalledLeaveValues(calls: seq<Call>, ctors: seq<Ctor>)
    requires forall i :: 0 <= i < |calls| ==> Callable(calls[i])
    requires forall i :: 0 <= i < |calls| ==> calls[i].env.reg.ctors <= ctors
    ensures Held(ctors, After(calls, Empty))
  {
    hide Held, Callable;
    var log := StoresAreReplayed(calls);
    ReplayHolds(calls, ctors, log);
    ProvidedHolds(ctors, After(calls, Empty));
  }

  /** What is held stays held in every step that is accounted for. */
  lemma AccountedHolds(e: Env, ctors: seq<Ctor>, st: Store, st': Store)
    requires Held(ctors, st) && e.reg.ctors <= ctors && Accounted(e, st, st')
    ensures Held(ctors, st')
  {
    hide Held, Genuine;
    var log :| Logged(e, st, st', log);
    ProvidedHolds(ctors, st);
    LoggedHolds(e, ctors, Provided(st), log);
    ProvidedHolds(ctors, st');
  }

  lemma {:induction false} LoggedHolds(e: Env, ctors: seq<Ctor>, st: Store, log: seq<Commitment>)
    requires Held(ctors, st) && e.reg.ctors <= ctors && AllGenuine(e, log)
    ensures Held(ctors, Replay(log, st))
  {
    hide Held, Genuine, Record;
    if log != [] {
      LoggedHolds(e, ctors, st, log[..|log| - 1]);
      RecordHolds(e, ctors, Replay(log[..|log| - 1], st), log[|log| - 1]);
    }
  }

  /** When all constructors of a list have been called without an error, all of them are called. */
  lemma {:induction false} CallAllCalls(e: Env, ns: seq<nat>, rl: nat, st: Store)
    requires e.Closed() && forall n :: n in ns ==> n in e.rank && e.rank[n] < rl
    requires e.CallAll(ns, rl, st).0.None?
    ensures forall n :: n in ns ==> n in e.CallAll(ns, rl, st).1.called
  {
    hide Env.Closed, Env.CallCtor;
    if ns != [] {
      var st1 := e.CallCtor(ns[0], st).1;
      CallCtorCalls(e, ns[0], st);
      CallAllCalls(e, ns[1..], rl, st1);
    }
  }

  lemma {:induction false} CallCtorCalls(e: Env, n: nat, st: Store)
    requires e.Closed() && n in e.rank && e.CallCtor(n, st).0.None?
    ensures n in e.CallCtor(n, st).1.called
  {
    hide Env.BuildList, Env.MissingList, Produce, Steps;
  }

  /** paramSingle.Build after its constructors have been called: the value that it then reads from the scope is
      there, if the scope has a provider that registers the key as a single value. */
  lemma {:induction false} ProvidedValueIsFound(e: Env, k: Key, s: nat, n: nat, rl: nat, st: Store)
    requires e.Closed() && Held(e.reg.ctors, st)
    requires forall p :: p in e.reg.Providers(s, k) ==> p in e.rank && e.rank[p] < rl
    requires n in e.reg.Providers(s, k) && e.reg.ctors[n].scope == s
    requires k in SingleKeysOf(ListEntries(e.reg.ctors[n].results.results))
    requires e.CallAll(e.reg.Providers(s, k), rl, st).0.None?
    ensures Slot(s, k) in e.CallAll(e.reg.Providers(s, k), rl, st).1.values
  {
    hide Env.CallAll, Accounted, SingleKeysOf;
    var ns := e.reg.Providers(s, k);
    CallAllCalls(e, ns, rl, st);
    CallAllAccounted(e, ns, rl, st);
    AccountedHolds(e, e.reg.ctors, st, e.CallAll(ns, rl, st).1);
  }
}
