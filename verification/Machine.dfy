/** The container as a machine: registrations and Invokes in any order, with deferral, export, decorators and
    failures of any kind. */
module Machine {
  import opened Values
  import opened Registry
  import opened Registration
  import opened Resolver
  import opened Sessions
  import opened Runs
  import opened Commits
  import opened Ledger
  import opened Independence
  import opened Invocation
  import opened Guarantees
  import opened Digraph

  datatype Action = Register(op: Op) | Resolve(ask: Ask)

  /** Registrations are accepted or undone cleanly, and the check that an Invoke makes is enough for it to end. */
  ghost predicate Playable(world: World, deferred: bool, acts: seq<Action>)
    decreases |acts|, 0
  {
    acts == [] ||
    (Playable(world, deferred, acts[..|acts| - 1]) &&
     var reg := Play(world, deferred, acts[..|acts| - 1]).0;
     match acts[|acts| - 1]
     case Register(op) => !op.InvokeOp? && Clean(reg, op)
     case Resolve(ask) => ask.scope < |reg.parents| && Checked(world, reg, ask.scope, ask.specs))
  }

  /** The tables and the stores after these actions on a new container */
  ghost function Play(world: World, deferred: bool, acts: seq<Action>): (r: (Registry, Store))
    requires Playable(world, deferred, acts)
    ensures Good(r.0)
    decreases |acts|, 1
  {
    if acts == [] then
      NewContainerIsGood(deferred);
      (NewContainer(deferred), Empty)
    else
      var (reg, st) := Play(world, deferred, acts[..|acts| - 1]);
      match acts[|acts| - 1]
      case Register(op) =>
        StepKeepsGood(reg, op);
        (Step(reg, op), st)
      case Resolve(ask) =>
        InvokedKeepsGood(world, reg, ask.scope, ask.specs, st);
        var (_, reg', st') := InvokedFrom(world, reg, ask.scope, ask.specs, st);
        (reg', st')
  }

  /** Constructors and decorators that can be reached from `c` can be ranked together. */
  ghost predicate RankedFrom(world: World, reg: Registry, c: nat) {
    exists e: Env :: e.world == world && Alike(e.reg, reg) && c in e.scopes && Ranked(e)
  }

  /** Every Invoke that is not refused for a cycle meets registrations that can be ranked. */
  ghost predicate AlwaysRanked(world: World, deferred: bool, acts: seq<Action>)
    requires Playable(world, deferred, acts)
    decreases |acts|
  {
    acts == [] ||
    (AlwaysRanked(world, deferred, acts[..|acts| - 1]) &&
     var reg := Play(world, deferred, acts[..|acts| - 1]).0;
     match acts[|acts| - 1]
     case Register(_) => true
     case Resolve(ask) => Refuses(reg, ask.scope, ask.specs) || RankedFrom(world, reg, ask.scope))
  }

  // ---------------------------------------------------------------------------------------------
  // To the stores every run is a sequence of calls

  lemma {:induction false} NoCall(st: Store)
    ensures After([], st) == st
  {}

  lemma {:induction false} OneCall(call: Call, st: Store)
    requires Callable(call)
    ensures After([call], st) == Invoke(call.env, call.params, call.scope, st).1
  {
    assert [call][..0] == [];
  }

  /** An Invoke that is refused for a cycle leaves the stores as they are. */
  lemma RefusedChangesNothing(world: World, reg: Registry, c: nat, specs: seq<ParamSpec>, st: Store)
    requires Good(reg) && c < |reg.parents| && Checked(world, reg, c, specs) && Refuses(reg, c, specs)
    ensures InvokedFrom(world, reg, c, specs, st).2 == st
  {
    hide Good, NewParams, Env.MissingList, Viewed, Invoke, Rankable;
    InvokeIsSafe(reg, c, specs);
  }

  /** The calls are made in views of the registrations `reg`. */
  ghost predicate CallsOn(world: World, reg: Registry, calls: seq<Call>) {
    forall i :: 0 <= i < |calls| ==>
      Callable(calls[i]) && calls[i].env.world == world && calls[i].env.reg.ctors <= reg.ctors
  }

  ghost predicate CallsRanked(calls: seq<Call>) {
    forall i :: 0 <= i < |calls| ==> Ranked(calls[i].env)
  }

  /** Any other Invoke is one call, or none, in any view of the registrations. */
  lemma ResolveInView(e: Env, reg: Registry, c: nat, specs: seq<ParamSpec>, st: Store) returns (calls: seq<Call>)
    requires Good(reg) && c < |reg.parents| && Checked(e.world, reg, c, specs)
    requires Alike(e.reg, reg) && e.Closed() && c in e.scopes
    ensures CallsOn(e.world, reg, calls) && forall i :: 0 <= i < |calls| ==> calls[i].env == e
    ensures InvokedFrom(e.world, reg, c, specs, st).2 == After(calls, st)
  {
    hide Good, NewParams, Env.MissingList, Env.Closed, Checked, InvokedFrom, Invoke, Refuses, After;
    InvokedFromIsInvoke(e, reg, c, specs, st);
    GoodTree(reg);
    var ps := NewParams(reg, c, specs).0;
    if ps.None? || (e.MissingList(st, ps.value, c) == [] && Refuses(reg, c, specs)) {
      calls := [];
      NoCall(st);
    } else {
      calls := [Call(e, ps.value, c)];
      OneCall(calls[0], st);
    }
  }

  lemma ResolveIsCalls(world: World, reg: Registry, c: nat, specs: seq<ParamSpec>, st: Store) returns (calls: seq<Call>)
    requires Good(reg) && c < |reg.parents| && Checked(world, reg, c, specs)
    ensures CallsOn(world, reg, calls) && InvokedFrom(world, reg, c, specs, st).2 == After(calls, st)
    ensures Refuses(reg, c, specs) || RankedFrom(world, reg, c) ==> CallsRanked(calls)
  {
    hide Good, NewParams, Env.Closed, InvokedFrom, Invoke, Refuses, After, Ranked;
    InvokeIsSafe(reg, c, specs);
    if Refuses(reg, c, specs) {
      RefusedChangesNothing(world, reg, c, specs, st);
      calls := [];
      NoCall(st);
    } else if RankedFrom(world, reg, c) {
      var e: Env :| e.world == world && Alike(e.reg, reg) && c in e.scopes && Ranked(e);
      RankedIsTabled(e);
      calls := ResolveInView(e, reg, c, specs, st);
    } else {
      calls := ResolveInView(Viewed(world, NewParams(reg, c, specs).1, c), reg, c, specs, st);
    }
  }

  lemma {:induction false} AfterConcat(calls: seq<Call>, more: seq<Call>, st: Store)
    requires forall i :: 0 <= i < |calls| ==> Callable(calls[i])
    requires forall i :: 0 <= i < |more| ==> Callable(more[i])
    ensures After(calls + more, st) == After(more, After(calls, st))
  {
    hide Callable, Invoke;
    if more == [] {
      assert calls + more == calls;
    } else {
      assert (calls + more)[..|calls + more| - 1] == calls + more[..|more| - 1];
      AfterConcat(calls, more[..|more| - 1], st);
    }
  }

  lemma CallsJoin(world: World, reg: Registry, reg': Registry, calls: seq<Call>, more: seq<Call>)
    requires CallsOn(world, reg, calls) && CallsOn(world, reg, more) && reg.ctors <= reg'.ctors
    ensures CallsOn(world, reg', calls + more)
    ensures CallsRanked(calls) && CallsRanked(more) ==> CallsRanked(calls + more)
  {
    hide Callable, Ranked;
    forall i | 0 <= i < |calls + more|
      ensures Callable((calls + more)[i]) && (calls + more)[i].env.world == world
      ensures (calls + more)[i].env.reg.ctors <= reg'.ctors
    {
      assert (calls + more)[i] == if i < |calls| then calls[i] else more[i - |calls|];
    }
  }

  lemma InvokedKeepsCtors(world: World, reg: Registry, c: nat, specs: seq<ParamSpec>, st: Store)
    requires Good(reg) && c < |reg.parents| && Checked(world, reg, c, specs)
    ensures reg.ctors <= InvokedFrom(world, reg, c, specs, st).1.ctors
  {
    hide Good, Checked, InvokedFrom;
    var missing := InvokedFromIsStep(world, reg, c, specs, st);
    StepExtends(reg, InvokeOp(c, specs, missing));
  }

  lemma {:induction false} PlayIsCalls(world: World, deferred: bool, acts: seq<Action>) returns (calls: seq<Call>)
    requires Playable(world, deferred, acts)
    ensures CallsOn(world, Play(world, deferred, acts).0, calls)
    ensures After(calls, Empty) == Play(world, deferred, acts).1
    ensures AlwaysRanked(world, deferred, acts) ==> CallsRanked(calls)
    decreases |acts|
  {
    hide Good, Step, Clean, Checked, InvokedFrom, Refuses, RankedFrom, CallsOn, CallsRanked, After;
    if acts == [] {
      calls := [];
      NoCalls(world, NewContainer(deferred));
      NoCall(Empty);
    } else {
      var before := acts[..|acts| - 1];
      var (reg, st) := Play(world, deferred, before);
      var calls0 := PlayIsCalls(world, deferred, before);
      match acts[|acts| - 1]
      case Register(op) =>
        StepExtends(reg, op);
        NoCalls(world, reg);
        CallsJoin(world, reg, Step(reg, op), calls0, []);
        calls := calls0;
        assert calls0 + [] == calls0;
      case Resolve(ask) =>
        var more := ResolveIsCalls(world, reg, ask.scope, ask.specs, st);
        InvokedKeepsCtors(world, reg, ask.scope, ask.specs, st);
        CallsJoin(world, reg, InvokedFrom(world, reg, ask.scope, ask.specs, st).1, calls0, more);
        CallsAreCallable(world, reg, calls0);
        CallsAreCallable(world, reg, more);
        AfterConcat(calls0, more, Empty);
        calls := calls0 + more;
    }
  }

  lemma NoCalls(world: World, reg: Registry)
    ensures CallsOn(world, reg, []) && CallsRanked([])
  {}

  lemma CallsAreCallable(world: World, reg: Registry, calls: seq<Call>)
    requires CallsOn(world, reg, calls)
    ensures forall i :: 0 <= i < |calls| ==> Callable(calls[i])
  {
    hide Callable;
  }

  // ---------------------------------------------------------------------------------------------
  // What holds in every run

  /** No constructor is committed twice, and it is committed exactly if it is called. */
  lemma {:induction false} EveryRunCommitsOnce(world: World, deferred: bool, acts: seq<Action>)
    requires Playable(world, deferred, acts) && AlwaysRanked(world, deferred, acts)
    ensures CommittedOnce(Play(world, deferred, acts).1)
  {
    hide CommittedOnce, Playable, AlwaysRanked, Play, Callable, Ranked, After;
    var calls := PlayIsCalls(world, deferred, acts);
    ConstructorsCommitOnce(calls);
  }

  /** No decorator's function runs twice, and none runs without having been started. */
  lemma {:induction false} EveryRunDecoratesOnce(world: World, deferred: bool, acts: seq<Action>)
    requires Playable(world, deferred, acts)
    ensures var st := Play(world, deferred, acts).1;
            Distinct(st.decoRuns) && forall d :: d in st.decoRuns ==> st.State(d) != Ready
  {
    hide Playable, Play, Callable, After;
    var calls := PlayIsCalls(world, deferred, acts);
    DecoratorsRunOnce(calls);
  }

  lemma GenuineGrows(e: Env, e': Env, x: Commitment)
    requires Genuine(e, x) && e.world == e'.world && e.reg.ctors <= e'.reg.ctors
    ensures Genuine(e', x)
  {
    var args :| Returns(e, x.ctor, args, x.written);
    assert Returns(e', x.ctor, args, x.written);
  }

  lemma SomeCall(calls: seq<Call>, log: seq<Commitment>, i: nat) returns (j: nat)
    requires GenuineInSome(calls, log) && i < |log|
    ensures j < |calls| && Genuine(calls[j].env, log[i])
  {
    hide Genuine;
    var x := log[i];
    assert exists w :: 0 <= w < |calls| && Genuine(calls[w].env, x);
    var w :| 0 <= w < |calls| && Genuine(calls[w].env, x);
    j := w;
  }

  /** Replaying what the committed constructors returned, each to the scope it is provided to, gives exactly the
      values, the groups, the called constructors and the order of commits; and a called constructor has left a value
      for each of its single keys. */
  lemma EveryRunIsReplayed(world: World, deferred: bool, acts: seq<Action>) returns (log: seq<Commitment>)
    requires Playable(world, deferred, acts)
    ensures var (reg, st) := Play(world, deferred, acts);
            && AllGenuine(Lookup(world, reg), log) && Ledger.Provided(st) == Replay(log, Empty) && Held(reg.ctors, st)
  {
    hide Playable, Play, Callable, After, Genuine, GenuineInSome, Held, Replay;
    var reg := Play(world, deferred, acts).0;
    var calls := PlayIsCalls(world, deferred, acts);
    log := StoresAreReplayed(calls);
    CalledLeaveValues(calls, reg.ctors);
    forall i | 0 <= i < |log| ensures Genuine(Lookup(world, reg), log[i]) {
      var j := SomeCall(calls, log, i);
      GenuineGrows(calls[j].env, Lookup(world, reg), log[i]);
    }
  }
}
