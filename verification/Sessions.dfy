/** Whole runs: any number of Invokes, from any scopes, one after the other. */
module Sessions {
  import opened Values
  import opened Extraction
  import opened Registry
  import opened Resolver
  import opened Evaluator
  import opened Refinement
  import opened Digraph

  /** Scope.Invoke up to the call of the function: its arguments, or the error it returns */
  function Invoke(e: Env, ps: seq<Param>, c: nat, st: Store): (r: (Try<seq<Value>>, Store))
    requires e.Closed() && c in e.scopes
    ensures Steps(st, r.1)
  {
    var missing := e.MissingList(st, ps, c);
    if missing != [] then (Fail(MissingDependencies(MissingTypes(missing))), st) else
      e.AllBelowTop(ListLeaves(ps), c);
      var (args, st1) := e.BuildList(ps, c, e.Top(), st);
      (if args.Fail? then Fail(ArgumentsFailed(args.error)) else args, st1)
  }

  /** What an Invoke means */
  function EvalInvoke(reg: Registry, m: Meaning, ps: seq<Param>, c: nat): Try<seq<Value>> {
    var missing := UnprovidedList(reg, ps, c);
    if missing != [] then Fail(MissingDependencies(MissingTypes(missing))) else
      var args := EvalList(reg, m, ps, c, None);
      if args.Fail? then Fail(ArgumentsFailed(args.error)) else args
  }

  // ---------------------------------------------------------------------------------------------
  // Decorators run at most once, whatever is registered between the Invokes

  /** An Invoke, with the registrations it meets */
  datatype Call = Call(env: Env, params: seq<Param>, scope: nat)

  ghost predicate Callable(call: Call) {
    call.env.Closed() && call.scope in call.env.scopes
  }

  ghost function After(calls: seq<Call>, st: Store): (st': Store)
    requires forall i :: 0 <= i < |calls| ==> Callable(calls[i])
    ensures Steps(st, st')
  {
    if calls == [] then st else
      var call := calls[|calls| - 1];
      assert Callable(call);
      var st1 := After(calls[..|calls| - 1], st);
      StepsTransitive(st, st1, Invoke(call.env, call.params, call.scope, st1).1);
      Invoke(call.env, call.params, call.scope, st1).1
  }

  /** In every run, failing ones included, no decorator's function runs twice, and none runs without having
      been started. */
  lemma {:induction false} DecoratorsRunOnce(calls: seq<Call>)
    requires forall i :: 0 <= i < |calls| ==> Callable(calls[i])
    ensures Distinct(After(calls, Empty).decoRuns)
    ensures forall d :: d in After(calls, Empty).decoRuns ==> After(calls, Empty).State(d) != Ready
  {
    var st := After(calls, Empty);
    assert Steps(Empty, st);
    forall i, j | 0 <= i < j < |st.decoRuns| ensures st.decoRuns[i] != st.decoRuns[j] {
      assert |Empty.decoRuns| <= i < j < |st.decoRuns|;
    }
  }

  /** A decorator that a run has found called is never run again and stays called; one that has failed stays
      on the stack. */
  lemma {:induction false} StartedDecoratorsStay(calls: seq<Call>, st: Store, d: nat)
    requires (forall i :: 0 <= i < |calls| ==> Callable(calls[i])) && d in st.states
    ensures After(calls, st).State(d) == st.State(d)
    ensures d !in After(calls, st).decoRuns[|st.decoRuns|..]
  {
    var st' := After(calls, st);
    forall i | |st.decoRuns| <= i < |st'.decoRuns| ensures st'.decoRuns[i] != d {
      assert st'.decoRuns[i] !in st.states;
    }
  }

  // ---------------------------------------------------------------------------------------------
  // With the registrations fixed, every Invoke gives what it means

  ghost predicate Settled(e: Env, m: Meaning, st: Store) {
    && Exact(e, m, st)
    && forall d :: d in st.states ==> st.states[d] == Called
  }

  lemma AllUnderHeight(e: Env, m: Meaning, ks: set<Key>, c: nat)
    requires e.Closed() && DecoratorsTidy(e, m) && c in e.scopes
    ensures Under(e, ks, c, None, Height(e))
  {
    forall k, n | k in ks && n in e.reg.AllProviders(c, k) ensures n in e.rank && e.rank[n] < Height(e) {
      e.AllBelowTop(ks, c);
    }
    forall k, s | k in ks && s in e.reg.PathToRoot(c) && Applies(e.reg, k, s, None)
      ensures e.reg.decorators[Slot(s, k)] in e.decoRank && e.decoRank[e.reg.decorators[Slot(s, k)]] < Height(e)
    {
      assert Slot(s, k).scope in e.scopes;
    }
  }

  /** One Invoke in a settled state returns what it means and leaves a settled state. */
  lemma InvokeAgrees(e: Env, m: Meaning, ps: seq<Param>, c: nat, st: Store)
    requires e.Closed() && Sound(e, m) && c in e.scopes && PlainList(ps) && Settled(e, m, st)
    ensures Invoke(e, ps, c, st).0 == EvalInvoke(e.reg, m, ps, c)
    ensures Settled(e, m, Invoke(e, ps, c, st).1)
  {
    hide Exact, IsMeaning, Layered, ParamsPlain, DecoratorsTidy, SlicesWellFormed, WritesItsKeys, ProvidersUnique;
    SoundMissing(e, m, st, ps, c);
    if UnprovidedList(e.reg, ps, c) == [] {
      e.AllBelowTop(ListLeaves(ps), c);
      AllUnderHeight(e, m, ListLeaves(ps), c);
      BuildListAgrees(e, m, ps, c, None, e.Top(), Height(e), st);
      var st1 := e.BuildList(ps, c, e.Top(), st).1;
      forall d | d in st1.states ensures st1.states[d] == Called {
        assert d in st.states ==> st1.states[d] == st.states[d];
      }
    }
  }

  /** A request for arguments from some scope */
  datatype Request = Request(params: seq<Param>, scope: nat)

  ghost predicate Askable(e: Env, rs: seq<Request>) {
    forall i :: 0 <= i < |rs| ==> rs[i].scope in e.scopes && PlainList(rs[i].params)
  }

  /** The outcomes of the requests `rs` made one after the other from state `st`, and the final state */
  ghost function Session(e: Env, rs: seq<Request>, st: Store): (r: (seq<Try<seq<Value>>>, Store))
    requires e.Closed() && Askable(e, rs)
    ensures |r.0| == |rs|
  {
    if rs == [] then ([], st) else
      var last := rs[|rs| - 1];
      var (before, st1) := Session(e, rs[..|rs| - 1], st);
      var (args, st2) := Invoke(e, last.params, last.scope, st1);
      (before + [args], st2)
  }

  /** Every Invoke returns what it means, whatever was invoked before it, from whichever scope, and whether
      or not that failed; the stores stay exact, and no constructor is committed twice. */
  lemma {:induction false} SessionAgrees(e: Env, m: Meaning, rs: seq<Request>, st: Store)
    requires e.Closed() && Sound(e, m) && Askable(e, rs) && Settled(e, m, st)
    ensures forall i :: 0 <= i < |rs| ==> Session(e, rs, st).0[i] == EvalInvoke(e.reg, m, rs[i].params, rs[i].scope)
    ensures Settled(e, m, Session(e, rs, st).1)
    ensures Distinct(Session(e, rs, st).1.commits)
  {
    hide Sound, Settled, Env.Closed, EvalInvoke, Invoke;
    if rs == [] {
    } else {
      var init, last := rs[..|rs| - 1], rs[|rs| - 1];
      SessionAgrees(e, m, init, st);
      InvokeAgrees(e, m, last.params, last.scope, Session(e, init, st).1);
      forall i | 0 <= i < |rs| ensures Session(e, rs, st).0[i] == EvalInvoke(e.reg, m, rs[i].params, rs[i].scope) {
        if i < |init| { assert rs[i] == init[i]; }
      }
    }
    SettledCommits(e, m, Session(e, rs, st).1);
  }

  lemma SettledCommits(e: Env, m: Meaning, st: Store)
    requires Settled(e, m, st)
    ensures Distinct(st.commits)
  {}
}
