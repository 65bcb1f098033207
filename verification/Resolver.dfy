/** Resolution: Build of the parameters (param.go), Call of constructors (constructor.go) and of
    decorators (decorate.go), as functions of the state of the container's stores. */
module Resolver {
  import opened Values
  import opened ResultTree
  import opened Extraction
  import opened Registry

  /** The user's functions: they map arguments to returned values and do not re-enter the container. */
  datatype World = World(ctor: (nat, seq<Value>) -> seq<Value>, deco: (nat, seq<Value>) -> seq<Value>)

  /** As many values as the function's type says it returns. */
  function Fit(vals: seq<Value>, n: nat): (r: seq<Value>)
    ensures |r| == n && forall i :: 0 <= i < n && i < |vals| ==> r[i] == vals[i]
  {
    seq(n, i requires 0 <= i < n => if i < |vals| then vals[i] else NoValue)
  }

  datatype DecoratorState = Ready | OnStack | Called

  type Started = s: DecoratorState | s != Ready witness OnStack

  /** The values of all scopes, `called` and `state` of the nodes, and the order in which user functions ran:
      `runs` and `decoRuns` list every run, `commits` the runs of constructors that returned no error. */
  datatype Store = Store(
    values: map<Slot, Value>,
    groups: map<Slot, seq<Value>>,
    decorated: map<Slot, Value>,
    decoratedGroups: map<Slot, Value>,
    called: set<nat>,
    states: map<nat, Started>,
    runs: seq<nat>,
    commits: seq<nat>,
    decoRuns: seq<nat>)
  {
    function State(d: nat): DecoratorState {
      if d in states then states[d] else Ready
    }

    /** The stagingContainerWriter's Commit to scope `s` */
    function Commit(s: nat, w: Written): Store {
      this.(values := values + map k | k in w.values :: Slot(s, k) := w.values[k],
            groups := groups + map k | k in w.groups :: Slot(s, k) := Listed(groups, Slot(s, k)) + w.groups[k])
    }

    /** setDecoratedValue and submitDecoratedGroupedValue to scope `s` */
    function Decorate(s: nat, w: Write): Store {
      match w
      case Set(k, v) => this.(decorated := decorated[Slot(s, k) := v])
      case Submit(k, v) => this.(decoratedGroups := decoratedGroups[Slot(s, k) := v])
    }

    function DecorateAll(s: nat, ws: seq<Write>): (r: Store)
      ensures r == this.(decorated := r.decorated, decoratedGroups := r.decoratedGroups)
    {
      if ws == [] then this else DecorateAll(s, ws[..|ws| - 1]).Decorate(s, ws[|ws| - 1])
    }
  }

  const Empty := Store(map[], map[], map[], map[], {}, map[], [], [], [])

  /** What happens between two states of the stores: nothing is undone, a decorator that has been started
      stays in its state, and a decorator runs only if it had not been started, at most once. */
  ghost predicate Steps(st: Store, st': Store) {
    && st.called <= st'.called
    && st.values.Keys <= st'.values.Keys
    && st.runs <= st'.runs
    && st.commits <= st'.commits
    && st.decoRuns <= st'.decoRuns
    && (forall d :: d in st.states ==> d in st'.states && st'.states[d] == st.states[d])
    && (forall i :: |st.decoRuns| <= i < |st'.decoRuns| ==>
          st'.decoRuns[i] !in st.states && st'.decoRuns[i] in st'.states)
    && (forall i, j :: |st.decoRuns| <= i < j < |st'.decoRuns| ==> st'.decoRuns[i] != st'.decoRuns[j])
  }

  lemma StepsTransitive(a: Store, b: Store, c: Store)
    requires Steps(a, b) && Steps(b, c)
    ensures Steps(a, c)
  {
    forall i, j | |a.decoRuns| <= i < j < |c.decoRuns| ensures c.decoRuns[i] != c.decoRuns[j] {
      assert i < |b.decoRuns| ==> c.decoRuns[i] == b.decoRuns[i];
    }
    forall i | |a.decoRuns| <= i < |c.decoRuns|
      ensures c.decoRuns[i] !in a.states && c.decoRuns[i] in c.states
    {
      assert i < |b.decoRuns| ==> c.decoRuns[i] == b.decoRuns[i];
    }
  }

  /** A container with fixed registrations, seen from some of its scopes. `rank` numbers the constructors
      that can be reached from these scopes; `decoRank` numbers decorators and matters only for decoration. */
  datatype Env = Env(world: World, reg: Registry, scopes: set<nat>, rank: map<nat, nat>, decoRank: map<nat, nat>) {

    /** Every constructor that may be called for `ks` from scope `c` is ranked below `level`. */
    ghost predicate Below(ks: set<Key>, c: nat, level: nat) {
      forall k, n :: k in ks && n in reg.AllProviders(c, k) ==> n in rank && rank[n] < level
    }

    ghost predicate ScopesClosed() {
      forall s :: s in scopes ==> s < |reg.parents| && forall a :: a in reg.PathToRoot(s) ==> a in scopes
    }

    ghost predicate ProvidersRanked() {
      forall s, k, n :: s in scopes && n in reg.Providers(s, k) ==> n in rank
    }

    ghost predicate CtorsRanked() {
      forall n :: n in rank ==>
        && n < |reg.ctors|
        && reg.ctors[n].orig in scopes
        && reg.ctors[n].results.Valid()
        && Below(ListLeaves(reg.ctors[n].params), reg.ctors[n].orig, rank[n])
    }

    ghost predicate DecoratorsPlaced() {
      forall slot :: slot in reg.decorators && slot.scope in scopes ==>
        && reg.decorators[slot] < |reg.decos|
        && reg.decos[reg.decorators[slot]].scope == slot.scope
        && reg.decos[reg.decorators[slot]].results.Valid()
    }

    /** The scopes contain their ancestors and the scopes of whatever is called from them, and the rank of
        constructors falls from caller to callee. */
    ghost predicate Closed() {
      ScopesClosed() && ProvidersRanked() && CtorsRanked() && DecoratorsPlaced()
    }

    /** A level above all constructors */
    ghost function Top(): (top: nat)
      ensures forall n :: n in rank ==> rank[n] < top
    {
      MaxValue(rank, rank.Keys) + 1
    }

    /** The decorators that have not been started */
    ghost function Idle(st: Store): set<nat> {
      set d: nat | d < |reg.decos| && d !in st.states
    }

    lemma AllBelowTop(ks: set<Key>, c: nat)
      requires Closed() && c in scopes
      ensures Below(ks, c, Top())
    {
      forall k, n | k in ks && n in reg.AllProviders(c, k) ensures n in rank && rank[n] < Top() {
        ProvidersOnMember(reg, reg.PathToRoot(c), k, n);
        var s :| s in reg.PathToRoot(c) && n in reg.Providers(s, k);
      }
    }

    lemma BelowProviders(k: Key, c: nat, s: nat, level: nat)
      requires Below({k}, c, level) && s in reg.PathToRoot(c)
      ensures forall n :: n in reg.Providers(s, k) ==> n in rank && rank[n] < level
    {
      forall n | n in reg.Providers(s, k) ensures n in rank && rank[n] < level {
        ProvidersOnMember(reg, reg.PathToRoot(c), k, n);
      }
    }

    // -------------------------------------------------------------------------------------------
    // Lookups along the path to the root

    /** The closest scope whose decorator for `k` is not already being run */
    function ClosestDecorator(st: Store, k: Key, path: seq<nat>): (s: Option<nat>)
      ensures s.Some? ==>
                && s.value in path && Slot(s.value, k) in reg.decorators
                && st.State(reg.decorators[Slot(s.value, k)]) != OnStack
    {
      if path == [] then None
      else if Slot(path[0], k) in reg.decorators && st.State(reg.decorators[Slot(path[0], k)]) != OnStack
      then Some(path[0])
      else ClosestDecorator(st, k, path[1..])
    }

    /** getDecoratedValue, and getDecoratedValues of a group: the closest decorated value */
    static function Closest(m: map<Slot, Value>, k: Key, path: seq<nat>): Option<Value> {
      if path == [] then None
      else if Slot(path[0], k) in m then Some(m[Slot(path[0], k)])
      else Closest(m, k, path[1..])
    }

    /** The closest scope that holds a value for `k` or has providers for it */
    function Locate(st: Store, k: Key, path: seq<nat>): (s: Option<nat>)
      ensures s.Some? ==> s.value in path && (Slot(s.value, k) in st.values || reg.Providers(s.value, k) != [])
    {
      if path == [] then None
      else if Slot(path[0], k) in st.values || reg.Providers(path[0], k) != [] then Some(path[0])
      else Locate(st, k, path[1..])
    }

    /** findMissingDependencies: non-optional single parameters without provider and decorated value */
    function Missing(st: Store, p: Param, c: nat): seq<Key>
      decreases p, 1
    {
      match p
      case SingleParam(k, optional) =>
        if reg.AllProviders(c, k) == [] && Slot(c, k) !in st.decorated && !optional then [k] else []
      case GroupParam(_, _, _, _) => []
      case ObjectParam(fields) => MissingFields(st, fields, c)
    }

    function MissingFields(st: Store, fields: seq<ParamField>, c: nat): seq<Key>
      decreases fields, 0
    {
      if fields == [] then [] else
        assert (fields[0] decreases to fields[0].param);
        Missing(st, fields[0].param, c) + MissingFields(st, fields[1..], c)
    }

    function MissingList(st: Store, ps: seq<Param>, c: nat): seq<Key> {
      if ps == [] then [] else Missing(st, ps[0], c) + MissingList(st, ps[1..], c)
    }

    /** getValueGroup of every scope on the path */
    function GroupOn(st: Store, k: Key, path: seq<nat>): seq<Value> {
      if path == [] then [] else Listed(st.groups, Slot(path[0], k)) + GroupOn(st, k, path[1..])
    }

    // -------------------------------------------------------------------------------------------
    // Build and Call

    /** paramList.BuildList */
    function BuildList(ps: seq<Param>, c: nat, ghost level: nat, st: Store): (r: (Try<seq<Value>>, Store))
      requires Closed() && c in scopes && Below(ListLeaves(ps), c, level)
      ensures Steps(st, r.1)
      decreases Idle(st), level, 0, ListSize(ps), 0
    {
      if ps == [] then (Ok([]), st) else
        var (v, st1) := Build(ps[0], c, level, st);
        if v.Fail? then (Fail(v.error), st1) else
          var (vs, st2) := BuildList(ps[1..], c, level, st1);
          StepsTransitive(st, st1, st2);
          (if vs.Fail? then vs else Ok([v.value] + vs.value), st2)
    }

    /** param.Build */
    function Build(p: Param, c: nat, ghost level: nat, st: Store): (r: (Try<Value>, Store))
      requires Closed() && c in scopes && Below(Leaves(p), c, level)
      ensures Steps(st, r.1)
      decreases Idle(st), level, 0, Size(p), 3
    {
      match p
      case SingleParam(k, optional) => BuildSingle(k, optional, c, level, st)
      case GroupParam(_, elem, slice, soft) => BuildGroup(elem, slice, soft, c, level, st)
      case ObjectParam(fields) =>
        BuildOrderKeeps(fields);
        var (vs, st1) := BuildFields(BuildOrder(fields), c, level, st);
        (if vs.Fail? then Fail(vs.error) else Ok(Struct(vs.value)), st1)
    }

    /** The loop of paramObject.Build: field by field into the struct */
    function BuildFields(fields: seq<ParamField>, c: nat, ghost level: nat, st: Store): (r: (Try<map<nat,
            Value>>, Store))
      requires Closed() && c in scopes && Below(FieldLeaves(fields), c, level)
      ensures Steps(st, r.1)
      decreases Idle(st), level, 0, FieldSize(fields), 0
    {
      if fields == [] then (Ok(map[]), st) else
        var last := fields[|fields| - 1];
        FieldConcat(fields[..|fields| - 1], [last]);
        assert fields == fields[..|fields| - 1] + [last];
        var (vs, st1) := BuildFields(fields[..|fields| - 1], c, level, st);
        if vs.Fail? then (vs, st1) else
          var (v, st2) := Build(last.param, c, level, st1);
          StepsTransitive(st, st1, st2);
          (if v.Fail? then Fail(v.error) else Ok(vs.value[last.index := v.value]), st2)
    }

    /** paramSingle.Build */
    function BuildSingle(k: Key, optional: bool, c: nat, ghost level: nat, st: Store): (r: (Try<Value>, Store))
      requires Closed() && c in scopes && Below({k}, c, level)
      ensures Steps(st, r.1)
      decreases Idle(st), level, 0, 1, 2
    {
      var path := reg.PathToRoot(c);
      var s := ClosestDecorator(st, k, path);
      if s.Some? then
        var (err, st1) := CallDecorator(reg.decorators[Slot(s.value, k)], level, st);
        if err.Some? then (Fail(ParamSingleFailed(k, Unnamed, err.value)), st1)
        else (Ok(Fetch(st1.decorated, Slot(s.value, k))), st1)
      else if Closest(st.decorated, k, path).Some? then (Ok(Closest(st.decorated, k, path).value), st)
      else BuildUndecorated(k, optional, c, level, st)
    }

    /** The part of paramSingle.Build that looks for a value or a provider */
    function BuildUndecorated(k: Key, optional: bool, c: nat, ghost level: nat, st: Store): (r: (Try<Value>, Store))
      requires Closed() && c in scopes && Below({k}, c, level)
      ensures Steps(st, r.1)
      decreases Idle(st), level, 0, 1, 1
    {
      var s := Locate(st, k, reg.PathToRoot(c));
      if s.None? then
        (if optional then Ok(Zero(k.t)) else Fail(MissingTypes([k])), st)
      else if Slot(s.value, k) in st.values then (Ok(st.values[Slot(s.value, k)]), st)
      else
        BelowProviders(k, c, s.value, level);
        var (failed, st1) := CallAll(reg.Providers(s.value, k), level, st);
        if failed.None? then (Ok(Fetch(st1.values, Slot(s.value, k))), st1)
        else if failed.value.1.HasMissing() && optional then (Ok(Zero(k.t)), st1)
        else (Fail(ParamSingleFailed(k, ByCtor(failed.value.0), failed.value.1)), st1)
    }

    /** `v, _ = m[slot]` */
    static function Fetch(m: map<Slot, Value>, slot: Slot): Value {
      if slot in m then m[slot] else NoValue
    }

    /** Calls constructors one after the other up to the first that fails. */
    function CallAll(ns: seq<nat>, ghost level: nat, st: Store): (r: (Option<(nat, Error)>, Store))
      requires Closed() && forall n :: n in ns ==> n in rank && rank[n] < level
      ensures Steps(st, r.1)
      decreases Idle(st), level, 0, 0, |ns|
    {
      if ns == [] then (None, st) else
        var (err, st1) := CallCtor(ns[0], st);
        if err.Some? then (Some((ns[0], err.value)), st1) else
          var (rest, st2) := CallAll(ns[1..], level, st1);
          StepsTransitive(st, st1, st2);
          (rest, st2)
    }

    /** constructorNode.Call */
    function CallCtor(n: nat, st: Store): (r: (Option<Error>, Store))
      requires Closed() && n in rank
      ensures Steps(st, r.1)
      decreases Idle(st), rank[n], 1, 0, 0
    {
      var ctor := reg.ctors[n];
      if n in st.called then (None, st)
      else if MissingList(st, ctor.params, ctor.orig) != [] then
        (Some(MissingDependencies(MissingTypes(MissingList(st, ctor.params, ctor.orig)))), st)
      else
        var (args, st1) := BuildList(ctor.params, ctor.orig, rank[n], st);
        if args.Fail? then (Some(ArgumentsFailed(args.error)), st1)
        else RunCtor(n, args.value, st, st1)
    }

    /** The second half of constructorNode.Call: runs the user's function and commits what it returns. */
    function RunCtor(n: nat, args: seq<Value>, ghost st: Store, st1: Store): (r: (Option<Error>, Store))
      requires Closed() && n in rank && Steps(st, st1)
      ensures Steps(st, r.1)
    {
      var ctor := reg.ctors[n];
      var vals := Fit(world.ctor(n, args), |ctor.results.indexes|);
      var ran := st1.(runs := st1.runs + [n]);
      match Produce(ctor.results, vals)
      case Rejected(u) => (Some(ConstructorFailed(u)), ran)
      case Produced(w) =>
        (None, ran.Commit(ctor.scope, w).(called := ran.called + {n}, commits := ran.commits + [n]))
    }

    /** decoratorNode.Call; its callers skip a decorator that is being run. */
    function CallDecorator(d: nat, ghost level: nat, st: Store): (r: (Option<Error>, Store))
      requires Closed() && d < |reg.decos| && reg.decos[d].scope in scopes && reg.decos[d].results.Valid()
      requires st.State(d) != OnStack
      ensures Steps(st, r.1)
      decreases Idle(st), level, 0, 0, 0
    {
      if st.State(d) == Called then (None, st) else
        var deco := reg.decos[d];
        var st1 := st.(states := st.states[d := OnStack]);
        var missing := MissingList(st1, deco.params, deco.scope);
        if missing != [] then (Some(MissingDependencies(MissingTypes(missing))), st1) else
          assert d in Idle(st) && d !in Idle(st1);
          AllBelowTop(ListLeaves(deco.params), deco.scope);
          var (args, st2) := BuildList(deco.params, deco.scope, Top(), st1);
          StartedSteps(d, st, st2);
          if args.Fail? then (Some(ArgumentsFailed(args.error)), st2) else
            RunDecorator(d, args.value, st, st2)
    }

    /** The second half of decoratorNode.Call. The writes are not staged: those made before an error stay. */
    function RunDecorator(d: nat, args: seq<Value>, ghost st: Store, st1: Store): (r: (Option<Error>, Store))
      requires Closed() && d < |reg.decos| && reg.decos[d].results.Valid()
      requires d !in st.states && Steps(st, st1) && d in st1.states && d !in st1.decoRuns[|st.decoRuns|..]
      ensures Steps(st, r.1)
    {
      var deco := reg.decos[d];
      var vals := Fit(world.deco(d, args), |deco.results.indexes|);
      var x := ExtractFrom(deco.results, true, vals, 0);
      var ran := st1.(decoRuns := st1.decoRuns + [d]).DecorateAll(deco.scope, x.writes);
      if x.error.Some? then (Some(DecoratorFailed(x.error.value)), ran)
      else (None, ran.(states := ran.states[d := Called]))
    }

    lemma StartedSteps(d: nat, st: Store, st2: Store)
      requires d !in st.states && Steps(st.(states := st.states[d := OnStack]), st2)
      ensures Steps(st, st2) && d in st2.states && st2.states[d] == OnStack && d !in st2.decoRuns[|st.decoRuns|..]
    {}

    /** paramGroupedSlice.Build */
    function BuildGroup(elem: Key, slice: Key, soft: bool, c: nat, ghost level: nat, st: Store): (r: (Try<Value>,
            Store))
      requires Closed() && c in scopes && Below({elem}, c, level)
      ensures Steps(st, r.1)
      decreases Idle(st), level, 0, 1, 2
    {
      var path := reg.PathToRoot(c);
      var (err, st1) := CallGroupDecorators(elem, path, level, st);
      if err.Some? then (Fail(err.value), st1)
      else if Closest(st1.decoratedGroups, slice, path).Some? then
        (Ok(Closest(st1.decoratedGroups, slice, path).value), st1)
      else if soft then (Ok(Bag(multiset(GroupOn(st1, elem, path)))), st1)
      else
        var (failed, st2) := CallAll(reg.AllProviders(c, elem), level, st1);
        StepsTransitive(st, st1, st2);
        if failed.Some? then (Fail(ParamGroupFailed(elem, ByCtor(failed.value.0), failed.value.1)), st2)
        else (Ok(Bag(multiset(GroupOn(st2, elem, path)))), st2)
    }

    /** callGroupDecorators: from the root, the last scope of `path`, to its first */
    function CallGroupDecorators(elem: Key, path: seq<nat>, ghost level: nat, st: Store): (r: (Option<Error>, Store))
      requires Closed() && forall s :: s in path ==> s in scopes
      ensures Steps(st, r.1)
      decreases Idle(st), level, 0, 0, |path|
    {
      if path == [] then (None, st) else
        var (err, st1) := CallGroupDecorators(elem, path[1..], level, st);
        if err.Some? then (err, st1)
        else if Slot(path[0], elem) !in reg.decorators || st1.State(reg.decorators[Slot(path[0], elem)]) == OnStack
        then (None, st1)
        else
          var d := reg.decorators[Slot(path[0], elem)];
          var (err', st2) := CallDecorator(d, level, st1);
          StepsTransitive(st, st1, st2);
          (if err'.Some? then Some(ParamGroupFailed(elem, ByDecorator(d), err'.value)) else None, st2)
    }
  }

  /** No decorator becomes idle again. */
  lemma IdleShrinks(e: Env, st: Store, st': Store)
    requires Steps(st, st')
    ensures e.Idle(st') <= e.Idle(st)
  {}
}
