/** What becomes of the values that a user function returns, told by the values themselves: which error makes it
    fail, and which values its single keys and its groups receive (result.go, constructor.go, decorate.go). */
module Returned {
  import opened Values
  import opened ResultTree
  import opened Extraction
  import opened Registry
  import opened Resolver
  import opened Evaluator

  // ---------------------------------------------------------------------------------------------
  // Errors

  /** The i-th returned value is declared as an error and is not nil. */
  ghost predicate IsErrorAt(rl: ResultList, vals: seq<Value>, i: nat)
    requires |vals| == |rl.indexes| && i < |vals|
  {
    rl.indexes[i] < 0 && vals[i].ErrorValue? && vals[i].error.Some?
  }

  /** The first error among the returned values is `u`. */
  ghost predicate FirstError(rl: ResultList, vals: seq<Value>, u: UserError)
    requires |vals| == |rl.indexes|
  {
    exists i: nat :: i < |vals| && rl.indexes[i] < 0 && vals[i] == ErrorValue(Some(u))
                     && forall j: nat :: j < i ==> !IsErrorAt(rl, vals, j)
  }

  ghost predicate NoError(rl: ResultList, vals: seq<Value>)
    requires |vals| == |rl.indexes|
  {
    forall i: nat :: i < |vals| ==> !IsErrorAt(rl, vals, i)
  }

  lemma FirstIsUnique(rl: ResultList, vals: seq<Value>, i: nat, u: UserError)
    requires |vals| == |rl.indexes| && i < |vals| && IsErrorAt(rl, vals, i)
    requires forall j: nat :: j < i ==> !IsErrorAt(rl, vals, j)
    ensures FirstError(rl, vals, u) <==> vals[i] == ErrorValue(Some(u))
  {
    if FirstError(rl, vals, u) {
      var j: nat :| j < |vals| && rl.indexes[j] < 0 && vals[j] == ErrorValue(Some(u))
                    && forall l: nat :: l < j ==> !IsErrorAt(rl, vals, l);
      assert IsErrorAt(rl, vals, j);
      assert j == i;
    }
  }

  /** From the i-th value on, extraction stops at the first error that is left. */
  lemma {:induction false} ExtractError(rl: ResultList, decorated: bool, vals: seq<Value>, i: nat, u: UserError)
    requires rl.Valid() && |vals| == |rl.indexes| && i <= |vals|
    requires forall j: nat :: j < i ==> !IsErrorAt(rl, vals, j)
    ensures ExtractFrom(rl, decorated, vals, i).error == Some(u) <==> FirstError(rl, vals, u)
    decreases |vals| - i
  {
    hide Writes;
    if i < |vals| {
      if IsErrorAt(rl, vals, i) {
        assert vals[i] == ErrorValue(Some(vals[i].error.value));
        FirstIsUnique(rl, vals, i, u);
      } else {
        ExtractError(rl, decorated, vals, i + 1, u);
      }
    } else if FirstError(rl, vals, u) {
      ErrorIsError(rl, vals, u);
    }
  }

  lemma {:induction false} ErrorOrNone(rl: ResultList, vals: seq<Value>, i: nat) returns (u: Option<UserError>)
    requires |vals| == |rl.indexes| && i <= |vals|
    requires forall j: nat :: j < i ==> !IsErrorAt(rl, vals, j)
    ensures if u.Some? then FirstError(rl, vals, u.value) else NoError(rl, vals)
    decreases |vals| - i
  {
    if i == |vals| {
      u := None;
    } else if IsErrorAt(rl, vals, i) {
      u := vals[i].error;
      assert vals[i] == ErrorValue(Some(u.value));
    } else {
      u := ErrorOrNone(rl, vals, i + 1);
    }
  }

  /** Constructors and decorators alike: extraction fails with `u` exactly if `u` is the first error returned. */
  lemma {:induction false} ExtractionFails(rl: ResultList, decorated: bool, vals: seq<Value>)
    requires rl.Valid() && |vals| == |rl.indexes|
    ensures forall u :: ExtractFrom(rl, decorated, vals, 0).error == Some(u) <==> FirstError(rl, vals, u)
    ensures ExtractFrom(rl, decorated, vals, 0).error == None <==> NoError(rl, vals)
  {
    hide ExtractFrom, FirstError, NoError;
    forall u ensures ExtractFrom(rl, decorated, vals, 0).error == Some(u) <==> FirstError(rl, vals, u) {
      ExtractError(rl, decorated, vals, 0, u);
    }
    var u := ErrorOrNone(rl, vals, 0);
    if u.Some? { ErrorIsError(rl, vals, u.value); }
    if ExtractFrom(rl, decorated, vals, 0).error.Some? {
      ErrorIsError(rl, vals, ExtractFrom(rl, decorated, vals, 0).error.value);
    }
  }

  lemma ErrorIsError(rl: ResultList, vals: seq<Value>, u: UserError)
    requires |vals| == |rl.indexes| && FirstError(rl, vals, u)
    ensures !NoError(rl, vals)
  {
    var i: nat :| i < |vals| && rl.indexes[i] < 0 && vals[i] == ErrorValue(Some(u));
    assert IsErrorAt(rl, vals, i);
  }

  lemma ProduceFails(rl: ResultList, vals: seq<Value>)
    requires rl.Valid() && |vals| == |rl.indexes|
    ensures forall u :: Produce(rl, vals) == Rejected(u) <==> FirstError(rl, vals, u)
    ensures Produce(rl, vals).Produced? <==> NoError(rl, vals)
  {
    hide ExtractFrom, FirstError, NoError;
    ExtractionFails(rl, false, vals);
  }

  /** What the user's function returns, as many values as its type says */
  function CtorReturns(e: Env, n: nat, args: seq<Value>): (vals: seq<Value>)
    requires n < |e.reg.ctors|
    ensures |vals| == |e.reg.ctors[n].results.indexes|
    ensures |e.world.ctor(n, args)| == |vals| ==> vals == e.world.ctor(n, args)
  {
    Fit(e.world.ctor(n, args), |e.reg.ctors[n].results.indexes|)
  }

  function DecoratorReturns(e: Env, d: nat, args: seq<Value>): (vals: seq<Value>)
    requires d < |e.reg.decos|
    ensures |vals| == |e.reg.decos[d].results.indexes|
    ensures |e.world.deco(d, args)| == |vals| ==> vals == e.world.deco(d, args)
  {
    Fit(e.world.deco(d, args), |e.reg.decos[d].results.indexes|)
  }

  /** A constructor fails with `u` exactly if the first error that it returns is `u`, and then leaves the stores as
      they were; otherwise it is called from then on. */
  lemma {:induction false} RunCtorFails(e: Env, n: nat, args: seq<Value>, st: Store, st1: Store)
    requires e.Closed() && n in e.rank && n < |e.reg.ctors| && e.reg.ctors[n].results.Valid() && Steps(st, st1)
    ensures var (err, st2) := e.RunCtor(n, args, st, st1);
            var rl, vals := e.reg.ctors[n].results, CtorReturns(e, n, args);
            && (forall u :: err == Some(ConstructorFailed(u)) <==> FirstError(rl, vals, u))
            && (err == None <==> NoError(rl, vals))
            && st2.runs == st1.runs + [n]
            && (err.Some? ==> st2 == st1.(runs := st2.runs))
            && (err.None? ==> n in st2.called && st2.commits == st1.commits + [n])
  {
    hide Env.Closed, Steps, Produce, FirstError, NoError;
    ProduceFails(e.reg.ctors[n].results, CtorReturns(e, n, args));
  }

  /** So does a decorator, which ends on the stack if it fails; what it wrote before the error stays. */
  lemma {:induction false} RunDecoratorFails(e: Env, d: nat, args: seq<Value>, st: Store, st1: Store)
    requires e.Closed() && d < |e.reg.decos| && e.reg.decos[d].results.Valid()
    requires d !in st.states && Steps(st, st1) && d in st1.states && d !in st1.decoRuns[|st.decoRuns|..]
    requires st1.states[d] == OnStack
    ensures var (err, st2) := e.RunDecorator(d, args, st, st1);
            var rl, vals := e.reg.decos[d].results, DecoratorReturns(e, d, args);
            && (forall u :: err == Some(DecoratorFailed(u)) <==> FirstError(rl, vals, u))
            && (err == None <==> NoError(rl, vals))
            && st2.decoRuns == st1.decoRuns + [d]
            && st2.State(d) == (if err.Some? then OnStack else Called)
  {
    hide Env.Closed, Steps, ExtractFrom, FirstError, NoError, Store.DecorateAll;
    ExtractionFails(e.reg.decos[d].results, true, DecoratorReturns(e, d, args));
  }

  /** Whatever makes a call of a decorator fail (a missing dependency, an argument, its own error), the decorator is on
      the stack afterwards; if the call succeeds it is called. */
  lemma {:induction false} FailedDecoratorIsOnStack(e: Env, d: nat, level: nat, st: Store)
    requires e.Closed() && d < |e.reg.decos| && e.reg.decos[d].scope in e.scopes && e.reg.decos[d].results.Valid()
    requires st.State(d) != OnStack
    ensures var (err, st') := e.CallDecorator(d, level, st);
            st'.State(d) == if err.Some? then OnStack else Called
  {
    hide Env.Closed, Env.BuildList, Env.RunDecorator, Env.MissingList;
    if st.State(d) == Ready {
      var deco := e.reg.decos[d];
      var st1 := st.(states := st.states[d := OnStack]);
      if e.MissingList(st1, deco.params, deco.scope) == [] {
        e.AllBelowTop(ListLeaves(deco.params), deco.scope);
        var (args, st2) := e.BuildList(deco.params, deco.scope, e.Top(), st1);
        e.StartedSteps(d, st, st2);
        if args.Ok? { RunDecoratorFails(e, d, args.value, st, st2); }
      }
    }
  }

  // ---------------------------------------------------------------------------------------------
  // Values of groups

  /** What the value `v`, returned for the result `r`, gives to the group `k`: itself, once for its own type and once
      for each type that it is provided as; or, flattened, each of its items. */
  function Gives(r: Result, v: Value, k: Key): multiset<Value>
    decreases r, 1
  {
    match r
    case SingleResult(_, _, _) => multiset{}
    case GroupedResult(group, t, flatten, ts) =>
      if k.name != "" || k.group != group then multiset{}
      else if !flatten then multiset{}[v := multiset([t] + ts)[k.t]]
      else if k.t != t then multiset{}
      else (match v case Slice(elems) => multiset(elems) case _ => multiset{})
    case ObjectResult(fields) => FieldsGive(fields, v, k)
  }

  function FieldsGive(fields: seq<ResultField>, v: Value, k: Key): multiset<Value>
    decreases fields, 0
  {
    if fields == [] then multiset{} else
      assert (fields[0] decreases to fields[0].result);
      Gives(fields[0].result, Part(v, fields[0].index), k) + FieldsGive(fields[1..], v, k)
  }

  /** What the returned values from the i-th on give to the group `k` */
  function AllGive(rl: ResultList, vals: seq<Value>, k: Key, i: nat): multiset<Value>
    requires |vals| == |rl.indexes| && i <= |vals| && forall j :: 0 <= j < |vals| ==> rl.indexes[j] < |rl.results|
    decreases |vals| - i
  {
    if i == |vals| then multiset{}
    else if rl.indexes[i] < 0 then AllGive(rl, vals, k, i + 1)
    else Gives(rl.results[rl.indexes[i]], vals[i], k) + AllGive(rl, vals, k, i + 1)
  }

  /** The values submitted to the group `k` */
  function Submitted(ws: seq<Write>, k: Key): seq<Value> {
    if ws == [] then []
    else if ws[0].Submit? && ws[0].key == k then [ws[0].value] + Submitted(ws[1..], k)
    else Submitted(ws[1..], k)
  }

  lemma {:induction false} SubmittedConcat(a: seq<Write>, b: seq<Write>, k: Key)
    ensures Submitted(a + b, k) == Submitted(a, k) + Submitted(b, k)
  {
    if a == [] {
      assert a + b == b;
    } else {
      SubmittedConcat(a[1..], b, k);
      assert (a + b)[1..] == a[1..] + b && (a + b)[0] == a[0];
    }
  }

  lemma {:induction false} StagedIsSubmitted(ws: seq<Write>, k: Key)
    ensures Listed(Nothing.AddAll(ws).groups, k) == Submitted(ws, k)
  {
    if ws != [] {
      var init, last := ws[..|ws| - 1], ws[|ws| - 1];
      StagedIsSubmitted(init, k);
      SubmittedConcat(init, [last], k);
      assert ws == init + [last] && [last][1..] == [];
    }
  }

  /** `v`, as often as it is submitted */
  lemma {:induction false} SubmitAllCounts(ts: seq<Type>, group: string, v: Value, k: Key)
    ensures var vs := Submitted(SubmitAll(AsKeys(ts, "", group), v), k);
            && |vs| == (if k.name == "" && k.group == group then multiset(ts)[k.t] else 0)
            && forall i :: 0 <= i < |vs| ==> vs[i] == v
  {
    hide Submitted;
    if ts == [] {
      assert Submitted([], k) == [] by { SubmittedNone(k); }
    } else {
      var ws, rest := SubmitAll(AsKeys(ts, "", group), v), SubmitAll(AsKeys(ts[1..], "", group), v);
      SubmitAllCounts(ts[1..], group, v, k);
      assert ws[1..] == rest;
      SubmittedHead(ws, k);
      CountHead(ts, k.t);
    }
  }

  lemma {:induction false} SubmittedNone(k: Key)
    ensures Submitted([], k) == []
  {}

  lemma {:induction false} SubmittedHead(ws: seq<Write>, k: Key)
    requires ws != [] && ws[0].Submit?
    ensures Submitted(ws, k) == (if ws[0].key == k then [ws[0].value] else []) + Submitted(ws[1..], k)
  {}

  lemma CountHead(ts: seq<Type>, t: Type)
    requires ts != []
    ensures multiset(ts)[t] == (if ts[0] == t then 1 else 0) + multiset(ts[1..])[t]
  {
    assert ts == [ts[0]] + ts[1..];
  }

  lemma {:induction false} AllAreOne(vs: seq<Value>, v: Value)
    requires forall i :: 0 <= i < |vs| ==> vs[i] == v
    ensures multiset(vs) == multiset{}[v := |vs|]
  {
    if vs != [] {
      AllAreOne(vs[1..], v);
      assert vs == [v] + vs[1..];
    }
  }

  lemma {:induction false} SubmitAllGives(ts: seq<Type>, group: string, v: Value, k: Key)
    ensures multiset(Submitted(SubmitAll(AsKeys(ts, "", group), v), k))
         == if k.name == "" && k.group == group then multiset{}[v := multiset(ts)[k.t]] else multiset{}
  {
    hide Submitted;
    SubmitAllCounts(ts, group, v, k);
    AllAreOne(Submitted(SubmitAll(AsKeys(ts, "", group), v), k), v);
  }

  lemma {:induction false} SubmitItemsGives(key: Key, vs: seq<Value>, k: Key)
    ensures Submitted(SubmitItems(key, vs), k) == if k == key then vs else []
  {
    if vs != [] {
      SubmitItemsGives(key, vs[1..], k);
      assert SubmitItems(key, vs)[1..] == SubmitItems(key, vs[1..]);
      assert vs == [vs[0]] + vs[1..];
    }
  }

  lemma {:induction false} SetAllGives(ks: seq<Key>, v: Value, k: Key)
    ensures Submitted(SetAll(ks, v), k) == []
  {
    if ks != [] {
      SetAllGives(ks[1..], v, k);
      assert SetAll(ks, v)[1..] == SetAll(ks[1..], v);
    }
  }

  lemma {:induction false} WritesGive(r: Result, v: Value, k: Key)
    ensures multiset(Submitted(Writes(r, false, v), k)) == Gives(r, v, k)
    decreases r, 1
  {
    match r
    case SingleResult(name, t, ts) => SetAllGives(AsKeys([t] + ts, name, ""), v, k);
    case GroupedResult(group, t, flatten, ts) =>
      if flatten {
        SubmitItemsGives(Key(t, "", group), v.Items(), k);
      } else {
        SubmitAllGives([t] + ts, group, v, k);
      }
    case ObjectResult(fields) => FieldWritesGive(fields, v, k);
  }

  lemma {:induction false} FieldWritesGive(fields: seq<ResultField>, v: Value, k: Key)
    ensures multiset(Submitted(FieldWrites(fields, false, v), k)) == FieldsGive(fields, v, k)
    decreases fields, 0
  {
    if fields != [] {
      assert (fields[0] decreases to fields[0].result);
      assert v.Field(fields[0].index) == Part(v, fields[0].index);
      var v0 := Part(v, fields[0].index);
      WritesGive(fields[0].result, v0, k);
      FieldWritesGive(fields[1..], v, k);
      SubmittedConcat(Writes(fields[0].result, false, v0), FieldWrites(fields[1..], false, v), k);
    }
  }

  lemma {:induction false} ExtractGives(rl: ResultList, vals: seq<Value>, k: Key, i: nat)
    requires rl.Valid() && |vals| == |rl.indexes| && i <= |vals|
    requires ExtractFrom(rl, false, vals, i).error.None?
    ensures multiset(Submitted(ExtractFrom(rl, false, vals, i).writes, k)) == AllGive(rl, vals, k, i)
    decreases |vals| - i
  {
    hide Writes, Gives;
    if i < |vals| {
      ExtractGives(rl, vals, k, i + 1);
      if rl.indexes[i] >= 0 {
        var ws := Writes(rl.results[rl.indexes[i]], false, vals[i]);
        WritesGive(rl.results[rl.indexes[i]], vals[i], k);
        SubmittedConcat(ws, ExtractFrom(rl, false, vals, i + 1).writes, k);
      }
    }
  }

  /** A constructor that returns no error contributes to each group exactly what its returned values give. */
  lemma {:induction false} GroupsReceiveWhatIsReturned(rl: ResultList, vals: seq<Value>, k: Key)
    requires rl.Valid() && |vals| == |rl.indexes| && NoError(rl, vals)
    ensures Produce(rl, vals).Produced?
    ensures multiset(Listed(Produce(rl, vals).written.groups, k)) == AllGive(rl, vals, k, 0)
  {
    hide ExtractFrom, NoError;
    ExtractionFails(rl, false, vals);
    ExtractGives(rl, vals, k, 0);
    StagedIsSubmitted(ExtractFrom(rl, false, vals, 0).writes, k);
  }

  /** What a constructor means: it succeeds exactly if its dependencies are there, its arguments can be built and its
      function returns no error; then it contributes to each group what its returned values give, and to each single key
      the value returned where the key was declared. */
  lemma {:induction false} MeaningIsReturned(e: Env, m: Meaning, n: nat, k: Key)
    requires n < |e.reg.ctors| && e.reg.ctors[n].results.Valid() && m.Ctor(n) == EvalCtor(e, m, n)
    ensures var ctor := e.reg.ctors[n];
            var args := EvalList(e.reg, m, ctor.params, ctor.orig, None);
            && (m.Ctor(n).Ok? <==> UnprovidedList(e.reg, ctor.params, ctor.orig) == [] && args.Ok?
                                   && NoError(ctor.results, CtorReturns(e, n, args.value)))
            && (m.Ctor(n).Ok? ==>
                  && multiset(m.Contribution(n, k)) == AllGive(ctor.results, CtorReturns(e, n, args.value), k, 0)
                  && (k in m.Ctor(n).value.values ==>
                        ListDeclares(ctor.results, CtorReturns(e, n, args.value), k, m.Ctor(n).value.values[k])))
  {
    hide EvalList, UnprovidedList, Produce, NoError, FirstError, AllGive, ListDeclares;
    var ctor := e.reg.ctors[n];
    var args := EvalList(e.reg, m, ctor.params, ctor.orig, None);
    if args.Ok? {
      var vals := CtorReturns(e, n, args.value);
      ProduceFails(ctor.results, vals);
      if NoError(ctor.results, vals) {
        GroupsReceiveWhatIsReturned(ctor.results, vals, k);
        RegisteredKeysAreWritten(ctor.results, vals);
      }
    }
  }

  /** The constructors `ns` return no error, each for the arguments that its parameters stand for. */
  ghost predicate AllReturn(e: Env, m: Meaning, ns: seq<nat>) {
    forall i :: 0 <= i < |ns| ==>
      && ns[i] < |e.reg.ctors| && e.reg.ctors[ns[i]].results.Valid()
      && EvalList(e.reg, m, e.reg.ctors[ns[i]].params, e.reg.ctors[ns[i]].orig, None).Ok?
      && NoError(e.reg.ctors[ns[i]].results, Returns(e, m, ns[i]))
  }

  function Returns(e: Env, m: Meaning, n: nat): (vals: seq<Value>)
    requires n < |e.reg.ctors|
    requires EvalList(e.reg, m, e.reg.ctors[n].params, e.reg.ctors[n].orig, None).Ok?
    ensures |vals| == |e.reg.ctors[n].results.indexes|
  {
    CtorReturns(e, n, EvalList(e.reg, m, e.reg.ctors[n].params, e.reg.ctors[n].orig, None).value)
  }

  /** All that they give to the group `k` */
  function GivenBy(e: Env, m: Meaning, ns: seq<nat>, k: Key): multiset<Value>
    requires AllReturn(e, m, ns)
  {
    if ns == [] then multiset{} else
      AllGive(e.reg.ctors[ns[0]].results, Returns(e, m, ns[0]), k, 0) + GivenBy(e, m, ns[1..], k)
  }

  lemma {:induction false} ContributionsAreGiven(e: Env, m: Meaning, ns: seq<nat>, k: Key)
    requires forall i :: 0 <= i < |ns| ==> ns[i] < |e.reg.ctors| && e.reg.ctors[ns[i]].results.Valid()
    requires forall i :: 0 <= i < |ns| ==> m.Ctor(ns[i]).Ok? && m.Ctor(ns[i]) == EvalCtor(e, m, ns[i])
    ensures AllReturn(e, m, ns) && m.FirstFailure(ns) == None
    ensures multiset(m.Contributions(ns, k)) == GivenBy(e, m, ns, k)
  {
    hide NoError, EvalList, EvalCtor, AllGive, CtorReturns;
    if ns != [] {
      MeaningIsReturned(e, m, ns[0], k);
      forall i | 0 <= i < |ns[1..]| ensures ns[1..][i] == ns[i + 1] {}
      ContributionsAreGiven(e, m, ns[1..], k);
      forall i | 1 <= i < |ns| ensures ns[i] == ns[1..][i - 1] {}
    }
  }

  /** A value group that is not decorated, and none of whose visible providers fails, is all that these return for it,
      and nothing else. */
  lemma {:induction false} GroupIsGiven(e: Env, m: Meaning, elem: Key, slice: Key, c: nat, self: Option<nat>)
    requires GroupDecoratorFailure(e.reg, m, elem, e.reg.PathToRoot(c), self).None?
    requires DecoratedSlice(e.reg, m, elem, slice, e.reg.PathToRoot(c), self).None?
    requires Tabled(e) && IsMeaning(e, m)
    requires forall n :: n in e.reg.AllProviders(c, elem) ==> n in e.rank && m.Ctor(n).Ok?
    ensures AllReturn(e, m, e.reg.AllProviders(c, elem))
    ensures EvalGroup(e.reg, m, elem, slice, c, self) == Ok(Bag(GivenBy(e, m, e.reg.AllProviders(c, elem), elem)))
  {
    hide EvalCtor, AllReturn, GivenBy, Registry.AllProviders, GroupDecoratorFailure, DecoratedSlice;
    var ns := e.reg.AllProviders(c, elem);
    forall i | 0 <= i < |ns|
      ensures ns[i] < |e.reg.ctors| && e.reg.ctors[ns[i]].results.Valid()
      ensures m.Ctor(ns[i]).Ok? && m.Ctor(ns[i]) == EvalCtor(e, m, ns[i])
    {
      assert ns[i] in ns;
    }
    ContributionsAreGiven(e, m, ns, elem);
  }

  // ---------------------------------------------------------------------------------------------
  // Values of decorators

  /** The value `v`, returned by a decorator for the result `r`, has `x` where `r` declares the key `k` itself: as a
      single value, or (`grouped`) as the slice of a group. */
  ghost predicate Leaf(r: Result, v: Value, grouped: bool, k: Key, x: Value)
    decreases r
  {
    match r
    case SingleResult(name, t, _) => !grouped && k == Key(t, name, "") && x == v
    case GroupedResult(group, t, _, _) => grouped && k == Key(t, "", group) && x == v
    case ObjectResult(fields) =>
      exists i :: 0 <= i < |fields| && Leaf(fields[i].result, Part(v, fields[i].index), grouped, k, x)
  }

  ghost predicate LeafOf(rl: ResultList, vals: seq<Value>, grouped: bool, k: Key, x: Value)
    requires rl.Valid() && |vals| == |rl.indexes|
  {
    exists i :: 0 <= i < |vals| && rl.indexes[i] >= 0 && Leaf(rl.results[rl.indexes[i]], vals[i], grouped, k, x)
  }

  function WriteOf(grouped: bool, k: Key, x: Value): Write {
    if grouped then Submit(k, x) else Set(k, x)
  }

  lemma {:induction false} WriteIsLeaf(r: Result, v: Value, grouped: bool, k: Key, x: Value)
    requires WriteOf(grouped, k, x) in Writes(r, true, v)
    ensures Leaf(r, v, grouped, k, x)
    decreases r, 1
  {
    match r
    case SingleResult(_, _, _) =>
    case GroupedResult(_, _, _, _) =>
    case ObjectResult(fields) =>
      var i := FieldWriteIsLeaf(fields, v, grouped, k, x);
  }

  lemma FieldWriteIsLeaf(fields: seq<ResultField>, v: Value, grouped: bool, k: Key, x: Value) returns (i: nat)
    requires WriteOf(grouped, k, x) in FieldWrites(fields, true, v)
    ensures i < |fields| && Leaf(fields[i].result, Part(v, fields[i].index), grouped, k, x)
    decreases fields, 0
  {
    assert (fields[0] decreases to fields[0].result);
    if WriteOf(grouped, k, x) in Writes(fields[0].result, true, v.Field(fields[0].index)) {
      WriteIsLeaf(fields[0].result, v.Field(fields[0].index), grouped, k, x);
      i := 0;
    } else {
      i := FieldWriteIsLeaf(fields[1..], v, grouped, k, x);
      i := i + 1;
    }
  }

  lemma {:induction false} ExtractIsLeaf(rl: ResultList, vals: seq<Value>, i: nat, grouped: bool, k: Key, x: Value)
    requires rl.Valid() && |vals| == |rl.indexes| && i <= |vals|
    requires WriteOf(grouped, k, x) in ExtractFrom(rl, true, vals, i).writes
    ensures LeafOf(rl, vals, grouped, k, x)
    decreases |vals| - i
  {
    hide Writes, Leaf;
    if rl.indexes[i] >= 0 && WriteOf(grouped, k, x) in Writes(rl.results[rl.indexes[i]], true, vals[i]) {
      WriteIsLeaf(rl.results[rl.indexes[i]], vals[i], grouped, k, x);
    } else {
      ExtractIsLeaf(rl, vals, i + 1, grouped, k, x);
    }
  }

  /** The single values that a decorator writes, slot by slot: what stands is the last that was written. */
  lemma {:induction false} DecoratesSingles(st: Store, s: nat, ws: seq<Write>, slot: Slot)
    ensures var st' := st.DecorateAll(s, ws);
            if slot.scope == s && slot.key in SetKeys(ws)
            then slot in st'.decorated && Set(slot.key, st'.decorated[slot]) in ws
            else (slot in st'.decorated <==> slot in st.decorated)
                 && (slot in st.decorated ==> st'.decorated[slot] == st.decorated[slot])
  {
    if ws != [] {
      var init, last := ws[..|ws| - 1], ws[|ws| - 1];
      DecoratesSingles(st, s, init, slot);
      SetKeysConcat(init, [last]);
      assert ws == init + [last];
      assert slot == Slot(slot.scope, slot.key);
    }
  }

  lemma {:induction false} DecoratesGroups(st: Store, s: nat, ws: seq<Write>, slot: Slot)
    ensures var st' := st.DecorateAll(s, ws);
            if slot.scope == s && slot.key in SubmitKeys(ws)
            then slot in st'.decoratedGroups && Submit(slot.key, st'.decoratedGroups[slot]) in ws
            else (slot in st'.decoratedGroups <==> slot in st.decoratedGroups)
                 && (slot in st.decoratedGroups ==> st'.decoratedGroups[slot] == st.decoratedGroups[slot])
  {
    if ws != [] {
      var init, last := ws[..|ws| - 1], ws[|ws| - 1];
      DecoratesGroups(st, s, init, slot);
      SetKeysConcat(init, [last]);
      assert ws == init + [last];
      assert slot == Slot(slot.scope, slot.key);
    }
  }

  /** A decorator that returns no error leaves in its scope, for each key that it declares, the value that it returned
      there, and leaves the decorated values of all other slots as they were. */
  lemma {:induction false} DecoratorWritesWhatIsReturned(e: Env, d: nat, args: seq<Value>, st: Store, st1: Store,
          slot: Slot)
    requires e.Closed() && d < |e.reg.decos| && e.reg.decos[d].results.Valid()
    requires d !in st.states && Steps(st, st1) && d in st1.states && d !in st1.decoRuns[|st.decoRuns|..]
    requires NoError(e.reg.decos[d].results, DecoratorReturns(e, d, args))
    ensures var st2 := e.RunDecorator(d, args, st, st1).1;
            var deco, vals := e.reg.decos[d], DecoratorReturns(e, d, args);
            && (if slot.scope == deco.scope && slot.key in SinglesOf(deco.results.results)
                then slot in st2.decorated && LeafOf(deco.results, vals, false, slot.key, st2.decorated[slot])
                else (slot in st2.decorated <==> slot in st1.decorated)
                     && (slot in st1.decorated ==> st2.decorated[slot] == st1.decorated[slot]))
            && (if slot.scope == deco.scope && slot.key in SlicesOf(deco.results.results)
                then && slot in st2.decoratedGroups
                     && LeafOf(deco.results, vals, true, slot.key, st2.decoratedGroups[slot])
                else (slot in st2.decoratedGroups <==> slot in st1.decoratedGroups)
                     && (slot in st1.decoratedGroups ==> st2.decoratedGroups[slot] == st1.decoratedGroups[slot]))
  {
    hide Env.Closed, Steps, ExtractFrom, NoError, LeafOf, Store.DecorateAll, SinglesOf, SlicesOf, SetKeys, SubmitKeys;
    var deco, vals := e.reg.decos[d], DecoratorReturns(e, d, args);
    ExtractionFails(deco.results, true, vals);
    DeclaredLeavesAreWritten(deco.results, vals);
    var ws := ExtractFrom(deco.results, true, vals, 0).writes;
    var ran := st1.(decoRuns := st1.decoRuns + [d]);
    DecoratesSingles(ran, deco.scope, ws, slot);
    DecoratesGroups(ran, deco.scope, ws, slot);
    var st2 := ran.DecorateAll(deco.scope, ws);
    if slot.scope == deco.scope && slot.key in SetKeys(ws) {
      ExtractIsLeaf(deco.results, vals, 0, false, slot.key, st2.decorated[slot]);
    }
    if slot.scope == deco.scope && slot.key in SubmitKeys(ws) {
      ExtractIsLeaf(deco.results, vals, 0, true, slot.key, st2.decoratedGroups[slot]);
    }
  }
}
