/** Decoration composes along the chain of scopes. */
module Decoration {
  import opened Values
  import opened ResultTree
  import opened Extraction
  import opened Registry
  import opened Resolver
  import opened Evaluator

  lemma PathSuffix(reg: Registry, c: nat, i: nat)
    requires i < |reg.PathToRoot(c)|
    ensures reg.PathToRoot(reg.PathToRoot(c)[i]) == reg.PathToRoot(c)[i..]
    decreases c
  {
    if i > 0 {
      var p := reg.parents[c].value;
      PathSuffix(reg, p, i - 1);
      assert reg.PathToRoot(c) == [c] + reg.PathToRoot(p);
    }
  }

  /** No two scopes of the path share a decorator. */
  ghost predicate DecoratorsApart(reg: Registry, k: Key, path: seq<nat>) {
    forall i, j :: 0 <= i < j < |path| && Slot(path[i], k) in reg.decorators && Slot(path[j], k) in reg.decorators ==>
      reg.decorators[Slot(path[i], k)] != reg.decorators[Slot(path[j], k)]
  }

  lemma {:induction false} OnlySelfSkipped(reg: Registry, k: Key, path: seq<nat>, d: nat)
    requires forall i :: 0 <= i < |path| && Slot(path[i], k) in reg.decorators ==> reg.decorators[Slot(path[i], k)] != d
    ensures ApplyingScope(reg, k, path, Some(d)) == ApplyingScope(reg, k, path, None)
  {
    if path != [] {
      forall i | 0 <= i < |path[1..]| && Slot(path[1..][i], k) in reg.decorators
        ensures reg.decorators[Slot(path[1..][i], k)] != d
      {
        assert path[1..][i] == path[i + 1];
      }
      OnlySelfSkipped(reg, k, path[1..], d);
    }
  }

  lemma PathFalls(reg: Registry, c: nat, i: nat, j: nat)
    requires i < j < |reg.PathToRoot(c)|
    ensures reg.PathToRoot(c)[i] > reg.PathToRoot(c)[j]
    decreases c
  {
    var p := reg.parents[c].value;
    assert reg.PathToRoot(c) == [c] + reg.PathToRoot(p);
    if i > 0 {
      PathFalls(reg, p, i - 1, j - 1);
    } else if j > 1 {
      PathFalls(reg, p, 0, j - 1);
    }
  }

  /** The decorators of `k` on the path are in the tables and succeed. Nothing is asked of their other parameters
      and results. */
  ghost predicate Succeed(e: Env, m: Meaning, k: Key, path: seq<nat>)
    requires Tabled(e)
  {
    forall i :: 0 <= i < |path| && Slot(path[i], k) in e.reg.decorators ==>
      var d := e.reg.decorators[Slot(path[i], k)];
      d in e.decoRank && e.reg.decos[d].scope == path[i] && m.Decorator(d).Ok?
  }

  lemma SucceedApart(e: Env, m: Meaning, k: Key, c: nat)
    requires Tabled(e) && Succeed(e, m, k, e.reg.PathToRoot(c))
    ensures DecoratorsApart(e.reg, k, e.reg.PathToRoot(c))
  {
    hide Tabled, Ancestors;
    var path := e.reg.PathToRoot(c);
    forall i, j | 0 <= i < j < |path| && Slot(path[i], k) in e.reg.decorators && Slot(path[j], k) in e.reg.decorators
      ensures e.reg.decorators[Slot(path[i], k)] != e.reg.decorators[Slot(path[j], k)]
    {
      PathFalls(e.reg, c, i, j);
    }
  }

  // ---------------------------------------------------------------------------------------------
  // One argument bound

  /** A value for one key, or for one slice of a group, in place of what the container would supply */
  datatype Binding = BoundValue(key: Key, value: Value) | BoundGroup(elem: Key, slice: Key, value: Value)

  predicate Binds(b: Binding, p: Param) {
    match p
    case SingleParam(k, _) => b.BoundValue? && b.key == k
    case GroupParam(_, elem, slice, _) => b.BoundGroup? && b.elem == elem && b.slice == slice
    case ObjectParam(_) => false
  }

  /** The arguments that `ps` stand for, with what is bound in its place and everything else at its meaning */
  function BoundList(reg: Registry, m: Meaning, ps: seq<Param>, c: nat, self: Option<nat>,
          b: Binding): Try<seq<Value>> {
    if ps == [] then Ok([]) else
      var v := Bound(reg, m, ps[0], c, self, b);
      if v.Fail? then Fail(v.error) else
        var vs := BoundList(reg, m, ps[1..], c, self, b);
        if vs.Fail? then vs else Ok([v.value] + vs.value)
  }

  function Bound(reg: Registry, m: Meaning, p: Param, c: nat, self: Option<nat>, b: Binding): Try<Value>
    decreases Size(p), 1
  {
    if Binds(b, p) then Ok(b.value)
    else if p.ObjectParam? then
      BuildOrderKeeps(p.fields);
      var vs := BoundFields(reg, m, BuildOrder(p.fields), c, self, b);
      if vs.Fail? then Fail(vs.error) else Ok(Struct(vs.value))
    else Eval(reg, m, p, c, self)
  }

  function BoundFields(reg: Registry, m: Meaning, fields: seq<ParamField>, c: nat, self: Option<nat>,
          b: Binding): Try<map<nat, Value>>
    decreases FieldSize(fields), 0
  {
    if fields == [] then Ok(map[]) else
      var last := fields[|fields| - 1];
      FieldConcat(fields[..|fields| - 1], [last]);
      assert fields == fields[..|fields| - 1] + [last];
      var vs := BoundFields(reg, m, fields[..|fields| - 1], c, self, b);
      if vs.Fail? then vs else
        var v := Bound(reg, m, last.param, c, self, b);
        if v.Fail? then Fail(v.error) else Ok(vs.value[last.index := v.value])
  }

  /** What is bound is what the container supplies in scope `c`. */
  ghost predicate Supplied(reg: Registry, m: Meaning, c: nat, self: Option<nat>, b: Binding) {
    match b
    case BoundValue(k, v) => EvalSingle(reg, m, k, false, c, self) == Ok(v)
    case BoundGroup(elem, slice, v) => EvalGroup(reg, m, elem, slice, c, self) == Ok(v)
  }

  lemma {:induction false} BoundListIsEval(reg: Registry, m: Meaning, ps: seq<Param>, c: nat, self: Option<nat>,
          b: Binding)
    requires Supplied(reg, m, c, self, b)
    ensures BoundList(reg, m, ps, c, self, b) == EvalList(reg, m, ps, c, self)
  {
    hide Supplied, Bound, Eval;
    if ps != [] {
      BoundIsEval(reg, m, ps[0], c, self, b);
      BoundListIsEval(reg, m, ps[1..], c, self, b);
    }
  }

  lemma {:induction false} BoundIsEval(reg: Registry, m: Meaning, p: Param, c: nat, self: Option<nat>, b: Binding)
    requires Supplied(reg, m, c, self, b)
    ensures Bound(reg, m, p, c, self, b) == Eval(reg, m, p, c, self)
    decreases Size(p), 1
  {
    hide EvalGroup, BoundFields, EvalFields, BuildOrder;
    if p.ObjectParam? {
      BuildOrderKeeps(p.fields);
      BoundFieldsIsEval(reg, m, BuildOrder(p.fields), c, self, b);
    }
  }

  lemma {:induction false} BoundFieldsIsEval(reg: Registry, m: Meaning, fields: seq<ParamField>, c: nat,
          self: Option<nat>, b: Binding)
    requires Supplied(reg, m, c, self, b)
    ensures BoundFields(reg, m, fields, c, self, b) == EvalFields(reg, m, fields, c, self)
    decreases FieldSize(fields), 0
  {
    hide Supplied, Bound, Eval;
    if fields != [] {
      var init, last := fields[..|fields| - 1], fields[|fields| - 1];
      FieldConcat(init, [last]);
      assert fields == init + [last];
      BoundFieldsIsEval(reg, m, init, c, self, b);
      BoundIsEval(reg, m, last.param, c, self, b);
    }
  }

  /** What decorator `d` writes when its parameter list is evaluated with `b` */
  function Rewrites(e: Env, m: Meaning, d: nat, b: Binding): seq<Write>
    requires d < |e.reg.decos| && e.reg.decos[d].results.Valid()
  {
    var deco := e.reg.decos[d];
    var args := BoundList(e.reg, m, deco.params, deco.scope, Some(d), b);
    if args.Fail? then [] else
      ExtractFrom(deco.results, true, Fit(e.world.deco(d, args.value), |deco.results.indexes|), 0).writes
  }

  /** A decorator that succeeds writes what it makes of the value that its scope supplies. */
  lemma DecoratorRewrites(e: Env, m: Meaning, d: nat, b: Binding)
    requires Tabled(e) && IsMeaning(e, m) && d in e.decoRank && m.Decorator(d).Ok?
    requires Supplied(e.reg, m, e.reg.decos[d].scope, Some(d), b)
    ensures m.Decorator(d) == Ok(Rewrites(e, m, d, b))
  {
    hide Supplied, EvalList, BoundList, ExtractFrom, UnprovidedList;
    assert m.decos[d] == EvalDecorator(e, m, d);
    var deco := e.reg.decos[d];
    BoundListIsEval(e.reg, m, deco.params, deco.scope, Some(d), b);
  }

  // ---------------------------------------------------------------------------------------------
  // Single values

  /** What decorator `d` makes of the value `v` of `k` */
  function Wrap(e: Env, m: Meaning, d: nat, k: Key, v: Value): Value
    requires d < |e.reg.decos| && e.reg.decos[d].results.Valid()
  {
    OrNoValue(LastSet(Rewrites(e, m, d, BoundValue(k, v)), k))
  }

  ghost predicate InTables(e: Env, k: Key, path: seq<nat>) {
    forall i :: 0 <= i < |path| && Slot(path[i], k) in e.reg.decorators ==>
      && e.reg.decorators[Slot(path[i], k)] < |e.reg.decos|
      && e.reg.decos[e.reg.decorators[Slot(path[i], k)]].results.Valid()
  }

  lemma InTablesFrom(e: Env, k: Key, path: seq<nat>, i: nat)
    requires InTables(e, k, path) && i <= |path|
    ensures InTables(e, k, path[i..])
  {
    var rest := path[i..];
    assert forall x :: 0 <= x < |rest| ==> rest[x] == path[i + x];
  }

  /** All decorators of `k` on the path applied to `raw`, the outermost (the last of the path) first */
  ghost function Chain(e: Env, m: Meaning, k: Key, path: seq<nat>, raw: Value): Value
    requires InTables(e, k, path)
  {
    if path == [] then raw else
      InTablesFrom(e, k, path, 1);
      if Slot(path[0], k) in e.reg.decorators
      then Wrap(e, m, e.reg.decorators[Slot(path[0], k)], k, Chain(e, m, k, path[1..], raw))
      else Chain(e, m, k, path[1..], raw)
  }

  /** The outermost scope of the path that decorates `k`, or else the scope the path starts from */
  function Outermost(reg: Registry, k: Key, path: seq<nat>): nat
    requires path != []
  {
    if |path| > 1 && ApplyingScope(reg, k, path[1..], None).Some? then Outermost(reg, k, path[1..]) else path[0]
  }

  lemma {:induction false} OutermostFrom(reg: Registry, k: Key, path: seq<nat>, i: nat)
    requires i < |path| && Slot(path[i], k) in reg.decorators && ApplyingScope(reg, k, path[i + 1..], None).None?
    ensures Outermost(reg, k, path) == path[i]
  {
    if i > 0 {
      assert path[1..][i - 1] == path[i] && path[1..][i..] == path[i + 1..];
      OutermostFrom(reg, k, path[1..], i - 1);
      SomeApplies(reg, k, path[1..], i - 1);
    }
  }

  lemma {:induction false} SomeApplies(reg: Registry, k: Key, path: seq<nat>, i: nat)
    requires i < |path| && Slot(path[i], k) in reg.decorators
    ensures ApplyingScope(reg, k, path, None).Some?
  {
    if i > 0 { SomeApplies(reg, k, path[1..], i - 1); }
  }

  /** The value seen through the closest decorator of the path, or the provided one */
  ghost function SeenOn(e: Env, m: Meaning, k: Key, path: seq<nat>, raw: Value): Try<Value> {
    var s := ApplyingScope(e.reg, k, path, None);
    if s.None? then Ok(raw)
    else if m.Decorator(e.reg.decorators[Slot(s.value, k)]).Fail?
    then Fail(m.Decorator(e.reg.decorators[Slot(s.value, k)]).error)
    else Ok(OrNoValue(LastSet(m.Decorator(e.reg.decorators[Slot(s.value, k)]).value, k)))
  }

  lemma SucceedInTables(e: Env, m: Meaning, k: Key, path: seq<nat>)
    requires Tabled(e) && Succeed(e, m, k, path)
    ensures InTables(e, k, path)
  {}

  lemma {:induction false} ChainSeen(e: Env, m: Meaning, k: Key, c: nat, raw: Value, i: nat)
    requires Tabled(e) && IsMeaning(e, m) && Succeed(e, m, k, e.reg.PathToRoot(c))
    requires EvalProvided(e.reg, m, k, false, Outermost(e.reg, k, e.reg.PathToRoot(c))) == Ok(raw)
    requires i <= |e.reg.PathToRoot(c)| && InTables(e, k, e.reg.PathToRoot(c)[i..])
    ensures SeenOn(e, m, k, e.reg.PathToRoot(c)[i..], raw) == Ok(Chain(e, m, k, e.reg.PathToRoot(c)[i..], raw))
    decreases |e.reg.PathToRoot(c)| - i
  {
    hide IsMeaning, EvalSingle, EvalProvided, Rewrites, Tabled, Outermost, LastSet;
    var path := e.reg.PathToRoot(c);
    if i < |path| {
      InTablesFrom(e, k, path[i..], 1);
      assert path[i..][1..] == path[i + 1..];
      ChainSeen(e, m, k, c, raw, i + 1);
      if Slot(path[i], k) in e.reg.decorators {
        ArgumentSeen(e, m, k, c, raw, i);
        var d := e.reg.decorators[Slot(path[i], k)];
        DecoratorRewrites(e, m, d, BoundValue(k, Chain(e, m, k, path[i + 1..], raw)));
      }
    }
  }

  /** A decorator is given the value that is seen above it. */
  lemma {:induction false} ArgumentSeen(e: Env, m: Meaning, k: Key, c: nat, raw: Value, i: nat)
    requires Tabled(e) && Succeed(e, m, k, e.reg.PathToRoot(c))
    requires EvalProvided(e.reg, m, k, false, Outermost(e.reg, k, e.reg.PathToRoot(c))) == Ok(raw)
    requires i < |e.reg.PathToRoot(c)| && Slot(e.reg.PathToRoot(c)[i], k) in e.reg.decorators
    requires SeenOn(e, m, k, e.reg.PathToRoot(c)[i + 1..], raw).Ok?
    ensures EvalSingle(e.reg, m, k, false, e.reg.PathToRoot(c)[i],
                       Some(e.reg.decorators[Slot(e.reg.PathToRoot(c)[i], k)]))
         == SeenOn(e, m, k, e.reg.PathToRoot(c)[i + 1..], raw)
  {
    hide EvalProvided, Tabled, Outermost, Ancestors;
    var path := e.reg.PathToRoot(c);
    SucceedApart(e, m, k, c);
    AboveSelf(e.reg, k, path, i);
    PathSuffix(e.reg, c, i);
    if ApplyingScope(e.reg, k, path[i + 1..], None).None? { OutermostFrom(e.reg, k, path, i); }
  }

  lemma {:induction false} AboveSelf(reg: Registry, k: Key, path: seq<nat>, i: nat)
    requires DecoratorsApart(reg, k, path) && i < |path| && Slot(path[i], k) in reg.decorators
    ensures ApplyingScope(reg, k, path[i..], Some(reg.decorators[Slot(path[i], k)]))
         == ApplyingScope(reg, k, path[i + 1..], None)
  {
    var d := reg.decorators[Slot(path[i], k)];
    var rest := path[i + 1..];
    assert path[i..][1..] == rest;
    forall x | 0 <= x < |rest| && Slot(rest[x], k) in reg.decorators ensures reg.decorators[Slot(rest[x], k)] != d {
      assert rest[x] == path[i + 1 + x];
    }
    OnlySelfSkipped(reg, k, rest, d);
  }

  /** Whatever the decorators take and return besides the value: it is what the provider that the outermost of them
      sees has made, with all decorators from the outermost to the scope it is asked from applied to it. */
  lemma {:induction false} DecorationComposes(e: Env, m: Meaning, k: Key, c: nat, raw: Value)
    requires Tabled(e) && IsMeaning(e, m) && Succeed(e, m, k, e.reg.PathToRoot(c))
    requires EvalProvided(e.reg, m, k, false, Outermost(e.reg, k, e.reg.PathToRoot(c))) == Ok(raw)
    ensures InTables(e, k, e.reg.PathToRoot(c))
    ensures EvalSingle(e.reg, m, k, false, c, None) == Ok(Chain(e, m, k, e.reg.PathToRoot(c), raw))
  {
    hide IsMeaning, EvalProvided, Rewrites, Tabled, Chain, LastSet;
    var path := e.reg.PathToRoot(c);
    SucceedInTables(e, m, k, path);
    assert path[0..] == path;
    ChainSeen(e, m, k, c, raw, 0);
    if ApplyingScope(e.reg, k, path, None).None? { Undecorated(e.reg, k, path); }
  }

  lemma {:induction false} Undecorated(reg: Registry, k: Key, path: seq<nat>)
    requires path != [] && ApplyingScope(reg, k, path, None).None?
    ensures Outermost(reg, k, path) == path[0]
  {}

  // ---------------------------------------------------------------------------------------------
  // Value groups

  /** What decorator `d` makes of the slice `v` of a group */
  function WrapGroup(e: Env, m: Meaning, d: nat, elem: Key, slice: Key, v: Value): Value
    requires d < |e.reg.decos| && e.reg.decos[d].results.Valid()
  {
    OrNoValue(LastSubmit(Rewrites(e, m, d, BoundGroup(elem, slice, v)), slice))
  }

  /** Scope `s` has a decorator of the group that returns this slice type. Slice types with the same element type
      are decorated apart. */
  predicate Reshapes(e: Env, elem: Key, slice: Key, s: nat) {
    && Slot(s, elem) in e.reg.decorators
    && e.reg.decorators[Slot(s, elem)] < |e.reg.decos|
    && slice in SlicesOf(e.reg.decos[e.reg.decorators[Slot(s, elem)]].results.results)
  }

  predicate Reshaped(e: Env, elem: Key, slice: Key, path: seq<nat>) {
    path != [] && (Reshapes(e, elem, slice, path[0]) || Reshaped(e, elem, slice, path[1..]))
  }

  /** What the providers visible along the path contribute */
  function Raw(e: Env, m: Meaning, elem: Key, path: seq<nat>): Value {
    Bag(multiset(m.Contributions(e.reg.ProvidersOn(path, elem), elem)))
  }

  /** All decorators of the slice on the path, the outermost first, applied to what the providers visible from
      the outermost decorator's scope contribute; without decorators, what all visible providers contribute. */
  ghost function GroupChain(e: Env, m: Meaning, elem: Key, slice: Key, path: seq<nat>): Value
    requires InTables(e, elem, path)
  {
    if path == [] then Raw(e, m, elem, path) else
      InTablesFrom(e, elem, path, 1);
      var above := if Reshaped(e, elem, slice, path[1..]) then GroupChain(e, m, elem, slice, path[1..])
                   else Raw(e, m, elem, path);
      if Reshapes(e, elem, slice, path[0])
      then WrapGroup(e, m, e.reg.decorators[Slot(path[0], elem)], elem, slice, above)
      else above
  }

  lemma {:induction false} NoFailure(m: Meaning, ns: seq<nat>)
    requires forall n :: n in ns ==> m.Ctor(n).Ok?
    ensures m.FirstFailure(ns).None?
  {
    if ns != [] { NoFailure(m, ns[1..]); }
  }

  lemma {:induction false} NoDecoratorFailure(e: Env, m: Meaning, elem: Key, path: seq<nat>, self: Option<nat>)
    requires Tabled(e) && Succeed(e, m, elem, path)
    ensures GroupDecoratorFailure(e.reg, m, elem, path, self).None?
  {
    hide Tabled;
    if path != [] {
      var rest := path[1..];
      assert forall i :: 0 <= i < |rest| ==> rest[i] == path[i + 1];
      NoDecoratorFailure(e, m, elem, rest, self);
      if Applies(e.reg, elem, path[0], self) { assert Slot(path[0], elem) in e.reg.decorators; }
    }
  }

  lemma {:induction false} OnlySelfSkippedByGroup(reg: Registry, m: Meaning, elem: Key, slice: Key,
          path: seq<nat>, d: nat)
    requires forall i :: 0 <= i < |path| && Slot(path[i], elem) in reg.decorators ==>
             reg.decorators[Slot(path[i], elem)] != d
    ensures DecoratedSlice(reg, m, elem, slice, path, Some(d)) == DecoratedSlice(reg, m, elem, slice, path, None)
  {
    if path != [] {
      var rest := path[1..];
      forall i | 0 <= i < |rest| && Slot(rest[i], elem) in reg.decorators
        ensures reg.decorators[Slot(rest[i], elem)] != d
      {
        assert rest[i] == path[i + 1];
      }
      OnlySelfSkippedByGroup(reg, m, elem, slice, rest, d);
    }
  }

  /** What a group decorator at `path[i]` is given */
  lemma {:induction false} GroupArgumentSeen(e: Env, m: Meaning, elem: Key, slice: Key, c: nat, i: nat)
    requires Tabled(e) && Succeed(e, m, elem, e.reg.PathToRoot(c)) && i < |e.reg.PathToRoot(c)|
    requires Slot(e.reg.PathToRoot(c)[i], elem) in e.reg.decorators
    requires forall n :: n in e.reg.AllProviders(c, elem) ==> m.Ctor(n).Ok?
    ensures var path := e.reg.PathToRoot(c);
            var above := DecoratedSlice(e.reg, m, elem, slice, path[i + 1..], None);
            EvalGroup(e.reg, m, elem, slice, path[i], Some(e.reg.decorators[Slot(path[i], elem)]))
            == Ok(if above.Some? then above.value else Raw(e, m, elem, path[i..]))
  {
    hide Tabled, Ancestors;
    var path := e.reg.PathToRoot(c);
    var d := e.reg.decorators[Slot(path[i], elem)];
    SucceedApart(e, m, elem, c);
    SucceedFrom(e, m, elem, path, i);
    PathSuffix(e.reg, c, i);
    NoDecoratorFailure(e, m, elem, path[i..], Some(d));
    var rest := path[i + 1..];
    assert path[i..][1..] == rest;
    forall x | 0 <= x < |rest| && Slot(rest[x], elem) in e.reg.decorators
      ensures e.reg.decorators[Slot(rest[x], elem)] != d
    {
      assert rest[x] == path[i + 1 + x];
    }
    OnlySelfSkippedByGroup(e.reg, m, elem, slice, rest, d);
    VisibleSucceed(e, m, elem, path, i);
    NoFailure(m, e.reg.ProvidersOn(path[i..], elem));
  }

  lemma SucceedFrom(e: Env, m: Meaning, k: Key, path: seq<nat>, i: nat)
    requires Tabled(e) && Succeed(e, m, k, path) && i <= |path|
    ensures Succeed(e, m, k, path[i..])
  {
    hide Tabled;
    var rest := path[i..];
    assert forall x :: 0 <= x < |rest| ==> rest[x] == path[i + x];
  }

  lemma {:induction false} VisibleSucceed(e: Env, m: Meaning, k: Key, path: seq<nat>, i: nat)
    requires i <= |path| && forall n :: n in e.reg.ProvidersOn(path, k) ==> m.Ctor(n).Ok?
    ensures forall n :: n in e.reg.ProvidersOn(path[i..], k) ==> m.Ctor(n).Ok?
  {
    forall n | n in e.reg.ProvidersOn(path[i..], k) ensures m.Ctor(n).Ok? {
      ProvidersOnMember(e.reg, path[i..], k, n);
      ProvidersOnMember(e.reg, path, k, n);
      var s :| s in path[i..] && n in e.reg.Providers(s, k);
      assert s in path;
    }
  }

  /** A decorator that succeeds writes a slice exactly if it declares it. */
  lemma {:induction false} ReshapesIsWritten(e: Env, m: Meaning, elem: Key, slice: Key, s: nat)
    requires Tabled(e) && IsMeaning(e, m) && Slot(s, elem) in e.reg.decorators
    requires e.reg.decorators[Slot(s, elem)] in e.decoRank && m.Decorator(e.reg.decorators[Slot(s, elem)]).Ok?
    ensures Reshapes(e, elem, slice, s) <==> LastSubmit(m.Decorator(e.reg.decorators[Slot(s, elem)]).value, slice).Some?
  {
    var d := e.reg.decorators[Slot(s, elem)];
    DecoratorWritesLeaves(e, m, d);
    LastWritten(m.Decorator(d).value, slice);
  }

  lemma {:induction false} LastWritten(ws: seq<Write>, k: Key)
    ensures LastSet(ws, k).Some? <==> k in SetKeys(ws)
    ensures LastSubmit(ws, k).Some? <==> k in SubmitKeys(ws)
  {
    if ws != [] {
      var init, last := ws[..|ws| - 1], ws[|ws| - 1];
      assert ws == init + [last];
      LastWritten(init, k);
      SetKeysConcat(init, [last]);
    }
  }

  lemma DecoratorWritesLeaves(e: Env, m: Meaning, d: nat)
    requires Tabled(e) && IsMeaning(e, m) && d in e.decoRank && m.Decorator(d).Ok?
    ensures SetKeys(m.Decorator(d).value) == SinglesOf(e.reg.decos[d].results.results)
    ensures SubmitKeys(m.Decorator(d).value) == SlicesOf(e.reg.decos[d].results.results)
  {
    hide ExtractFrom, EvalList, UnprovidedList;
    assert m.decos[d] == EvalDecorator(e, m, d);
    var deco := e.reg.decos[d];
    var args := EvalList(e.reg, m, deco.params, deco.scope, Some(d)).value;
    DeclaredLeavesAreWritten(deco.results, Fit(e.world.deco(d, args), |deco.results.indexes|));
  }

  lemma {:induction false} GroupChainSeen(e: Env, m: Meaning, elem: Key, slice: Key, c: nat, i: nat)
    requires Tabled(e) && IsMeaning(e, m) && Succeed(e, m, elem, e.reg.PathToRoot(c)) && i <= |e.reg.PathToRoot(c)|
    requires InTables(e, elem, e.reg.PathToRoot(c)[i..])
    requires forall n :: n in e.reg.AllProviders(c, elem) ==> m.Ctor(n).Ok?
    ensures var rest := e.reg.PathToRoot(c)[i..];
            && DecoratedSlice(e.reg, m, elem, slice, rest, None)
               == (if Reshaped(e, elem, slice, rest) then Some(GroupChain(e, m, elem, slice, rest)) else None)
            && (!Reshaped(e, elem, slice, rest) ==> GroupChain(e, m, elem, slice, rest) == Raw(e, m, elem, rest))
    decreases |e.reg.PathToRoot(c)| - i
  {
    hide IsMeaning, EvalGroup, Rewrites, Raw, Tabled, Reshapes, LastSubmit;
    var path := e.reg.PathToRoot(c);
    if i < |path| {
      assert path[i..][1..] == path[i + 1..];
      InTablesFrom(e, elem, path[i..], 1);
      GroupChainSeen(e, m, elem, slice, c, i + 1);
      if Slot(path[i], elem) in e.reg.decorators {
        ReshapesIsWritten(e, m, elem, slice, path[i]);
        GroupArgumentSeen(e, m, elem, slice, c, i);
        var d := e.reg.decorators[Slot(path[i], elem)];
        var v := EvalGroup(e.reg, m, elem, slice, path[i], Some(d)).value;
        DecoratorRewrites(e, m, d, BoundGroup(elem, slice, v));
      } else {
        NotReshaped(e, elem, slice, path[i]);
      }
    }
  }

  lemma NotReshaped(e: Env, elem: Key, slice: Key, s: nat)
    requires Slot(s, elem) !in e.reg.decorators
    ensures !Reshapes(e, elem, slice, s)
  {}

  /** A group is the fold of all decorators of its slice type, from the outermost to the scope it is asked from,
      whatever else the decorators take and return. */
  lemma {:induction false} GroupDecorationComposes(e: Env, m: Meaning, elem: Key, slice: Key, c: nat)
    requires Tabled(e) && IsMeaning(e, m) && Succeed(e, m, elem, e.reg.PathToRoot(c))
    requires forall n :: n in e.reg.AllProviders(c, elem) ==> m.Ctor(n).Ok?
    ensures InTables(e, elem, e.reg.PathToRoot(c))
    ensures EvalGroup(e.reg, m, elem, slice, c, None) == Ok(GroupChain(e, m, elem, slice, e.reg.PathToRoot(c)))
  {
    hide IsMeaning, Rewrites, Tabled, Reshaped, GroupChain;
    var path := e.reg.PathToRoot(c);
    SucceedInTables(e, m, elem, path);
    assert path[0..] == path;
    GroupChainSeen(e, m, elem, slice, c, 0);
    NoDecoratorFailure(e, m, elem, path, None);
    NoFailure(m, e.reg.AllProviders(c, elem));
  }

  // ---------------------------------------------------------------------------------------------
  // A decorator with one parameter and one result

  /** A decorator that takes a value of `k` and returns a value of `k` */
  predicate IsWrapper(deco: Decorator, k: Key) {
    && deco.params == [SingleParam(k, false)]
    && deco.results == ResultList([SingleResult(k.name, k.t, [])], [0])
  }

  lemma WrapperWraps(e: Env, m: Meaning, d: nat, k: Key, v: Value)
    requires d < |e.reg.decos| && e.reg.decos[d].results.Valid() && IsWrapper(e.reg.decos[d], k) && k.group == ""
    ensures Wrap(e, m, d, k, v) == Fit(e.world.deco(d, [v]), 1)[0]
  {
    var deco := e.reg.decos[d];
    var b := BoundValue(k, v);
    assert deco.params[1..] == [];
    assert BoundList(e.reg, m, deco.params[1..], deco.scope, Some(d), b) == Ok([]);
    assert BoundList(e.reg, m, deco.params, deco.scope, Some(d), b) == Ok([v] + []);
    assert [v] + [] == [v];
    var vals := Fit(e.world.deco(d, [v]), 1);
    assert ExtractFrom(deco.results, true, vals, 1) == Extracted([], None);
    assert ExtractFrom(deco.results, true, vals, 0) == Extracted([Set(k, vals[0])], None);
  }
}
