/** The meaning of dependencies, without stores: every constructor and every decorator has one meaning,
    a function of the meanings of what it depends on. */
module Evaluator {
  import opened Values
  import opened ResultTree
  import opened Extraction
  import opened Registry
  import opened Resolver

  /** What each constructor contributes to its scope, and what each decorator writes to its scope */
  datatype Meaning = Meaning(ctors: map<nat, Try<Written>>, decos: map<nat, Try<seq<Write>>>) {

    function Ctor(n: nat): Try<Written> {
      if n in ctors then ctors[n] else Fail(MissingTypes([]))
    }

    function Decorator(d: nat): Try<seq<Write>> {
      if d in decos then decos[d] else Fail(MissingTypes([]))
    }

    /** The first constructor that fails, if any */
    function FirstFailure(ns: seq<nat>): Option<(nat, Error)> {
      if ns == [] then None
      else if Ctor(ns[0]).Fail? then Some((ns[0], Ctor(ns[0]).error))
      else FirstFailure(ns[1..])
    }

    /** What one constructor contributes to the group `k` */
    function Contribution(n: nat, k: Key): seq<Value> {
      if Ctor(n).Ok? then Listed(Ctor(n).value.groups, k) else []
    }

    function Contributions(ns: seq<nat>, k: Key): seq<Value> {
      if ns == [] then [] else Contribution(ns[0], k) + Contributions(ns[1..], k)
    }
  }

  /** The value last written for `k` */
  function LastSet(ws: seq<Write>, k: Key): Option<Value> {
    if ws == [] then None
    else if ws[|ws| - 1].Set? && ws[|ws| - 1].key == k then Some(ws[|ws| - 1].value)
    else LastSet(ws[..|ws| - 1], k)
  }

  function LastSubmit(ws: seq<Write>, k: Key): Option<Value> {
    if ws == [] then None
    else if ws[|ws| - 1].Submit? && ws[|ws| - 1].key == k then Some(ws[|ws| - 1].value)
    else LastSubmit(ws[..|ws| - 1], k)
  }

  function OrNoValue(v: Option<Value>): Value {
    if v.Some? then v.value else NoValue
  }

  /** A decorator does not apply to its own parameters: `self` is the decorator whose parameters are evaluated. */
  predicate Applies(reg: Registry, k: Key, s: nat, self: Option<nat>) {
    Slot(s, k) in reg.decorators && self != Some(reg.decorators[Slot(s, k)])
  }

  /** The closest scope whose decorator for `k` applies */
  function ApplyingScope(reg: Registry, k: Key, path: seq<nat>, self: Option<nat>): (s: Option<nat>)
    ensures s.Some? ==> s.value in path && Applies(reg, k, s.value, self)
  {
    if path == [] then None
    else if Applies(reg, k, path[0], self) then Some(path[0])
    else ApplyingScope(reg, k, path[1..], self)
  }

  /** The closest scope that provides `k` */
  function ProvidingScope(reg: Registry, k: Key, path: seq<nat>): (s: Option<nat>)
    ensures s.Some? ==> s.value in path && reg.Providers(s.value, k) != []
  {
    if path == [] then None
    else if reg.Providers(path[0], k) != [] then Some(path[0])
    else ProvidingScope(reg, k, path[1..])
  }

  /** Non-optional single dependencies that nobody provides */
  function Unprovided(reg: Registry, p: Param, c: nat): seq<Key>
    decreases p, 1
  {
    match p
    case SingleParam(k, optional) => if reg.AllProviders(c, k) == [] && !optional then [k] else []
    case GroupParam(_, _, _, _) => []
    case ObjectParam(fields) => UnprovidedFields(reg, fields, c)
  }

  function UnprovidedFields(reg: Registry, fields: seq<ParamField>, c: nat): seq<Key>
    decreases fields, 0
  {
    if fields == [] then [] else
      assert (fields[0] decreases to fields[0].param);
      Unprovided(reg, fields[0].param, c) + UnprovidedFields(reg, fields[1..], c)
  }

  function UnprovidedList(reg: Registry, ps: seq<Param>, c: nat): seq<Key> {
    if ps == [] then [] else Unprovided(reg, ps[0], c) + UnprovidedList(reg, ps[1..], c)
  }

  /** The arguments that the parameters `ps` stand for in scope `c` */
  function EvalList(reg: Registry, m: Meaning, ps: seq<Param>, c: nat, self: Option<nat>): Try<seq<Value>> {
    if ps == [] then Ok([]) else
      var v := Eval(reg, m, ps[0], c, self);
      if v.Fail? then Fail(v.error) else
        var vs := EvalList(reg, m, ps[1..], c, self);
        if vs.Fail? then vs else Ok([v.value] + vs.value)
  }

  function Eval(reg: Registry, m: Meaning, p: Param, c: nat, self: Option<nat>): Try<Value>
    decreases Size(p), 1
  {
    match p
    case SingleParam(k, optional) => EvalSingle(reg, m, k, optional, c, self)
    case GroupParam(_, elem, slice, _) => EvalGroup(reg, m, elem, slice, c, self)
    case ObjectParam(fields) =>
      BuildOrderKeeps(fields);
      var vs := EvalFields(reg, m, BuildOrder(fields), c, self);
      if vs.Fail? then Fail(vs.error) else Ok(Struct(vs.value))
  }

  function EvalFields(reg: Registry, m: Meaning, fields: seq<ParamField>, c: nat,
          self: Option<nat>): Try<map<nat, Value>>
    decreases FieldSize(fields), 0
  {
    if fields == [] then Ok(map[]) else
      var last := fields[|fields| - 1];
      FieldConcat(fields[..|fields| - 1], [last]);
      assert fields == fields[..|fields| - 1] + [last];
      var vs := EvalFields(reg, m, fields[..|fields| - 1], c, self);
      if vs.Fail? then vs else
        var v := Eval(reg, m, last.param, c, self);
        if v.Fail? then Fail(v.error) else Ok(vs.value[last.index := v.value])
  }

  /** A single value is what the closest applying decorator makes of it, or else what its provider makes. */
  function EvalSingle(reg: Registry, m: Meaning, k: Key, optional: bool, c: nat, self: Option<nat>): Try<Value> {
    var s := ApplyingScope(reg, k, reg.PathToRoot(c), self);
    if s.Some? then
      var made := m.Decorator(reg.decorators[Slot(s.value, k)]);
      if made.Fail? then Fail(ParamSingleFailed(k, Unnamed, made.error)) else Ok(OrNoValue(LastSet(made.value, k)))
    else EvalProvided(reg, m, k, optional, c)
  }

  function EvalProvided(reg: Registry, m: Meaning, k: Key, optional: bool, c: nat): Try<Value> {
    var s := ProvidingScope(reg, k, reg.PathToRoot(c));
    if s.None? then
      if optional then Ok(Zero(k.t)) else Fail(MissingTypes([k]))
    else
      var ns := reg.Providers(s.value, k);
      var failed := m.FirstFailure(ns);
      if failed.None? then Ok(Provided(m.Ctor(ns[|ns| - 1]), k))
      else if failed.value.1.HasMissing() && optional then Ok(Zero(k.t))
      else Fail(ParamSingleFailed(k, ByCtor(failed.value.0), failed.value.1))
  }

  function Provided(made: Try<Written>, k: Key): Value {
    if made.Ok? && k in made.value.values then made.value.values[k] else NoValue
  }

  /** A group is what the closest applying decorator of its slice makes of it, or else all that its visible
      providers contribute. */
  function EvalGroup(reg: Registry, m: Meaning, elem: Key, slice: Key, c: nat, self: Option<nat>): Try<Value> {
    var path := reg.PathToRoot(c);
    var err := GroupDecoratorFailure(reg, m, elem, path, self);
    if err.Some? then Fail(err.value)
    else if DecoratedSlice(reg, m, elem, slice, path, self).Some? then
      Ok(DecoratedSlice(reg, m, elem, slice, path, self).value)
    else
      var failed := m.FirstFailure(reg.AllProviders(c, elem));
      if failed.Some? then Fail(ParamGroupFailed(elem, ByCtor(failed.value.0), failed.value.1))
      else Ok(Bag(multiset(m.Contributions(reg.AllProviders(c, elem), elem))))
  }

  /** The failure of the outermost applying decorator that fails, if any */
  function GroupDecoratorFailure(reg: Registry, m: Meaning, elem: Key, path: seq<nat>,
          self: Option<nat>): Option<Error> {
    if path == [] then None else
      var err := GroupDecoratorFailure(reg, m, elem, path[1..], self);
      if err.Some? || !Applies(reg, elem, path[0], self) then err else
        var d := reg.decorators[Slot(path[0], elem)];
        if m.Decorator(d).Fail? then Some(ParamGroupFailed(elem, ByDecorator(d), m.Decorator(d).error)) else None
  }

  function DecoratedSlice(reg: Registry, m: Meaning, elem: Key, slice: Key, path: seq<nat>,
          self: Option<nat>): Option<Value> {
    if path == [] then None
    else if Applies(reg, elem, path[0], self) && m.Decorator(reg.decorators[Slot(path[0], elem)]).Ok?
            && LastSubmit(m.Decorator(reg.decorators[Slot(path[0], elem)]).value, slice).Some?
    then LastSubmit(m.Decorator(reg.decorators[Slot(path[0], elem)]).value, slice)
    else DecoratedSlice(reg, m, elem, slice, path[1..], self)
  }

  /** What a constructor contributes, given what the others mean */
  function EvalCtor(e: Env, m: Meaning, n: nat): Try<Written>
    requires n < |e.reg.ctors| && e.reg.ctors[n].results.Valid()
  {
    var ctor := e.reg.ctors[n];
    var missing := UnprovidedList(e.reg, ctor.params, ctor.orig);
    if missing != [] then Fail(MissingDependencies(MissingTypes(missing))) else
      var args := EvalList(e.reg, m, ctor.params, ctor.orig, None);
      if args.Fail? then Fail(ArgumentsFailed(args.error)) else
        match Produce(ctor.results, Fit(e.world.ctor(n, args.value), |ctor.results.indexes|))
        case Rejected(u) => Fail(ConstructorFailed(u))
        case Produced(w) => Ok(w)
  }

  /** What a decorator writes, given what the others mean */
  function EvalDecorator(e: Env, m: Meaning, d: nat): Try<seq<Write>>
    requires d < |e.reg.decos| && e.reg.decos[d].results.Valid()
  {
    var deco := e.reg.decos[d];
    var missing := UnprovidedList(e.reg, deco.params, deco.scope);
    if missing != [] then Fail(MissingDependencies(MissingTypes(missing))) else
      var args := EvalList(e.reg, m, deco.params, deco.scope, Some(d));
      if args.Fail? then Fail(ArgumentsFailed(args.error)) else
        var x := ExtractFrom(deco.results, true, Fit(e.world.deco(d, args.value), |deco.results.indexes|), 0);
        if x.error.Some? then Fail(DecoratorFailed(x.error.value)) else Ok(x.writes)
  }

  // ---------------------------------------------------------------------------------------------
  // Layers: where the meaning is well defined

  /** Everything that may be needed for `ks` from scope `c` is ranked below `level`. */
  ghost predicate Under(e: Env, ks: set<Key>, c: nat, self: Option<nat>, level: nat) {
    && e.Below(ks, c, level)
    && forall k, s :: k in ks && s in e.reg.PathToRoot(c) && Applies(e.reg, k, s, self) ==>
         e.reg.decorators[Slot(s, k)] in e.decoRank && e.decoRank[e.reg.decorators[Slot(s, k)]] < level
  }

  /** The ranked constructors and decorators are in the tables. */
  ghost predicate Tabled(e: Env) {
    && (forall n :: n in e.rank ==> n < |e.reg.ctors| && e.reg.ctors[n].results.Valid())
    && (forall d :: d in e.decoRank ==> d < |e.reg.decos| && e.reg.decos[d].results.Valid())
  }

  ghost predicate CtorLayered(e: Env, n: nat)
    requires Tabled(e) && n in e.rank
  {
    Under(e, ListLeaves(e.reg.ctors[n].params), e.reg.ctors[n].orig, None, e.rank[n])
  }

  ghost predicate DecoratorLayered(e: Env, d: nat)
    requires Tabled(e) && d in e.decoRank
  {
    Under(e, ListLeaves(e.reg.decos[d].params), e.reg.decos[d].scope, Some(d), e.decoRank[d])
  }

  /** Constructors and decorators are ranked together: a decorator stands above what it decorates and below
      what consumes it, and depends on itself in no other way. */
  ghost predicate Layered(e: Env) {
    && Tabled(e)
    && (forall n :: n in e.rank ==> CtorLayered(e, n))
    && (forall d :: d in e.decoRank ==> DecoratorLayered(e, d))
  }

  /** `m` gives every constructor and decorator of `e` its meaning. */
  ghost predicate IsMeaning(e: Env, m: Meaning)
    requires Tabled(e)
  {
    && m.ctors.Keys == e.rank.Keys
    && m.decos.Keys == e.decoRank.Keys
    && (forall n :: n in e.rank ==> m.ctors[n] == EvalCtor(e, m, n))
    && (forall d :: d in e.decoRank ==> m.decos[d] == EvalDecorator(e, m, d))
  }

  /** The two meanings coincide below `level`. */
  ghost predicate SameBelow(e: Env, m: Meaning, m': Meaning, level: nat) {
    && (forall n :: n in e.rank && e.rank[n] < level ==> m.Ctor(n) == m'.Ctor(n))
    && (forall d :: d in e.decoRank && e.decoRank[d] < level ==> m.Decorator(d) == m'.Decorator(d))
  }

  ghost predicate CtorsBelow(e: Env, ns: seq<nat>, level: nat) {
    forall n :: n in ns ==> n in e.rank && e.rank[n] < level
  }

  lemma {:induction false} SameFailure(e: Env, m: Meaning, m': Meaning, ns: seq<nat>, level: nat)
    requires SameBelow(e, m, m', level) && CtorsBelow(e, ns, level)
    ensures m.FirstFailure(ns) == m'.FirstFailure(ns)
    ensures forall k :: m.Contributions(ns, k) == m'.Contributions(ns, k)
  {
    if ns != [] { SameFailure(e, m, m', ns[1..], level); }
  }

  lemma SameSingle(e: Env, m: Meaning, m': Meaning, k: Key, optional: bool, c: nat,
          self: Option<nat>, level: nat)
    requires SameBelow(e, m, m', level) && Under(e, {k}, c, self, level)
    ensures EvalSingle(e.reg, m, k, optional, c, self) == EvalSingle(e.reg, m', k, optional, c, self)
  {
    var path := e.reg.PathToRoot(c);
    if ApplyingScope(e.reg, k, path, self).None? {
      var s := ProvidingScope(e.reg, k, path);
      if s.Some? {
        e.BelowProviders(k, c, s.value, level);
        SameFailure(e, m, m', e.reg.Providers(s.value, k), level);
      }
    }
  }

  ghost predicate DecoratorsUnder(e: Env, k: Key, path: seq<nat>, self: Option<nat>, level: nat) {
    forall s :: s in path && Applies(e.reg, k, s, self) ==>
      e.reg.decorators[Slot(s, k)] in e.decoRank && e.decoRank[e.reg.decorators[Slot(s, k)]] < level
  }

  lemma {:induction false} SameDecorations(e: Env, m: Meaning, m': Meaning, elem: Key, slice: Key,
          path: seq<nat>, self: Option<nat>, level: nat)
    requires SameBelow(e, m, m', level) && DecoratorsUnder(e, elem, path, self, level)
    ensures GroupDecoratorFailure(e.reg, m, elem, path, self) == GroupDecoratorFailure(e.reg, m', elem, path, self)
    ensures DecoratedSlice(e.reg, m, elem, slice, path, self) == DecoratedSlice(e.reg, m', elem, slice, path, self)
  {
    if path != [] { SameDecorations(e, m, m', elem, slice, path[1..], self, level); }
  }

  lemma SameGroup(e: Env, m: Meaning, m': Meaning, elem: Key, slice: Key, c: nat,
          self: Option<nat>, level: nat)
    requires SameBelow(e, m, m', level) && Under(e, {elem}, c, self, level)
    ensures EvalGroup(e.reg, m, elem, slice, c, self) == EvalGroup(e.reg, m', elem, slice, c, self)
  {
    SameDecorations(e, m, m', elem, slice, e.reg.PathToRoot(c), self, level);
    SameFailure(e, m, m', e.reg.AllProviders(c, elem), level);
  }

  lemma {:induction false} SameEval(e: Env, m: Meaning, m': Meaning, p: Param, c: nat, self: Option<nat>, level: nat)
    requires SameBelow(e, m, m', level) && Under(e, Leaves(p), c, self, level)
    ensures Eval(e.reg, m, p, c, self) == Eval(e.reg, m', p, c, self)
    decreases Size(p), 1
  {
    match p
    case SingleParam(k, optional) => SameSingle(e, m, m', k, optional, c, self, level);
    case GroupParam(_, elem, slice, _) => SameGroup(e, m, m', elem, slice, c, self, level);
    case ObjectParam(fields) =>
      BuildOrderKeeps(fields);
      SameFields(e, m, m', BuildOrder(fields), c, self, level);
  }

  lemma {:induction false} SameFields(e: Env, m: Meaning, m': Meaning, fields: seq<ParamField>, c: nat,
          self: Option<nat>, level: nat)
    requires SameBelow(e, m, m', level) && Under(e, FieldLeaves(fields), c, self, level)
    ensures EvalFields(e.reg, m, fields, c, self) == EvalFields(e.reg, m', fields, c, self)
    decreases FieldSize(fields), 0
  {
    if fields != [] {
      var init, last := fields[..|fields| - 1], fields[|fields| - 1];
      FieldConcat(init, [last]);
      assert fields == init + [last];
      SameFields(e, m, m', init, c, self, level);
      SameEval(e, m, m', last.param, c, self, level);
    }
  }

  lemma {:induction false} SameList(e: Env, m: Meaning, m': Meaning, ps: seq<Param>, c: nat, self: Option<nat>,
          level: nat)
    requires SameBelow(e, m, m', level) && Under(e, ListLeaves(ps), c, self, level)
    ensures EvalList(e.reg, m, ps, c, self) == EvalList(e.reg, m', ps, c, self)
  {
    if ps != [] {
      SameEval(e, m, m', ps[0], c, self, level);
      SameList(e, m, m', ps[1..], c, self, level);
    }
  }

  lemma SameCtor(e: Env, m: Meaning, m': Meaning, n: nat)
    requires Layered(e) && n in e.rank && SameBelow(e, m, m', e.rank[n])
    ensures EvalCtor(e, m, n) == EvalCtor(e, m', n)
  {
    SameList(e, m, m', e.reg.ctors[n].params, e.reg.ctors[n].orig, None, e.rank[n]);
  }

  lemma SameDecorator(e: Env, m: Meaning, m': Meaning, d: nat)
    requires Layered(e) && d in e.decoRank && SameBelow(e, m, m', e.decoRank[d])
    ensures EvalDecorator(e, m, d) == EvalDecorator(e, m', d)
  {
    SameList(e, m, m', e.reg.decos[d].params, e.reg.decos[d].scope, Some(d), e.decoRank[d]);
  }

  /** The plain recursive evaluator: everything below `level` in terms of what stands below it */
  ghost function MeaningBelow(e: Env, level: nat): (m: Meaning)
    requires Tabled(e)
  {
    Meaning(
      map n | n in e.rank && e.rank[n] < level :: EvalCtor(e, MeaningBelow(e, e.rank[n]), n),
      map d | d in e.decoRank && e.decoRank[d] < level :: EvalDecorator(e, MeaningBelow(e, e.decoRank[d]), d))
  }

  lemma {:induction false} MeaningGrows(e: Env, low: nat, high: nat)
    requires Tabled(e) && low <= high
    ensures SameBelow(e, MeaningBelow(e, low), MeaningBelow(e, high), low)
  {}

  lemma {:induction false} CtorMeaningStays(e: Env, level: nat, n: nat)
    requires Layered(e) && n in e.rank && e.rank[n] < level
    ensures MeaningBelow(e, level).ctors[n] == EvalCtor(e, MeaningBelow(e, level), n)
  {
    MeaningGrows(e, e.rank[n], level);
    SameCtor(e, MeaningBelow(e, e.rank[n]), MeaningBelow(e, level), n);
  }

  lemma {:induction false} DecoratorMeaningStays(e: Env, level: nat, d: nat)
    requires Layered(e) && d in e.decoRank && e.decoRank[d] < level
    ensures MeaningBelow(e, level).decos[d] == EvalDecorator(e, MeaningBelow(e, level), d)
  {
    MeaningGrows(e, e.decoRank[d], level);
    SameDecorator(e, MeaningBelow(e, e.decoRank[d]), MeaningBelow(e, level), d);
  }

  ghost function Height(e: Env): (h: nat)
    ensures forall n :: n in e.rank ==> e.rank[n] < h
    ensures forall d :: d in e.decoRank ==> e.decoRank[d] < h
  {
    MaxValue(e.rank, e.rank.Keys) + MaxValue(e.decoRank, e.decoRank.Keys) + 1
  }

  /** What the evaluator gives */
  ghost function MeaningOf(e: Env): Meaning
    requires Layered(e)
  {
    MeaningBelow(e, Height(e))
  }

  /** The evaluator gives every constructor and decorator its meaning. */
  lemma MeaningExists(e: Env)
    requires Layered(e)
    ensures IsMeaning(e, MeaningOf(e))
  {
    var m := MeaningOf(e);
    assert m.ctors.Keys == e.rank.Keys;
    assert m.decos.Keys == e.decoRank.Keys;
    forall n | n in e.rank ensures m.ctors[n] == EvalCtor(e, m, n) { CtorMeaningStays(e, Height(e), n); }
    forall d | d in e.decoRank ensures m.decos[d] == EvalDecorator(e, m, d) { DecoratorMeaningStays(e, Height(e), d); }
  }

  lemma MeaningsCoincide(e: Env, m: Meaning, m': Meaning, level: nat)
    requires Layered(e) && IsMeaning(e, m) && IsMeaning(e, m')
    ensures SameBelow(e, m, m', level)
  {
    if level > 0 {
      MeaningsCoincide(e, m, m', level - 1);
      forall n | n in e.rank && e.rank[n] < level ensures m.Ctor(n) == m'.Ctor(n) {
        if e.rank[n] == level - 1 { SameCtor(e, m, m', n); }
      }
      forall d | d in e.decoRank && e.decoRank[d] < level ensures m.Decorator(d) == m'.Decorator(d) {
        if e.decoRank[d] == level - 1 { SameDecorator(e, m, m', d); }
      }
    }
  }

  lemma SameTables(e: Env, m: Meaning, m': Meaning, h: nat)
    requires m.ctors.Keys == m'.ctors.Keys == e.rank.Keys && m.decos.Keys == m'.decos.Keys == e.decoRank.Keys
    requires SameBelow(e, m, m', h)
    requires (forall n :: n in e.rank ==> e.rank[n] < h) && forall d :: d in e.decoRank ==> e.decoRank[d] < h
    ensures m == m'
  {
    forall n | n in e.rank ensures m.ctors[n] == m'.ctors[n] {
      assert m.Ctor(n) == m'.Ctor(n);
    }
    forall d | d in e.decoRank ensures m.decos[d] == m'.decos[d] {
      assert m.Decorator(d) == m'.Decorator(d);
    }
  }

  /** No other meaning is possible. */
  lemma MeaningIsUnique(e: Env, m: Meaning, m': Meaning)
    requires Layered(e) && IsMeaning(e, m) && IsMeaning(e, m')
    ensures m == m'
  {
    MeaningsCoincide(e, m, m', Height(e));
    SameTables(e, m, m', Height(e));
  }
}
