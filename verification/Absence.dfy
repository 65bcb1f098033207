/** Optional parameters: when a type that nobody provides makes an optional parameter zero, although the parameter has
    a provider (param.go, constructor.go, error.go). */
module Absence {
  import opened Values
  import opened ResultTree
  import opened Extraction
  import opened Registry
  import opened Registration
  import opened RegistrationInvariant
  import opened Resolver
  import opened Evaluator
  import opened Returned

  // ---------------------------------------------------------------------------------------------
  // Types that nobody provides

  /** The parameter asks for a single value of `k`, at any depth, and cannot do without. */
  ghost predicate Requires(p: Param, k: Key) {
    match p
    case SingleParam(key, optional) => key == k && !optional
    case GroupParam(_, _, _, _) => false
    case ObjectParam(fields) => exists i :: 0 <= i < |fields| && Requires(fields[i].param, k)
  }

  ghost predicate ListRequires(ps: seq<Param>, k: Key) {
    exists i :: 0 <= i < |ps| && Requires(ps[i], k)
  }

  /** No scope from `c` up to the root provides `k`. */
  ghost predicate Unseen(reg: Registry, c: nat, k: Key) {
    forall a :: a in reg.PathToRoot(c) ==> reg.Providers(a, k) == []
  }

  lemma {:induction false} NoProvidersOn(reg: Registry, path: seq<nat>, k: Key)
    ensures reg.ProvidersOn(path, k) == [] <==> forall a :: a in path ==> reg.Providers(a, k) == []
  {
    if path != [] {
      NoProvidersOn(reg, path[1..], k);
      assert forall a :: a in path <==> a == path[0] || a in path[1..];
    }
  }

  lemma UnseenIs(reg: Registry, c: nat, k: Key)
    ensures reg.AllProviders(c, k) == [] <==> Unseen(reg, c, k)
  {
    NoProvidersOn(reg, reg.PathToRoot(c), k);
  }

  lemma {:induction false} MissingIs(e: Env, st: Store, p: Param, c: nat, k: Key)
    ensures k in e.Missing(st, p, c) <==> Requires(p, k) && Unseen(e.reg, c, k) && Slot(c, k) !in st.decorated
    decreases p, 1
  {
    hide Unseen, Registry.AllProviders;
    match p
    case SingleParam(key, optional) => UnseenIs(e.reg, c, key);
    case GroupParam(_, _, _, _) =>
    case ObjectParam(fields) => MissingFieldsAre(e, st, fields, c, k);
  }

  lemma {:induction false} MissingFieldsAre(e: Env, st: Store, fields: seq<ParamField>, c: nat, k: Key)
    ensures k in e.MissingFields(st, fields, c) <==>
              (exists i :: 0 <= i < |fields| && Requires(fields[i].param, k)) && Unseen(e.reg, c, k)
              && Slot(c, k) !in st.decorated
    decreases fields, 0
  {
    hide Unseen, Requires;
    if fields != [] {
      assert (fields[0] decreases to fields[0].param);
      MissingIs(e, st, fields[0].param, c, k);
      MissingFieldsAre(e, st, fields[1..], c, k);
      assert forall i :: 1 <= i < |fields| ==> fields[i] == fields[1..][i - 1];
      if i :| 0 <= i < |fields[1..]| && Requires(fields[1..][i].param, k) { assert Requires(fields[i + 1].param, k); }
    }
  }

  /** The missing types of a parameter list are the required ones, at any depth, that no scope up to the root provides
      and that have no decorated value in the scope itself. */
  lemma {:induction false} MissingListIs(e: Env, st: Store, ps: seq<Param>, c: nat, k: Key)
    ensures k in e.MissingList(st, ps, c) <==>
              ListRequires(ps, k) && Unseen(e.reg, c, k) && Slot(c, k) !in st.decorated
  {
    hide Unseen, Requires;
    if ps != [] {
      MissingIs(e, st, ps[0], c, k);
      MissingListIs(e, st, ps[1..], c, k);
      assert forall i :: 1 <= i < |ps| ==> ps[i] == ps[1..][i - 1];
      if i :| 0 <= i < |ps[1..]| && Requires(ps[1..][i], k) { assert Requires(ps[i + 1], k); }
    }
  }

  lemma {:induction false} UnprovidedIsMissing(e: Env, p: Param, c: nat)
    ensures Unprovided(e.reg, p, c) == e.Missing(Empty, p, c)
    decreases p, 1
  {
    if p.ObjectParam? { UnprovidedFieldsAreMissing(e, p.fields, c); }
  }

  lemma {:induction false} UnprovidedFieldsAreMissing(e: Env, fields: seq<ParamField>, c: nat)
    ensures UnprovidedFields(e.reg, fields, c) == e.MissingFields(Empty, fields, c)
    decreases fields, 0
  {
    if fields != [] {
      assert (fields[0] decreases to fields[0].param);
      UnprovidedIsMissing(e, fields[0].param, c);
      UnprovidedFieldsAreMissing(e, fields[1..], c);
    }
  }

  lemma {:induction false} UnprovidedAreMissing(e: Env, ps: seq<Param>, c: nat)
    ensures UnprovidedList(e.reg, ps, c) == e.MissingList(Empty, ps, c)
  {
    if ps != [] {
      UnprovidedIsMissing(e, ps[0], c);
      UnprovidedAreMissing(e, ps[1..], c);
    }
  }

  /** For the evaluator: some required type is provided nowhere up to the root. */
  lemma {:induction false} UnprovidedListIs(e: Env, ps: seq<Param>, c: nat)
    ensures UnprovidedList(e.reg, ps, c) != [] <==> exists k :: ListRequires(ps, k) && Unseen(e.reg, c, k)
  {
    hide ListRequires, Unseen, Env.MissingList, UnprovidedList;
    UnprovidedAreMissing(e, ps, c);
    var missing := e.MissingList(Empty, ps, c);
    HeadIsMember(missing);
    if missing != [] { MissingListIs(e, Empty, ps, c, missing[0]); }
    if k :| ListRequires(ps, k) && Unseen(e.reg, c, k) { MissingListIs(e, Empty, ps, c, k); }
  }

  // ---------------------------------------------------------------------------------------------
  // Failures that a missing type is the cause of, told by the registrations

  /** Constructor `n` fails for want of something: one of its required parameters has no provider; or all have, but the
      first that cannot be built fails for want of something; or its function returns an error that says so. */
  ghost predicate CtorLacks(e: Env, m: Meaning, n: nat)
    requires Layered(e) && n in e.rank
    decreases e.rank[n], 1, 0, 0
  {
    assert CtorLayered(e, n);
    var ctor := e.reg.ctors[n];
    || UnprovidedList(e.reg, ctor.params, ctor.orig) != []
    || ListLacks(e, m, ctor.params, ctor.orig, None, e.rank[n])
    || (var args := EvalList(e.reg, m, ctor.params, ctor.orig, None);
        args.Ok? && Blames(ctor.results, CtorReturns(e, n, args.value)))
  }

  /** The first error returned says that something is missing. */
  ghost predicate Blames(rl: ResultList, vals: seq<Value>)
    requires |vals| == |rl.indexes|
  {
    exists u: UserError :: FirstError(rl, vals, u) && u.missing
  }

  ghost predicate DecoratorLacks(e: Env, m: Meaning, d: nat)
    requires Layered(e) && d in e.decoRank
    decreases e.decoRank[d], 1, 0, 0
  {
    assert DecoratorLayered(e, d);
    var deco := e.reg.decos[d];
    || UnprovidedList(e.reg, deco.params, deco.scope) != []
    || ListLacks(e, m, deco.params, deco.scope, Some(d), e.decoRank[d])
    || (var args := EvalList(e.reg, m, deco.params, deco.scope, Some(d));
        args.Ok? && Blames(deco.results, DecoratorReturns(e, d, args.value)))
  }

  /** The first of the parameters that cannot be built */
  ghost predicate ListLacks(e: Env, m: Meaning, ps: seq<Param>, c: nat, self: Option<nat>, level: nat)
    requires Layered(e) && Under(e, ListLeaves(ps), c, self, level)
    decreases level, 0, ListSize(ps), 0
  {
    ps != [] &&
    (|| ParamLacks(e, m, ps[0], c, self, level)
     || (Eval(e.reg, m, ps[0], c, self).Ok? && ListLacks(e, m, ps[1..], c, self, level)))
  }

  ghost predicate ParamLacks(e: Env, m: Meaning, p: Param, c: nat, self: Option<nat>, level: nat)
    requires Layered(e) && Under(e, Leaves(p), c, self, level)
    decreases level, 0, Size(p), 1
  {
    match p
    case SingleParam(k, optional) => SingleLacks(e, m, k, optional, c, self, level)
    case GroupParam(_, elem, slice, _) => GroupLacks(e, m, elem, slice, c, self, level)
    case ObjectParam(fields) =>
      BuildOrderKeeps(fields);
      FieldsLack(e, m, BuildOrder(fields), c, self, level)
  }

  ghost predicate FieldsLack(e: Env, m: Meaning, fields: seq<ParamField>, c: nat, self: Option<nat>, level: nat)
    requires Layered(e) && Under(e, FieldLeaves(fields), c, self, level)
    decreases level, 0, FieldSize(fields), 0
  {
    fields != [] &&
    (var init, last := fields[..|fields| - 1], fields[|fields| - 1];
     FieldConcat(init, [last]);
     assert fields == init + [last];
     || FieldsLack(e, m, init, c, self, level)
     || (EvalFields(e.reg, m, init, c, self).Ok? && ParamLacks(e, m, last.param, c, self, level)))
  }

  /** A decorated value: the closest decorator. Otherwise the providers in the closest scope that has any; but an
      optional parameter does not pass it on. */
  ghost predicate SingleLacks(e: Env, m: Meaning, k: Key, optional: bool, c: nat, self: Option<nat>, level: nat)
    requires Layered(e) && Under(e, {k}, c, self, level)
    decreases level, 0, 1, 0
  {
    var path := e.reg.PathToRoot(c);
    var a := ApplyingScope(e.reg, k, path, self);
    if a.Some? then DecoratorLacks(e, m, e.reg.decorators[Slot(a.value, k)])
    else !optional && ProvidersLack(e, m, k, c, self, level)
  }

  ghost predicate ProvidersLack(e: Env, m: Meaning, k: Key, c: nat, self: Option<nat>, level: nat)
    requires Layered(e) && Under(e, {k}, c, self, level)
    decreases level, 0, 0, |ProvidersAt(e.reg, k, c)| + 1
  {
    NearestBelow(e, k, c, level);
    FirstLacks(e, m, ProvidersAt(e.reg, k, c), level)
  }

  /** The providers in the closest scope that has any */
  function ProvidersAt(reg: Registry, k: Key, c: nat): seq<nat> {
    var s := ProvidingScope(reg, k, reg.PathToRoot(c));
    if s.Some? then reg.Providers(s.value, k) else []
  }

  /** It is the closest: scopes before it on the way to the root provide nothing. */
  lemma {:induction false} ClosestProvides(reg: Registry, k: Key, path: seq<nat>)
    ensures match ProvidingScope(reg, k, path)
            case None => forall a :: a in path ==> reg.Providers(a, k) == []
            case Some(s) => exists i :: 0 <= i < |path| && path[i] == s && reg.Providers(s, k) != []
                                        && forall j :: 0 <= j < i ==> reg.Providers(path[j], k) == []
  {
    if path != [] && reg.Providers(path[0], k) == [] {
      ClosestProvides(reg, k, path[1..]);
      assert forall a :: a in path <==> a == path[0] || a in path[1..];
      assert forall j :: 1 <= j < |path| ==> path[j] == path[1..][j - 1];
      var s := ProvidingScope(reg, k, path[1..]);
      if s.Some? {
        var i :| 0 <= i < |path[1..]| && path[1..][i] == s.value && reg.Providers(s.value, k) != []
                 && forall j :: 0 <= j < i ==> reg.Providers(path[1..][j], k) == [];
        assert path[i + 1] == s.value;
      }
    }
  }

  lemma NearestBelow(e: Env, k: Key, c: nat, level: nat)
    requires e.Below({k}, c, level)
    ensures CtorsBelow(e, ProvidersAt(e.reg, k, c), level)
  {
    var s := ProvidingScope(e.reg, k, e.reg.PathToRoot(c));
    if s.Some? { e.BelowProviders(k, c, s.value, level); }
  }

  /** The first of the constructors that fails */
  ghost predicate FirstLacks(e: Env, m: Meaning, ns: seq<nat>, level: nat)
    requires Layered(e) && CtorsBelow(e, ns, level)
    decreases level, 0, 0, |ns|
  {
    ns != [] &&
    (assert ns[0] in ns;
     || CtorLacks(e, m, ns[0])
     || (m.Ctor(ns[0]).Ok? && FirstLacks(e, m, ns[1..], level)))
  }

  /** The outermost decorator of the group that fails; or else, if the slice is not decorated, the first provider that
      fails */
  ghost predicate GroupLacks(e: Env, m: Meaning, elem: Key, slice: Key, c: nat, self: Option<nat>, level: nat)
    requires Layered(e) && Under(e, {elem}, c, self, level)
    decreases level, 0, 1, 0
  {
    var path := e.reg.PathToRoot(c);
    || GroupDecoratorLacks(e, m, elem, path, self, level)
    || (&& GroupDecoratorFailure(e.reg, m, elem, path, self).None?
        && DecoratedSlice(e.reg, m, elem, slice, path, self).None?
        && ProvidersOfGroupLack(e, m, elem, c, level))
  }

  ghost predicate ProvidersOfGroupLack(e: Env, m: Meaning, elem: Key, c: nat, level: nat)
    requires Layered(e) && e.Below({elem}, c, level)
    decreases level, 0, 0, |e.reg.AllProviders(c, elem)| + 1
  {
    FirstLacks(e, m, e.reg.AllProviders(c, elem), level)
  }

  ghost predicate GroupDecoratorLacks(e: Env, m: Meaning, elem: Key, path: seq<nat>, self: Option<nat>, level: nat)
    requires Layered(e) && DecoratorsUnder(e, elem, path, self, level)
    decreases level, 0, 0, |path|
  {
    path != [] &&
    (|| GroupDecoratorLacks(e, m, elem, path[1..], self, level)
     || (&& GroupDecoratorFailure(e.reg, m, elem, path[1..], self).None?
         && Applies(e.reg, elem, path[0], self)
         && (assert path[0] in path;
             DecoratorLacks(e, m, e.reg.decorators[Slot(path[0], elem)]))))
  }

  // ---------------------------------------------------------------------------------------------
  // These are exactly the failures that an optional parameter tolerates

  /** A failure in whose chain there is a missing dependency */
  predicate Tolerable<T>(r: Try<T>) {
    r.Fail? && r.error.HasMissing()
  }

  lemma {:induction false} CtorLacksIff(e: Env, m: Meaning, n: nat)
    requires Layered(e) && IsMeaning(e, m) && n in e.rank
    ensures CtorLacks(e, m, n) <==> Tolerable(m.Ctor(n))
    decreases e.rank[n], 1, 0, 0
  {
    hide EvalList, UnprovidedList, ListLacks, Produce, FirstError, Under;
    assert CtorLayered(e, n);
    var ctor := e.reg.ctors[n];
    assert m.Ctor(n) == EvalCtor(e, m, n);
    ListLacksIff(e, m, ctor.params, ctor.orig, None, e.rank[n]);
    var args := EvalList(e.reg, m, ctor.params, ctor.orig, None);
    if args.Ok? { ProduceFails(ctor.results, CtorReturns(e, n, args.value)); }
  }

  lemma {:induction false} DecoratorLacksIff(e: Env, m: Meaning, d: nat)
    requires Layered(e) && IsMeaning(e, m) && d in e.decoRank
    ensures DecoratorLacks(e, m, d) <==> Tolerable(m.Decorator(d))
    decreases e.decoRank[d], 1, 0, 0
  {
    hide EvalList, UnprovidedList, ListLacks, ExtractFrom, FirstError, Under;
    assert DecoratorLayered(e, d);
    var deco := e.reg.decos[d];
    assert m.Decorator(d) == EvalDecorator(e, m, d);
    ListLacksIff(e, m, deco.params, deco.scope, Some(d), e.decoRank[d]);
    var args := EvalList(e.reg, m, deco.params, deco.scope, Some(d));
    if args.Ok? { ExtractionFails(deco.results, true, DecoratorReturns(e, d, args.value)); }
  }

  lemma {:induction false} ListLacksIff(e: Env, m: Meaning, ps: seq<Param>, c: nat, self: Option<nat>, level: nat)
    requires Layered(e) && IsMeaning(e, m) && Under(e, ListLeaves(ps), c, self, level)
    ensures ListLacks(e, m, ps, c, self, level) <==> Tolerable(EvalList(e.reg, m, ps, c, self))
    decreases level, 0, ListSize(ps), 0
  {
    hide Eval, ParamLacks, Layered, IsMeaning;
    if ps != [] {
      ParamLacksIff(e, m, ps[0], c, self, level);
      ListLacksIff(e, m, ps[1..], c, self, level);
    }
  }

  lemma {:induction false} ParamLacksIff(e: Env, m: Meaning, p: Param, c: nat, self: Option<nat>, level: nat)
    requires Layered(e) && IsMeaning(e, m) && Under(e, Leaves(p), c, self, level)
    ensures ParamLacks(e, m, p, c, self, level) <==> Tolerable(Eval(e.reg, m, p, c, self))
    decreases level, 0, Size(p), 1
  {
    hide EvalSingle, EvalGroup, EvalFields, SingleLacks, GroupLacks, FieldsLack, Layered, IsMeaning;
    match p
    case SingleParam(k, optional) => SingleLacksIff(e, m, k, optional, c, self, level);
    case GroupParam(_, elem, slice, _) => GroupLacksIff(e, m, elem, slice, c, self, level);
    case ObjectParam(fields) =>
      BuildOrderKeeps(fields);
      FieldsLackIff(e, m, BuildOrder(fields), c, self, level);
  }

  lemma {:induction false} FieldsLackIff(e: Env, m: Meaning, fields: seq<ParamField>, c: nat, self: Option<nat>,
          level: nat)
    requires Layered(e) && IsMeaning(e, m) && Under(e, FieldLeaves(fields), c, self, level)
    ensures FieldsLack(e, m, fields, c, self, level) <==> Tolerable(EvalFields(e.reg, m, fields, c, self))
    decreases level, 0, FieldSize(fields), 0
  {
    hide Eval, ParamLacks, Layered, IsMeaning;
    if fields != [] {
      var init, last := fields[..|fields| - 1], fields[|fields| - 1];
      FieldConcat(init, [last]);
      assert fields == init + [last];
      FieldsLackIff(e, m, init, c, self, level);
      ParamLacksIff(e, m, last.param, c, self, level);
    }
  }

  lemma {:induction false} SingleLacksIff(e: Env, m: Meaning, k: Key, optional: bool, c: nat, self: Option<nat>,
          level: nat)
    requires Layered(e) && IsMeaning(e, m) && Under(e, {k}, c, self, level)
    ensures SingleLacks(e, m, k, optional, c, self, level) <==> Tolerable(EvalSingle(e.reg, m, k, optional, c, self))
    decreases level, 0, 1, 0
  {
    hide DecoratorLacks, FirstLacks, Layered, IsMeaning;
    var a := ApplyingScope(e.reg, k, e.reg.PathToRoot(c), self);
    if a.Some? {
      DecoratorLacksIff(e, m, e.reg.decorators[Slot(a.value, k)]);
    } else {
      NearestBelow(e, k, c, level);
      FirstLacksIff(e, m, ProvidersAt(e.reg, k, c), level);
    }
  }

  lemma {:induction false} FirstLacksIff(e: Env, m: Meaning, ns: seq<nat>, level: nat)
    requires Layered(e) && IsMeaning(e, m) && CtorsBelow(e, ns, level)
    ensures FirstLacks(e, m, ns, level) <==> m.FirstFailure(ns).Some? && m.FirstFailure(ns).value.1.HasMissing()
    decreases level, 0, 0, |ns|
  {
    hide CtorLacks, Layered, IsMeaning;
    if ns != [] {
      assert ns[0] in ns;
      CtorLacksIff(e, m, ns[0]);
      FirstLacksIff(e, m, ns[1..], level);
    }
  }

  lemma {:induction false} GroupLacksIff(e: Env, m: Meaning, elem: Key, slice: Key, c: nat, self: Option<nat>,
          level: nat)
    requires Layered(e) && IsMeaning(e, m) && Under(e, {elem}, c, self, level)
    ensures GroupLacks(e, m, elem, slice, c, self, level) <==> Tolerable(EvalGroup(e.reg, m, elem, slice, c, self))
    decreases level, 0, 1, 0
  {
    hide GroupDecoratorLacks, FirstLacks, Layered, IsMeaning, GroupDecoratorFailure, DecoratedSlice;
    GroupDecoratorLacksIff(e, m, elem, e.reg.PathToRoot(c), self, level);
    FirstLacksIff(e, m, e.reg.AllProviders(c, elem), level);
  }

  lemma {:induction false} GroupDecoratorLacksIff(e: Env, m: Meaning, elem: Key, path: seq<nat>, self: Option<nat>,
          level: nat)
    requires Layered(e) && IsMeaning(e, m) && DecoratorsUnder(e, elem, path, self, level)
    ensures var failed := GroupDecoratorFailure(e.reg, m, elem, path, self);
            GroupDecoratorLacks(e, m, elem, path, self, level) <==> failed.Some? && failed.value.HasMissing()
    decreases level, 0, 0, |path|
  {
    hide DecoratorLacks, Layered, IsMeaning;
    if path != [] {
      GroupDecoratorLacksIff(e, m, elem, path[1..], self, level);
      if Applies(e.reg, elem, path[0], self) {
        assert path[0] in path;
        DecoratorLacksIff(e, m, e.reg.decorators[Slot(path[0], elem)]);
      }
    }
  }

  // ---------------------------------------------------------------------------------------------
  // Optional and required parameters

  /** The constructor at `i` is the first that fails. */
  ghost predicate FailsFirst(m: Meaning, ns: seq<nat>, i: nat) {
    i < |ns| && m.Ctor(ns[i]).Fail? && forall j: nat :: j < i ==> m.Ctor(ns[j]).Ok?
  }

  lemma {:induction false} FirstFailureIs(m: Meaning, ns: seq<nat>, i: nat)
    requires FailsFirst(m, ns, i)
    ensures m.FirstFailure(ns) == Some((ns[i], m.Ctor(ns[i]).error))
  {
    if i > 0 {
      assert FailsFirst(m, ns[1..], i - 1) by {
        forall j: nat | j < i - 1 ensures m.Ctor(ns[1..][j]).Ok? { assert ns[1..][j] == ns[j + 1]; }
      }
      FirstFailureIs(m, ns[1..], i - 1);
    }
  }

  lemma {:induction false} NoFailure(m: Meaning, ns: seq<nat>)
    requires forall i :: 0 <= i < |ns| ==> m.Ctor(ns[i]).Ok?
    ensures m.FirstFailure(ns) == None
  {
    if ns != [] {
      forall i | 0 <= i < |ns[1..]| ensures m.Ctor(ns[1..][i]).Ok? { assert ns[1..][i] == ns[i + 1]; }
      NoFailure(m, ns[1..]);
    }
  }

  /** A value that is not decorated, asked for as optional and as required. If the first of its providers that fails
      does so for want of something, the optional parameter is zero and the required one fails; if it fails for
      another reason, both fail, with the same error. */
  lemma {:induction false} OptionalToleratesAbsence(e: Env, m: Meaning, k: Key, c: nat, self: Option<nat>, level: nat,
          i: nat)
    requires Layered(e) && IsMeaning(e, m) && Under(e, {k}, c, self, level)
    requires ApplyingScope(e.reg, k, e.reg.PathToRoot(c), self).None?
    requires FailsFirst(m, ProvidersAt(e.reg, k, c), i)
    ensures ProvidersAt(e.reg, k, c)[i] in e.rank
    ensures var n := ProvidersAt(e.reg, k, c)[i];
            var failure := Fail(ParamSingleFailed(k, ByCtor(n), m.Ctor(n).error));
            && EvalSingle(e.reg, m, k, false, c, self) == failure
            && EvalSingle(e.reg, m, k, true, c, self) == if CtorLacks(e, m, n) then Ok(Zero(k.t)) else failure
  {
    hide Layered, IsMeaning, CtorLacks;
    var ns := ProvidersAt(e.reg, k, c);
    NearestBelow(e, k, c, level);
    assert ns[i] in ns;
    FirstFailureIs(m, ns, i);
    CtorLacksIff(e, m, ns[i]);
  }

  /** If all its providers succeed, both are given the value of the last. */
  lemma {:induction false} ProvidedToBoth(e: Env, m: Meaning, k: Key, c: nat, self: Option<nat>, optional: bool)
    requires ApplyingScope(e.reg, k, e.reg.PathToRoot(c), self).None? && ProvidersAt(e.reg, k, c) != []
    requires forall i :: 0 <= i < |ProvidersAt(e.reg, k, c)| ==> m.Ctor(ProvidersAt(e.reg, k, c)[i]).Ok?
    ensures var ns := ProvidersAt(e.reg, k, c);
            var made := m.Ctor(ns[|ns| - 1]).value.values;
            EvalSingle(e.reg, m, k, optional, c, self) == Ok(if k in made then made[k] else NoValue)
  {
    NoFailure(m, ProvidersAt(e.reg, k, c));
  }

  /** The simplest want: a required parameter that nobody provides */
  lemma {:induction false} UnprovidedIsLacked(e: Env, m: Meaning, n: nat)
    requires Layered(e) && IsMeaning(e, m) && n in e.rank
    requires exists k :: ListRequires(e.reg.ctors[n].params, k) && Unseen(e.reg, e.reg.ctors[n].orig, k)
    ensures m.Ctor(n).Fail? && CtorLacks(e, m, n)
  {
    hide UnprovidedList, EvalList, ListRequires, Unseen;
    UnprovidedListIs(e, e.reg.ctors[n].params, e.reg.ctors[n].orig);
    assert m.Ctor(n) == EvalCtor(e, m, n);
  }

  /** A want is passed on: constructor `n` asks for `k` as required, all its parameters before can be built, and of the
      providers of `k` the first that fails lacks something. */
  lemma {:induction false} WantIsPassedOn(e: Env, m: Meaning, n: nat, p: nat, k: Key, i: nat)
    requires Layered(e) && IsMeaning(e, m) && n in e.rank
    requires var ctor := e.reg.ctors[n];
             && p < |ctor.params| && ctor.params[p] == SingleParam(k, false)
             && (forall q: nat :: q < p ==> Eval(e.reg, m, ctor.params[q], ctor.orig, None).Ok?)
             && ApplyingScope(e.reg, k, e.reg.PathToRoot(ctor.orig), None).None?
             && FailsFirst(m, ProvidersAt(e.reg, k, ctor.orig), i)
    ensures ProvidersAt(e.reg, k, e.reg.ctors[n].orig)[i] in e.rank
    ensures CtorLacks(e, m, ProvidersAt(e.reg, k, e.reg.ctors[n].orig)[i]) ==> m.Ctor(n).Fail? && CtorLacks(e, m, n)
  {
    hide CtorLayered, DecoratorLayered, IsMeaning, CtorLacks, Eval, EvalList, EvalSingle, UnprovidedList, ProvidersAt;
    var ctor := e.reg.ctors[n];
    ParamsUnder(e, n);
    LeafOfList(ctor.params, p);
    UnderLess(e, ListLeaves(ctor.params), {k}, ctor.orig, None, e.rank[n]);
    OptionalToleratesAbsence(e, m, k, ctor.orig, None, e.rank[n], i);
    var n' := ProvidersAt(e.reg, k, ctor.orig)[i];
    CtorLacksIff(e, m, n');
    CtorLacksIff(e, m, n);
    SingleIsEvaluated(e.reg, m, k, ctor.orig);
    if CtorLacks(e, m, n') {
      ListFailsAt(e.reg, m, ctor.params, ctor.orig, None, p);
      CtorFailsWith(e, m, n);
    }
  }

  lemma {:induction false} SingleIsEvaluated(reg: Registry, m: Meaning, k: Key, c: nat)
    ensures Eval(reg, m, SingleParam(k, false), c, None) == EvalSingle(reg, m, k, false, c, None)
  {}

  lemma ParamsUnder(e: Env, n: nat)
    requires Layered(e) && n in e.rank
    ensures n < |e.reg.ctors| && Under(e, ListLeaves(e.reg.ctors[n].params), e.reg.ctors[n].orig, None, e.rank[n])
  {
    assert CtorLayered(e, n);
  }

  lemma {:induction false} LeafOfList(ps: seq<Param>, i: nat)
    requires i < |ps|
    ensures Leaves(ps[i]) <= ListLeaves(ps)
  {
    if i > 0 { LeafOfList(ps[1..], i - 1); }
  }

  lemma UnderLess(e: Env, ks: set<Key>, ks': set<Key>, c: nat, self: Option<nat>, level: nat)
    requires Under(e, ks, c, self, level) && ks' <= ks
    ensures Under(e, ks', c, self, level)
  {}

  lemma {:induction false} ListFailsAt(reg: Registry, m: Meaning, ps: seq<Param>, c: nat, self: Option<nat>, p: nat)
    requires p < |ps| && Eval(reg, m, ps[p], c, self).Fail?
    requires forall q: nat :: q < p ==> Eval(reg, m, ps[q], c, self).Ok?
    ensures EvalList(reg, m, ps, c, self) == Fail(Eval(reg, m, ps[p], c, self).error)
  {
    hide Eval;
    if p > 0 {
      forall q: nat | q < p - 1 ensures Eval(reg, m, ps[1..][q], c, self).Ok? { assert ps[1..][q] == ps[q + 1]; }
      ListFailsAt(reg, m, ps[1..], c, self, p - 1);
    }
  }

  /** A constructor whose arguments fail with an error in which something is missing */
  lemma {:induction false} CtorFailsWith(e: Env, m: Meaning, n: nat)
    requires Tabled(e) && IsMeaning(e, m) && n in e.rank
    requires Tolerable(EvalList(e.reg, m, e.reg.ctors[n].params, e.reg.ctors[n].orig, None))
    ensures Tolerable(m.Ctor(n))
  {
    hide EvalList, UnprovidedList;
    assert m.Ctor(n) == EvalCtor(e, m, n);
  }

  /** An error of the user's own, in which nothing is missing, is passed on by optional parameters too. */
  lemma {:induction false} UserErrorIsPassedOn(e: Env, m: Meaning, k: Key, c: nat, self: Option<nat>, level: nat,
          i: nat, args: seq<Value>, u: UserError, optional: bool)
    requires Layered(e) && IsMeaning(e, m) && Under(e, {k}, c, self, level)
    requires ApplyingScope(e.reg, k, e.reg.PathToRoot(c), self).None?
    requires var ns := ProvidersAt(e.reg, k, c);
             && i < |ns| && ns[i] in e.rank && (forall j: nat :: j < i ==> m.Ctor(ns[j]).Ok?)
             && (var ctor := e.reg.ctors[ns[i]];
                 && UnprovidedList(e.reg, ctor.params, ctor.orig) == []
                 && EvalList(e.reg, m, ctor.params, ctor.orig, None) == Ok(args)
                 && FirstError(ctor.results, CtorReturns(e, ns[i], args), u) && !u.missing)
    ensures EvalSingle(e.reg, m, k, optional, c, self)
         == Fail(ParamSingleFailed(k, ByCtor(ProvidersAt(e.reg, k, c)[i]), ConstructorFailed(u)))
  {
    hide UnprovidedList, EvalList, FirstError, Produce, Under, CtorLayered, DecoratorLayered;
    var ns := ProvidersAt(e.reg, k, c);
    var n := ns[i];
    ProduceFails(e.reg.ctors[n].results, CtorReturns(e, n, args));
    assert m.Ctor(n) == EvalCtor(e, m, n);
    FirstFailureIs(m, ns, i);
  }

  /** So is the failure of a decorator, whatever its reason: optional or not, the parameter fails with it. */
  lemma DecoratorFailureIsPassedOn(reg: Registry, m: Meaning, k: Key, c: nat, self: Option<nat>, i: nat, optional: bool)
    requires var path := reg.PathToRoot(c);
             && i < |path| && Applies(reg, k, path[i], self) && m.Decorator(reg.decorators[Slot(path[i], k)]).Fail?
             && forall j: nat :: j < i ==> !Applies(reg, k, path[j], self)
    ensures EvalSingle(reg, m, k, optional, c, self)
         == Fail(ParamSingleFailed(k, Unnamed, m.Decorator(reg.decorators[Slot(reg.PathToRoot(c)[i], k)]).error))
  {
    ClosestApplies(reg, k, reg.PathToRoot(c), self, i);
  }

  lemma {:induction false} ClosestApplies(reg: Registry, k: Key, path: seq<nat>, self: Option<nat>, i: nat)
    requires i < |path| && Applies(reg, k, path[i], self) && forall j: nat :: j < i ==> !Applies(reg, k, path[j], self)
    ensures ApplyingScope(reg, k, path, self) == Some(path[i])
  {
    if i > 0 {
      forall j: nat | j < i - 1 ensures !Applies(reg, k, path[1..][j], self) { assert path[1..][j] == path[j + 1]; }
      ClosestApplies(reg, k, path[1..], self, i - 1);
    }
  }

  // ---------------------------------------------------------------------------------------------
  // Groups that fail

  /** At `i` there is the outermost decorator of the group that fails. */
  ghost predicate FailsOutermost(reg: Registry, m: Meaning, elem: Key, path: seq<nat>, self: Option<nat>, i: nat) {
    && i < |path| && Applies(reg, elem, path[i], self) && m.Decorator(reg.decorators[Slot(path[i], elem)]).Fail?
    && forall j :: i < j < |path| && Applies(reg, elem, path[j], self) ==>
         m.Decorator(reg.decorators[Slot(path[j], elem)]).Ok?
  }

  lemma {:induction false} OutermostFailureIs(reg: Registry, m: Meaning, elem: Key, path: seq<nat>, self: Option<nat>,
          i: nat)
    requires FailsOutermost(reg, m, elem, path, self, i)
    ensures var d := reg.decorators[Slot(path[i], elem)];
            GroupDecoratorFailure(reg, m, elem, path, self)
            == Some(ParamGroupFailed(elem, ByDecorator(d), m.Decorator(d).error))
  {
    if i == 0 {
      NoneFails(reg, m, elem, path[1..], self);
    } else {
      assert forall j :: 0 <= j < |path[1..]| ==> path[1..][j] == path[j + 1];
      OutermostFailureIs(reg, m, elem, path[1..], self, i - 1);
    }
  }

  lemma {:induction false} NoneFails(reg: Registry, m: Meaning, elem: Key, path: seq<nat>, self: Option<nat>)
    requires forall j :: 0 <= j < |path| && Applies(reg, elem, path[j], self) ==>
               m.Decorator(reg.decorators[Slot(path[j], elem)]).Ok?
    ensures GroupDecoratorFailure(reg, m, elem, path, self).None?
  {
    if path != [] {
      assert forall j :: 0 <= j < |path[1..]| ==> path[1..][j] == path[j + 1];
      NoneFails(reg, m, elem, path[1..], self);
    }
  }

  /** A group fails with the outermost of its decorators that fails; or else, if it is not decorated, with the first of
      its visible providers that fails. */
  lemma {:induction false} GroupFailsWith(reg: Registry, m: Meaning, elem: Key, slice: Key, c: nat, self: Option<nat>,
          i: nat)
    ensures FailsOutermost(reg, m, elem, reg.PathToRoot(c), self, i) ==>
              var d := reg.decorators[Slot(reg.PathToRoot(c)[i], elem)];
              EvalGroup(reg, m, elem, slice, c, self)
              == Fail(ParamGroupFailed(elem, ByDecorator(d), m.Decorator(d).error))
    ensures FailsFirst(m, reg.AllProviders(c, elem), i)
            && GroupDecoratorFailure(reg, m, elem, reg.PathToRoot(c), self).None?
            && DecoratedSlice(reg, m, elem, slice, reg.PathToRoot(c), self).None? ==>
              var n := reg.AllProviders(c, elem)[i];
              EvalGroup(reg, m, elem, slice, c, self) == Fail(ParamGroupFailed(elem, ByCtor(n), m.Ctor(n).error))
  {
    hide GroupDecoratorFailure, DecoratedSlice, Registry.AllProviders;
    if FailsOutermost(reg, m, elem, reg.PathToRoot(c), self, i) {
      OutermostFailureIs(reg, m, elem, reg.PathToRoot(c), self, i);
    }
    if FailsFirst(m, reg.AllProviders(c, elem), i) { FirstFailureIs(m, reg.AllProviders(c, elem), i); }
  }
}
