/** Registrations between Invokes: the container keeps what it has resolved, so that later registrations may be too
    late for it. */
module Later {
  import opened Values
  import opened ResultTree
  import opened Extraction
  import opened Registry
  import opened Registration
  import opened RegistrationInvariant
  import opened RegistrationSteps
  import opened Resolver
  import opened Evaluator
  import opened Refinement
  import opened Sessions
  import opened Runs
  import opened Coverage
  import opened Invocation
  import opened Guarantees
  import opened Machine
  import opened Digraph

  // ---------------------------------------------------------------------------------------------
  // Where two registries look alike

  /** From scope `c`, `k` has the same providers and decorators in the same scopes. */
  ghost predicate SameLookups(reg: Registry, reg': Registry, c: nat, k: Key) {
    && reg'.PathToRoot(c) == reg.PathToRoot(c)
    && forall s :: s in reg.PathToRoot(c) ==> SameAt(reg, reg', s, k)
  }

  ghost predicate SameAt(reg: Registry, reg': Registry, s: nat, k: Key) {
    && reg'.Providers(s, k) == reg.Providers(s, k)
    && (Slot(s, k) in reg'.decorators <==> Slot(s, k) in reg.decorators)
    && (Slot(s, k) in reg.decorators ==> reg'.decorators[Slot(s, k)] == reg.decorators[Slot(s, k)])
  }

  lemma {:induction false} SameOnPath(reg: Registry, reg': Registry, m: Meaning, k: Key, slice: Key, path: seq<nat>,
          self: Option<nat>)
    requires forall s :: s in path ==> SameAt(reg, reg', s, k)
    ensures ApplyingScope(reg', k, path, self) == ApplyingScope(reg, k, path, self)
    ensures ProvidingScope(reg', k, path) == ProvidingScope(reg, k, path)
    ensures reg'.ProvidersOn(path, k) == reg.ProvidersOn(path, k)
    ensures GroupDecoratorFailure(reg', m, k, path, self) == GroupDecoratorFailure(reg, m, k, path, self)
    ensures DecoratedSlice(reg', m, k, slice, path, self) == DecoratedSlice(reg, m, k, slice, path, self)
  {
    if path != [] {
      assert SameAt(reg, reg', path[0], k);
      SameOnPath(reg, reg', m, k, slice, path[1..], self);
    }
  }

  lemma SingleLooksAlike(reg: Registry, reg': Registry, m: Meaning, k: Key, optional: bool, c: nat, self: Option<nat>)
    requires SameLookups(reg, reg', c, k)
    ensures EvalSingle(reg', m, k, optional, c, self) == EvalSingle(reg, m, k, optional, c, self)
    ensures reg'.AllProviders(c, k) == reg.AllProviders(c, k)
  {
    var path := reg.PathToRoot(c);
    SameOnPath(reg, reg', m, k, k, path, self);
    var s, p := ApplyingScope(reg, k, path, self), ProvidingScope(reg, k, path);
    if s.Some? { assert SameAt(reg, reg', s.value, k); }
    if p.Some? { assert SameAt(reg, reg', p.value, k); }
  }

  lemma GroupLooksAlike(reg: Registry, reg': Registry, m: Meaning, elem: Key, slice: Key, c: nat, self: Option<nat>)
    requires SameLookups(reg, reg', c, elem)
    ensures EvalGroup(reg', m, elem, slice, c, self) == EvalGroup(reg, m, elem, slice, c, self)
  {
    SameOnPath(reg, reg', m, elem, slice, reg.PathToRoot(c), self);
  }

  ghost predicate AllAlike(reg: Registry, reg': Registry, c: nat, ks: set<Key>) {
    forall k :: k in ks ==> SameLookups(reg, reg', c, k)
  }

  lemma {:induction false} ParamLooksAlike(reg: Registry, reg': Registry, m: Meaning, p: Param, c: nat,
          self: Option<nat>)
    requires AllAlike(reg, reg', c, Leaves(p))
    ensures Eval(reg', m, p, c, self) == Eval(reg, m, p, c, self)
    decreases Size(p), 1
  {
    hide EvalSingle, EvalGroup, SameLookups;
    match p
    case SingleParam(k, optional) => SingleLooksAlike(reg, reg', m, k, optional, c, self);
    case GroupParam(_, elem, slice, _) => GroupLooksAlike(reg, reg', m, elem, slice, c, self);
    case ObjectParam(fields) =>
      BuildOrderKeeps(fields);
      FieldsLookAlike(reg, reg', m, BuildOrder(fields), c, self);
  }

  lemma {:induction false} FieldsLookAlike(reg: Registry, reg': Registry, m: Meaning, fields: seq<ParamField>, c: nat,
          self: Option<nat>)
    requires AllAlike(reg, reg', c, FieldLeaves(fields))
    ensures EvalFields(reg', m, fields, c, self) == EvalFields(reg, m, fields, c, self)
    decreases FieldSize(fields), 0
  {
    hide Eval, SameLookups;
    if fields != [] {
      var init, last := fields[..|fields| - 1], fields[|fields| - 1];
      FieldConcat(init, [last]);
      assert fields == init + [last];
      FieldsLookAlike(reg, reg', m, init, c, self);
      ParamLooksAlike(reg, reg', m, last.param, c, self);
    }
  }

  lemma {:induction false} UnprovidedLooksAlike(reg: Registry, reg': Registry, m: Meaning, p: Param, c: nat)
    requires AllAlike(reg, reg', c, Leaves(p))
    ensures Unprovided(reg', p, c) == Unprovided(reg, p, c)
    decreases p, 1
  {
    hide SameLookups;
    match p
    case SingleParam(k, optional) => SingleLooksAlike(reg, reg', m, k, optional, c, None);
    case GroupParam(_, _, _, _) =>
    case ObjectParam(fields) => UnprovidedFieldsLookAlike(reg, reg', m, fields, c);
  }

  lemma {:induction false} UnprovidedFieldsLookAlike(reg: Registry, reg': Registry, m: Meaning,
          fields: seq<ParamField>, c: nat)
    requires AllAlike(reg, reg', c, FieldLeaves(fields))
    ensures UnprovidedFields(reg', fields, c) == UnprovidedFields(reg, fields, c)
    decreases fields, 0
  {
    hide SameLookups;
    if fields != [] {
      assert (fields[0] decreases to fields[0].param);
      UnprovidedLooksAlike(reg, reg', m, fields[0].param, c);
      UnprovidedFieldsLookAlike(reg, reg', m, fields[1..], c);
    }
  }

  lemma {:induction false} ListLooksAlike(reg: Registry, reg': Registry, m: Meaning, ps: seq<Param>, c: nat,
          self: Option<nat>)
    requires AllAlike(reg, reg', c, ListLeaves(ps))
    ensures EvalList(reg', m, ps, c, self) == EvalList(reg, m, ps, c, self)
    ensures UnprovidedList(reg', ps, c) == UnprovidedList(reg, ps, c)
  {
    hide Eval, SameLookups;
    if ps != [] {
      ParamLooksAlike(reg, reg', m, ps[0], c, self);
      UnprovidedLooksAlike(reg, reg', m, ps[0], c);
      ListLooksAlike(reg, reg', m, ps[1..], c, self);
    }
  }

  // ---------------------------------------------------------------------------------------------
  // Registrations that leave alone what has been called

  /** All that may be needed for `ks` from scope `c` is among the constructors `ns` and the decorators `ds`. */
  ghost predicate Needs(e: Env, ks: set<Key>, c: nat, self: Option<nat>, ns: set<nat>, ds: set<nat>) {
    && (forall k, n :: k in ks && n in e.reg.AllProviders(c, k) ==> n in ns)
    && (forall k, s :: k in ks && s in e.reg.PathToRoot(c) && Applies(e.reg, k, s, self) ==>
          e.reg.decorators[Slot(s, k)] in ds)
  }

  /** The constructors `ns` and the decorators `ds` need nothing but each other. */
  ghost predicate SelfContained(e: Env, ns: set<nat>, ds: set<nat>)
    requires Tabled(e)
  {
    && ns <= e.rank.Keys && ds <= e.decoRank.Keys
    && (forall n :: n in ns ==> Needs(e, ListLeaves(e.reg.ctors[n].params), e.reg.ctors[n].orig, None, ns, ds))
    && (forall d :: d in ds ==> Needs(e, ListLeaves(e.reg.decos[d].params), e.reg.decos[d].scope, Some(d), ns, ds))
  }

  /** The part of `e` that consists of `ns` and `ds` */
  ghost function Part(e: Env, ns: set<nat>, ds: set<nat>): Env {
    e.(rank := map n | n in e.rank && n in ns :: e.rank[n],
       decoRank := map d | d in e.decoRank && d in ds :: e.decoRank[d])
  }

  lemma PartIsUnder(e: Env, ns: set<nat>, ds: set<nat>, ks: set<Key>, c: nat, self: Option<nat>, level: nat)
    requires Under(e, ks, c, self, level) && Needs(e, ks, c, self, ns, ds)
    ensures Under(Part(e, ns, ds), ks, c, self, level)
  {
    hide Registry.AllProviders, Registry.PathToRoot;
  }

  lemma PartIsLayered(e: Env, ns: set<nat>, ds: set<nat>)
    requires Layered(e) && SelfContained(e, ns, ds)
    ensures Layered(Part(e, ns, ds))
  {
    hide Under, Needs;
    var p := Part(e, ns, ds);
    forall n | n in p.rank ensures CtorLayered(p, n) {
      assert CtorLayered(e, n);
      PartIsUnder(e, ns, ds, ListLeaves(e.reg.ctors[n].params), e.reg.ctors[n].orig, None, e.rank[n]);
    }
    forall d | d in p.decoRank ensures DecoratorLayered(p, d) {
      assert DecoratorLayered(e, d);
      PartIsUnder(e, ns, ds, ListLeaves(e.reg.decos[d].params), e.reg.decos[d].scope, Some(d), e.decoRank[d]);
    }
  }

  /** `m` gives each constructor and decorator of `e` its outcome; it may have others. */
  ghost predicate Means(e: Env, m: Meaning)
    requires Tabled(e)
  {
    && (forall n :: n in e.rank ==> m.Ctor(n) == EvalCtor(e, m, n))
    && (forall d :: d in e.decoRank ==> m.Decorator(d) == EvalDecorator(e, m, d))
  }

  lemma PartMeans(e: Env, m: Meaning, ns: set<nat>, ds: set<nat>)
    requires Tabled(e) && IsMeaning(e, m)
    ensures Tabled(Part(e, ns, ds)) && Means(Part(e, ns, ds), m)
  {
    hide EvalList, UnprovidedList, Produce, ExtractFrom;
    var p := Part(e, ns, ds);
    forall n | n in p.rank ensures m.Ctor(n) == EvalCtor(p, m, n) { assert m.ctors[n] == EvalCtor(e, m, n); }
    forall d | d in p.decoRank ensures m.Decorator(d) == EvalDecorator(p, m, d) {
      assert m.decos[d] == EvalDecorator(e, m, d);
    }
  }

  /** `e'` has all that `e` has, and none of it looks for its dependencies anywhere else. */
  ghost predicate Undisturbed(e: Env, e': Env)
    requires Tabled(e) && Tabled(e')
  {
    && e'.world == e.world
    && (forall n :: n in e.rank ==>
          && n in e'.rank && e'.reg.ctors[n] == e.reg.ctors[n]
          && AllAlike(e.reg, e'.reg, e.reg.ctors[n].orig, ListLeaves(e.reg.ctors[n].params)))
    && (forall d :: d in e.decoRank ==>
          && d in e'.decoRank && e'.reg.decos[d] == e.reg.decos[d]
          && AllAlike(e.reg, e'.reg, e.reg.decos[d].scope, ListLeaves(e.reg.decos[d].params)))
  }

  lemma CtorUndisturbed(e: Env, e': Env, m: Meaning, m': Meaning, n: nat)
    requires Layered(e) && Tabled(e') && Undisturbed(e, e') && n in e.rank && SameBelow(e, m, m', e.rank[n])
    ensures EvalCtor(e', m', n) == EvalCtor(e, m, n)
  {
    hide AllAlike, SameBelow, CtorLayered, DecoratorLayered;
    SameCtor(e, m, m', n);
    ListLooksAlike(e.reg, e'.reg, m', e.reg.ctors[n].params, e.reg.ctors[n].orig, None);
  }

  lemma DecoratorUndisturbed(e: Env, e': Env, m: Meaning, m': Meaning, d: nat)
    requires Layered(e) && Tabled(e') && Undisturbed(e, e') && d in e.decoRank && SameBelow(e, m, m', e.decoRank[d])
    ensures EvalDecorator(e', m', d) == EvalDecorator(e, m, d)
  {
    hide AllAlike, SameBelow, CtorLayered, DecoratorLayered;
    SameDecorator(e, m, m', d);
    ListLooksAlike(e.reg, e'.reg, m', e.reg.decos[d].params, e.reg.decos[d].scope, Some(d));
  }

  lemma CtorStays(e: Env, e': Env, m: Meaning, m': Meaning, n: nat)
    requires Layered(e) && Tabled(e') && Undisturbed(e, e') && Means(e, m) && Means(e', m')
    requires n in e.rank && SameBelow(e, m, m', e.rank[n])
    ensures m.Ctor(n) == m'.Ctor(n)
  {
    hide AllAlike, SameBelow, Layered, EvalCtor, EvalDecorator;
    CtorUndisturbed(e, e', m, m', n);
  }

  lemma DecoratorStays(e: Env, e': Env, m: Meaning, m': Meaning, d: nat)
    requires Layered(e) && Tabled(e') && Undisturbed(e, e') && Means(e, m) && Means(e', m')
    requires d in e.decoRank && SameBelow(e, m, m', e.decoRank[d])
    ensures m.Decorator(d) == m'.Decorator(d)
  {
    hide AllAlike, SameBelow, Layered, EvalCtor, EvalDecorator;
    DecoratorUndisturbed(e, e', m, m', d);
  }

  /** What is undisturbed means what it meant. */
  lemma {:induction false} MeaningStays(e: Env, e': Env, m: Meaning, m': Meaning, level: nat)
    requires Layered(e) && Tabled(e') && Undisturbed(e, e') && Means(e, m) && Means(e', m')
    ensures SameBelow(e, m, m', level)
  {
    hide Layered, Tabled, Means, Undisturbed, Meaning.Ctor, Meaning.Decorator;
    if level > 0 {
      MeaningStays(e, e', m, m', level - 1);
      forall n | n in e.rank && e.rank[n] < level ensures m.Ctor(n) == m'.Ctor(n) {
        if e.rank[n] == level - 1 { CtorStays(e, e', m, m', n); }
      }
      forall d | d in e.decoRank && e.decoRank[d] < level ensures m.Decorator(d) == m'.Decorator(d) {
        if e.decoRank[d] == level - 1 { DecoratorStays(e, e', m, m', d); }
      }
    }
  }

  lemma {:induction false} CommittedStays(e: Env, e': Env, m: Meaning, m': Meaning, cs: seq<nat>, s: nat, k: Key)
    requires forall n :: n in cs ==> m'.Ctor(n) == m.Ctor(n) && CtorScope(e', n) == CtorScope(e, n)
    ensures Committed(e', m', cs, s, k) == Committed(e, m, cs, s, k)
  {
    if cs != [] {
      assert cs[|cs| - 1] in cs && forall n :: n in cs[..|cs| - 1] ==> n in cs;
      CommittedStays(e, e', m, m', cs[..|cs| - 1], s, k);
    }
  }

  /** The outcomes of the constructors `ns` and where they go stay. */
  ghost predicate CtorsStay(e: Env, e': Env, m: Meaning, m': Meaning, ns: set<nat>) {
    forall n :: n in ns ==> n in e'.rank && m'.Ctor(n) == m.Ctor(n) && CtorScope(e', n) == CtorScope(e, n)
  }

  ghost predicate DecoratorsStay(e: Env, e': Env, m: Meaning, m': Meaning, ds: set<nat>) {
    forall d :: d in ds ==>
      d in e'.decoRank && m'.Decorator(d) == m.Decorator(d) && DecoratorScope(e', d) == DecoratorScope(e, d)
  }

  /** Stores that were exact stay exact. */
  lemma ExactStays(e: Env, e': Env, m: Meaning, m': Meaning, st: Store)
    requires Exact(e, m, st)
    requires CtorsStay(e, e', m, m', st.called) && DecoratorsStay(e, e', m, m', st.states.Keys)
    ensures Exact(e', m', st)
  {
    hide ValuesExact, GroupsExact, DecoratedExact, DecoratedGroupsExact, CtorScope, DecoratorsStay, Meaning.Ctor;
    ValuesStay(e, e', m, m', st);
    GroupsStay(e, e', m, m', st);
    DecoratedStays(e, e', m, m', st);
    DecoratedGroupsStay(e, e', m, m', st);
  }

  lemma ValuesStay(e: Env, e': Env, m: Meaning, m': Meaning, st: Store)
    requires ValuesExact(e, m, st)
    requires forall n :: n in st.called ==> m'.Ctor(n) == m.Ctor(n) && CtorScope(e', n) == CtorScope(e, n)
    ensures ValuesExact(e', m', st)
  {
    hide CtorScope, Meaning.Ctor;
    forall slot | slot in st.values
      ensures exists n :: n in st.called && CtorScope(e', n) == slot.scope
                          && m'.Ctor(n).Ok? && slot.key in m'.Ctor(n).value.values
    {
      var n :| n in st.called && CtorScope(e, n) == slot.scope && m.Ctor(n).Ok? && slot.key in m.Ctor(n).value.values;
      assert CtorScope(e', n) == slot.scope;
    }
  }

  lemma GroupsStay(e: Env, e': Env, m: Meaning, m': Meaning, st: Store)
    requires GroupsExact(e, m, st)
    requires forall n :: n in st.commits ==> m'.Ctor(n) == m.Ctor(n) && CtorScope(e', n) == CtorScope(e, n)
    ensures GroupsExact(e', m', st)
  {
    hide CtorScope, Meaning.Ctor, Committed;
    forall slot: Slot
      ensures Committed(e', m', st.commits, slot.scope, slot.key) == Committed(e, m, st.commits, slot.scope, slot.key)
    {
      CommittedStays(e, e', m, m', st.commits, slot.scope, slot.key);
    }
  }

  lemma DecoratedStays(e: Env, e': Env, m: Meaning, m': Meaning, st: Store)
    requires DecoratedExact(e, m, st) && DecoratorsStay(e, e', m, m', st.states.Keys)
    ensures DecoratedExact(e', m', st)
  {
    hide DecoratorScope, LastSet, Meaning.Decorator;
    forall slot | slot in st.decorated
      ensures exists d :: IsCalled(st, d) && DecoratorScope(e', d) == slot.scope
                          && m'.Decorator(d).Ok? && LastSet(m'.Decorator(d).value, slot.key).Some?
    {
      var d :| IsCalled(st, d) && DecoratorScope(e, d) == slot.scope
               && m.Decorator(d).Ok? && LastSet(m.Decorator(d).value, slot.key).Some?;
      assert DecoratorScope(e', d) == slot.scope;
    }
  }

  lemma DecoratedGroupsStay(e: Env, e': Env, m: Meaning, m': Meaning, st: Store)
    requires DecoratedGroupsExact(e, m, st) && DecoratorsStay(e, e', m, m', st.states.Keys)
    ensures DecoratedGroupsExact(e', m', st)
  {
    hide DecoratorScope, LastSubmit, Meaning.Decorator;
    forall slot | slot in st.decoratedGroups
      ensures exists d :: IsCalled(st, d) && DecoratorScope(e', d) == slot.scope
                          && m'.Decorator(d).Ok? && LastSubmit(m'.Decorator(d).value, slot.key).Some?
    {
      var d :| IsCalled(st, d) && DecoratorScope(e, d) == slot.scope
               && m.Decorator(d).Ok? && LastSubmit(m.Decorator(d).value, slot.key).Some?;
      assert DecoratorScope(e', d) == slot.scope;
    }
  }

  lemma MeaningIsMeans(e: Env, m: Meaning)
    requires Tabled(e) && IsMeaning(e, m)
    ensures Means(e, m)
  {
    hide EvalCtor, EvalDecorator;
    assert forall n :: n in e.rank ==> m.Ctor(n) == m.ctors[n];
    assert forall d :: d in e.decoRank ==> m.Decorator(d) == m.decos[d];
  }

  lemma PartStays(e: Env, e': Env, m: Meaning, m': Meaning, ns: set<nat>, ds: set<nat>)
    requires Layered(e) && IsMeaning(e, m) && Tabled(e') && IsMeaning(e', m')
    requires SelfContained(e, ns, ds) && Tabled(Part(e, ns, ds)) && Undisturbed(Part(e, ns, ds), e')
    ensures SameBelow(Part(e, ns, ds), m, m', Height(Part(e, ns, ds)))
  {
    hide IsMeaning, CtorLayered, DecoratorLayered, Undisturbed, SelfContained, Means, Part, SameBelow;
    PartIsLayered(e, ns, ds);
    PartMeans(e, m, ns, ds);
    MeaningIsMeans(e', m');
    MeaningStays(Part(e, ns, ds), e', m, m', Height(Part(e, ns, ds)));
  }

  lemma OutcomesStay(e: Env, e': Env, m: Meaning, m': Meaning, ns: set<nat>, ds: set<nat>)
    requires Tabled(e) && Tabled(e') && SelfContained(e, ns, ds)
    requires Tabled(Part(e, ns, ds)) && Undisturbed(Part(e, ns, ds), e')
    requires SameBelow(Part(e, ns, ds), m, m', Height(Part(e, ns, ds)))
    ensures CtorsStay(e, e', m, m', ns) && DecoratorsStay(e, e', m, m', ds)
  {
    hide AllAlike, Needs, Meaning.Ctor, Meaning.Decorator;
    var p := Part(e, ns, ds);
    forall n | n in ns ensures n in e'.rank && m'.Ctor(n) == m.Ctor(n) && CtorScope(e', n) == CtorScope(e, n) {
      assert n in p.rank && p.rank[n] < Height(p);
    }
    forall d | d in ds
      ensures d in e'.decoRank && m'.Decorator(d) == m.Decorator(d) && DecoratorScope(e', d) == DecoratorScope(e, d)
    {
      assert d in p.decoRank && p.decoRank[d] < Height(p);
    }
  }

  /** Registrations that disturb nothing that what has been called depends on leave a settled container settled. */
  lemma SettledStays(e: Env, e': Env, m: Meaning, m': Meaning, st: Store, ns: set<nat>, ds: set<nat>)
    requires Layered(e) && IsMeaning(e, m) && Tabled(e') && IsMeaning(e', m') && Settled(e, m, st)
    requires SelfContained(e, ns, ds) && st.called <= ns && st.states.Keys <= ds
    requires Tabled(Part(e, ns, ds)) && Undisturbed(Part(e, ns, ds), e')
    ensures Settled(e', m', st)
  {
    hide Exact, IsMeaning, CtorLayered, DecoratorLayered, Tabled, Undisturbed, SelfContained, Part, SameBelow,
         Meaning.Ctor, Meaning.Decorator;
    PartStays(e, e', m, m', ns, ds);
    OutcomesStay(e, e', m, m', ns, ds);
    ExactStays(e, e', m, m', st);
  }

  // ---------------------------------------------------------------------------------------------
  // Runs

  /** The constructors `ns` have been provided, and include all the providers that any of them can see for its
      parameters. */
  ghost predicate Contained(reg: Registry, ns: set<nat>) {
    && (forall n :: n in ns ==> Joined(reg, n))
    && (forall n, k, m ::
          (n in ns && k in ListLeaves(reg.ctors[n].params) && m in reg.AllProviders(reg.ctors[n].orig, k)) ==> m in ns)
  }

  /** None of the constructors `ns` has a parameter whose providers, as it sees them, are others afterwards. */
  ghost predicate Quiet(reg: Registry, reg': Registry, ns: set<nat>)
    requires Contained(reg, ns)
  {
    forall n :: n in ns ==> AllAlike(reg, reg', reg.ctors[n].orig, ListLeaves(reg.ctors[n].params))
  }

  /** What has been called depends on nothing whose providers are others afterwards. */
  ghost predicate Spares(reg: Registry, reg': Registry, st: Store) {
    exists ns :: st.called <= ns && Contained(reg, ns) && Quiet(reg, reg', ns)
  }

  lemma ContainedIsSelfContained(world: World, reg: Registry, ns: set<nat>)
    requires Contained(reg, ns) && reg.decorators == map[] && Tabled(SeenFromAll(world, reg))
    ensures SelfContained(SeenFromAll(world, reg), ns, {})
  {
    hide OverallRank, Tabled, Registry.AllProviders, Registry.PathToRoot;
  }

  lemma PartTabled(e: Env, ns: set<nat>, ds: set<nat>)
    requires Tabled(e)
    ensures Tabled(Part(e, ns, ds))
  {}

  lemma QuietIsUndisturbed(world: World, reg: Registry, reg': Registry, ns: set<nat>)
    requires Extends(reg, reg') && Contained(reg, ns) && Quiet(reg, reg', ns)
    requires Tabled(Part(SeenFromAll(world, reg), ns, {})) && Tabled(SeenFromAll(world, reg'))
    ensures Undisturbed(Part(SeenFromAll(world, reg), ns, {}), SeenFromAll(world, reg'))
  {
    hide AllAlike, Tabled, OverallRank;
    var p, e' := Part(SeenFromAll(world, reg), ns, {}), SeenFromAll(world, reg');
    forall n | n in p.rank
      ensures n in e'.rank && e'.reg.ctors[n] == p.reg.ctors[n]
      ensures AllAlike(p.reg, e'.reg, p.reg.ctors[n].orig, ListLeaves(p.reg.ctors[n].params))
    {
      assert Joined(reg, n) && Joined(reg', n);
    }
  }

  ghost predicate Usual(reg: Registry) {
    Good(reg) && Default(reg) && Ordinary(reg) && reg.decorators == map[]
  }

  lemma UsualIsSound(world: World, reg: Registry)
    requires Usual(reg)
    ensures var e := SeenFromAll(world, reg); e.Closed() && Layered(e) && Sound(e, MeaningOf(e))
  {
    hide Tables, FlagsSound, OverallRank, Default, Sound, Layered, Ordinary;
    DefaultCoversAllScopes(world, reg);
    DecoratorFreeIsSound(SeenFromAll(world, reg));
  }

  /** The container is settled as all its scopes see it. */
  ghost predicate UsualSettled(world: World, reg: Registry, st: Store) {
    && Usual(reg)
    && Layered(SeenFromAll(world, reg))
    && Settled(SeenFromAll(world, reg), MeaningOf(SeenFromAll(world, reg)), st)
  }

  lemma NothingStarted(e: Env, m: Meaning, st: Store)
    requires Settled(e, m, st) && e.decoRank == map[]
    ensures st.states.Keys == {}
  {}

  lemma SeenFromAllIs(world: World, reg: Registry, c: nat)
    ensures var e := SeenFromAll(world, reg);
            e.world == world && e.reg == reg && e.decoRank == map[] && (c in e.scopes <==> c < |reg.parents|)
  {}

  /** Registrations that spare what has been called keep it settled. */
  lemma SparedStaysSettled(world: World, reg: Registry, reg': Registry, st: Store)
    requires UsualSettled(world, reg, st) && Usual(reg') && Extends(reg, reg') && Spares(reg, reg', st)
    ensures UsualSettled(world, reg', st)
  {
    hide Settled, SeenFromAll, MeaningOf, Good, Default, Ordinary, Quiet, Contained, CtorLayered, DecoratorLayered,
         Tabled, ParamsPlain, DecoratorsTidy, SlicesWellFormed, WritesItsKeys, ProvidersUnique, Extends, IsMeaning,
         Env.Closed, Part, Undisturbed, SelfContained;
    var ns :| st.called <= ns && Contained(reg, ns) && Quiet(reg, reg', ns);
    var e, e' := SeenFromAll(world, reg), SeenFromAll(world, reg');
    UsualIsSound(world, reg);
    UsualIsSound(world, reg');
    SeenFromAllIs(world, reg, 0);
    NothingStarted(e, MeaningOf(e), st);
    ContainedIsSelfContained(world, reg, ns);
    PartTabled(e, ns, {});
    QuietIsUndisturbed(world, reg, reg', ns);
    SettledStays(e, e', MeaningOf(e), MeaningOf(e'), st, ns, {});
  }

  /** An Invoke changes nothing of what makes a container usual, and no lookup. */
  lemma InvokedIsQuiet(world: World, reg: Registry, c: nat, specs: seq<ParamSpec>, st: Store)
    requires Usual(reg) && c < |reg.parents| && Checked(world, reg, c, specs)
    ensures var reg' := InvokedFrom(world, reg, c, specs, st).1;
            && Usual(reg') && Extends(reg, reg') && reg'.parents == reg.parents
            && reg'.providers == reg.providers && reg'.decorators == reg.decorators
  {
    hide Inv, DecoratorsListed, Checked, InvokedFrom, Default, Ordinary, Extends;
    InvokedKeepsGood(world, reg, c, specs, st);
    var missing := InvokedFromIsStep(world, reg, c, specs, st);
    StepExtends(reg, InvokeOp(c, specs, missing));
    InvokedTables(reg, c, specs, missing);
  }

  lemma SameTablesSpare(world: World, reg: Registry, reg': Registry, st: Store)
    requires UsualSettled(world, reg, st)
    requires reg'.parents == reg.parents && reg'.providers == reg.providers && reg'.decorators == reg.decorators
    ensures Spares(reg, reg', st)
  {
    hide Inv, DecoratorsListed, Default, Ordinary, MeaningOf, OverallRank, AllAlike, ValuesExact, GroupsExact,
         DecoratedExact, DecoratedGroupsExact, Layered;
    var ns := SeenFromAll(world, reg).rank.Keys;
    AllContained(world, reg);
    forall n | n in ns ensures AllAlike(reg, reg', reg.ctors[n].orig, ListLeaves(reg.ctors[n].params)) {
      SameTablesAlike(reg, reg', reg.ctors[n].orig, ListLeaves(reg.ctors[n].params));
    }
    assert st.called <= ns && Quiet(reg, reg', ns);
  }

  lemma SameTablesAlike(reg: Registry, reg': Registry, c: nat, ks: set<Key>)
    requires reg'.parents == reg.parents && reg'.providers == reg.providers && reg'.decorators == reg.decorators
    ensures AllAlike(reg, reg', c, ks)
  {
    assert forall s, k :: SameAt(reg, reg', s, k);
  }

  lemma AllContained(world: World, reg: Registry)
    requires Good(reg)
    ensures Contained(reg, SeenFromAll(world, reg).rank.Keys)
  {
    hide FlagsSound, DecoratorsListed, OverallRank, Tables;
    InvFacts(reg);
    var ns := SeenFromAll(world, reg).rank.Keys;
    forall n, k, m | n in ns && k in ListLeaves(reg.ctors[n].params) && m in reg.AllProviders(reg.ctors[n].orig, k)
      ensures m in ns
    {
      ProvidersOnMember(reg, reg.PathToRoot(reg.ctors[n].orig), k, m);
      var s :| s in reg.PathToRoot(reg.ctors[n].orig) && m in reg.Providers(s, k);
      ListedIsJoined(reg, s, k, m);
    }
  }

  lemma InvokedTables(reg: Registry, c: nat, specs: seq<ParamSpec>, missing: bool)
    requires Good(reg) && c < |reg.parents|
    ensures var reg' := Step(reg, InvokeOp(c, specs, missing));
            && reg'.parents == reg.parents && reg'.providers == reg.providers && reg'.decorators == reg.decorators
            && (Default(reg) ==> Default(reg')) && (Ordinary(reg) ==> Ordinary(reg'))
  {
    hide Grown, FlagsSound, CtorsOrdered, GroupsOrdered, ProvidersListed, ProvidersPlaced, CtorsListed, ProvidersApart,
         OrdersScoped, DecoratorsListed, IsDag, GraphOf;
    var reg1 := NewParams(reg, c, specs).1;
    NewParamsGrow(reg, c, specs);
    GrownFields(reg, reg1, c);
    var reg' := Step(reg, InvokeOp(c, specs, missing));
    forall n: nat | Joined(reg', n) ensures Joined(reg, n) {
      OnlyGroupsAdded(reg, reg1, c, reg1.ctors[n].scope, n);
    }
  }

  // ---------------------------------------------------------------------------------------------
  // Registrations and Invokes in any order

  /** Every registration leaves a usual container, and spares what has been called. */
  ghost predicate Calm(world: World, acts: seq<Action>)
    decreases |acts|, 0
  {
    acts == [] ||
    (Calm(world, acts[..|acts| - 1]) &&
     (CalmIsPlayable(world, acts[..|acts| - 1]);
      var (reg, st) := Play(world, false, acts[..|acts| - 1]);
      match acts[|acts| - 1]
      case Register(op) =>
        !op.InvokeOp? && Clean(reg, op) && Usual(Step(reg, op)) && Spares(reg, Step(reg, op), st)
      case Resolve(ask) => ask.scope < |reg.parents| && PlainSpecs(ask.specs)))
  }

  lemma {:induction false} CalmIsPlayable(world: World, acts: seq<Action>)
    requires Calm(world, acts)
    ensures Playable(world, false, acts) && Usual(Play(world, false, acts).0)
    decreases |acts|, 1
  {
    hide Usual, Spares, Checked, InvokedFrom, Step, Clean, PlainSpecs, Good;
    if acts == [] {
      NewIsUsual();
    } else {
      CalmIsPlayable(world, acts[..|acts| - 1]);
      var (reg, st) := Play(world, false, acts[..|acts| - 1]);
      UsualParts(reg);
      match acts[|acts| - 1]
      case Register(op) =>
      case Resolve(ask) =>
        DefaultIsChecked(world, reg, ask.scope, ask.specs);
        InvokedIsQuiet(world, reg, ask.scope, ask.specs, st);
    }
  }

  lemma NewIsUsual()
    ensures Usual(NewContainer(false))
  {
    NewContainerIsGood(false);
  }

  lemma {:induction false} CalmSettles(world: World, acts: seq<Action>)
    requires Calm(world, acts) && Playable(world, false, acts)
    ensures UsualSettled(world, Play(world, false, acts).0, Play(world, false, acts).1)
    decreases |acts|
  {
    hide Usual, UsualSettled, Spares, Checked, InvokedFrom, Step, Clean, PlainSpecs, Good;
    if acts == [] {
      NewIsSettled(world);
    } else {
      CalmIsPlayable(world, acts[..|acts| - 1]);
      var (reg, st) := Play(world, false, acts[..|acts| - 1]);
      CalmSettles(world, acts[..|acts| - 1]);
      match acts[|acts| - 1]
      case Register(op) =>
        StepExtends(reg, op);
        SparedStaysSettled(world, reg, Step(reg, op), st);
      case Resolve(ask) =>
        ResolveSettles(world, reg, st, ask);
    }
  }

  lemma UsualParts(reg: Registry)
    requires Usual(reg)
    ensures Good(reg) && Default(reg)
  {}

  lemma NewIsSettled(world: World)
    ensures UsualSettled(world, NewContainer(false), Empty)
  {
    hide Usual, SeenFromAll, MeaningOf, Sound, Settled;
    NewIsUsual();
    UsualIsSound(world, NewContainer(false));
    var e := SeenFromAll(world, NewContainer(false));
    EmptyIsSettled(e, MeaningOf(e));
  }

  /** One Invoke: its outcome, and what it leaves */
  lemma ResolveSettles(world: World, reg: Registry, st: Store, ask: Ask)
    requires UsualSettled(world, reg, st) && ask.scope < |reg.parents| && PlainSpecs(ask.specs)
    ensures Checked(world, reg, ask.scope, ask.specs)
    ensures var (outcome, reg', st') := InvokedFrom(world, reg, ask.scope, ask.specs, st);
            && outcome == Expected(SeenFromAll(world, reg), MeaningOf(SeenFromAll(world, reg)), reg, ask)
            && UsualSettled(world, reg', st')
  {
    hide Inv, DecoratorsListed, Default, Ordinary, Settled, SeenFromAll, MeaningOf, Spares, Checked, InvokedFrom,
         PlainSpecs, Sound, Layered, Extends, Expected, Env.Closed;
    var e := SeenFromAll(world, reg);
    SeenFromAllIs(world, reg, ask.scope);
    UsualIsSound(world, reg);
    DefaultIsChecked(world, reg, ask.scope, ask.specs);
    OneAnswer(e, MeaningOf(e), reg, st, ask);
    InvokedIsQuiet(world, reg, ask.scope, ask.specs, st);
    var (_, reg', st') := InvokedFrom(world, reg, ask.scope, ask.specs, st);
    SameTablesSpare(world, reg, reg', st');
    SparedStaysSettled(world, reg, reg', st');
  }

  /** In every such run, whatever was registered and invoked before and whether or not it failed: the next Invoke
      returns what it means with the registrations of the moment, the stores hold exactly what the constructors called
      so far contribute, and none has been committed twice. */
  lemma {:induction false} EveryInvokeAgrees(world: World, acts: seq<Action>, ask: Ask)
    requires Calm(world, acts)
    requires PlainSpecs(ask.specs) && Playable(world, false, acts) && ask.scope < |Play(world, false, acts).0.parents|
    ensures var (reg, st) := Play(world, false, acts);
            var e := SeenFromAll(world, reg);
            && e.Closed() && Layered(e) && IsMeaning(e, MeaningOf(e)) && Exact(e, MeaningOf(e), st)
            && Distinct(st.commits)
            && Checked(world, reg, ask.scope, ask.specs)
            && InvokedFrom(world, reg, ask.scope, ask.specs, st).0 == Expected(e, MeaningOf(e), reg, ask)
  {
    hide Inv, DecoratorsListed, Default, Ordinary, SeenFromAll, MeaningOf, Spares, Checked, InvokedFrom, PlainSpecs,
         CtorLayered, DecoratorLayered, Expected, Env.Closed, Exact, Calm, Playable, Play, IsMeaning, ParamsPlain,
         ProvidersUnique, WritesItsKeys, DecoratorsTidy, SlicesWellFormed;
    var (reg, st) := Play(world, false, acts);
    CalmSettles(world, acts);
    UsualIsSound(world, reg);
    var e := SeenFromAll(world, reg);
    SettledCommits(e, MeaningOf(e), st);
    ResolveSettles(world, reg, st, ask);
  }
}
