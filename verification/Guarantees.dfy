/** From registration to resolution: what a run of registrations guarantees to the Invokes that follow. */
module Guarantees {
  import opened Values
  import opened ResultTree
  import opened Registry
  import opened Registration
  import opened RegistrationInvariant
  import opened RegistrationSteps
  import opened Resolver
  import opened Evaluator
  import opened Refinement
  import opened Sessions
  import opened Runs
  import opened Coverage
  import opened Decoration
  import opened Commits
  import opened Extraction
  import opened Independence
  import opened Invocation
  import opened Digraph

  /** Group results have a group name, and parameters are well formed and not soft. */
  ghost predicate Ordinary(reg: Registry) {
    forall n: nat :: Joined(reg, n) ==>
      && PlainList(reg.ctors[n].params)
      && forall x :: x in ListEntries(reg.ctors[n].results.results) ==> x.single == !x.key.IsGroup()
  }

  /** Every ranked constructor has been provided and not undone. */
  ghost predicate RanksJoined(e: Env) {
    forall n :: n in e.rank ==> Joined(e.reg, n)
  }

  lemma JoinedListing(reg: Registry, n: nat, s: nat, k: Key)
    requires Tables(reg) && Joined(reg, n)
    ensures n in reg.Providers(s, k) <==> s == reg.ctors[n].scope && k in KeysOfCtor(reg.ctors[n])
  {
    if n in reg.Providers(s, k) { assert ListedOk(reg, Slot(s, k), n); }
  }

  lemma TablesRegister(e: Env)
    requires Tables(e.reg) && RanksJoined(e) && Tabled(e) && Ordinary(e.reg)
    ensures CtorsRegistered(e)
  {
    hide Tables, Tabled;
    forall n, s, k | n in e.rank
      ensures n in e.reg.Providers(s, k) <==>
                s == CtorScope(e, n) && k in KeysOf(ListEntries(e.reg.ctors[n].results.results))
    {
      JoinedListing(e.reg, n, s, k);
    }
  }

  lemma ProviderIsSingle(reg: Registry, s: nat, k: Key, n: nat)
    requires Tables(reg) && Ordinary(reg) && !k.IsGroup() && n in reg.Providers(s, k)
    ensures SingleFor(reg, k, n)
  {
    ListedIsJoined(reg, s, k, n);
    assert ListedOk(reg, Slot(s, k), n);
    var x :| x in ListEntries(reg.ctors[n].results.results) && x.key == k;
    assert x.single;
  }

  lemma TablesAreUnique(e: Env)
    requires Tables(e.reg) && Ordinary(e.reg)
    ensures ProvidersUnique(e)
  {
    forall s, k ensures Distinct(e.reg.Providers(s, k)) {
      assert Distinct(Listed(e.reg.providers, Slot(s, k)));
    }
    forall s, k: Key | !k.IsGroup() ensures |e.reg.Providers(s, k)| <= 1 {
      var ns := e.reg.Providers(s, k);
      forall i, j | 0 <= i < |ns| && 0 <= j < |ns| ensures ns[i] == ns[j] {
        ProviderIsSingle(e.reg, s, k, ns[i]);
        ProviderIsSingle(e.reg, s, k, ns[j]);
        assert ns[i] in Listed(e.reg.providers, Slot(s, k)) && ns[j] in Listed(e.reg.providers, Slot(s, k));
      }
      AtMostOne(ns);
    }
  }

  lemma AtMostOne(ns: seq<nat>)
    requires Distinct(ns) && (|ns| > 1 ==> ns[0] == ns[1])
    ensures |ns| <= 1
  {}

  // ---------------------------------------------------------------------------------------------
  // Decorators as they are registered

  /** Decorators have group results with a group name, and parameters that are well formed and not soft. */
  ghost predicate OrdinaryDecorators(reg: Registry)
    requires DecoratorsListed(reg)
  {
    forall slot :: slot in reg.decorators ==>
      && PlainList(reg.decos[reg.decorators[slot]].params)
      && forall slice :: slice in SlicesOf(reg.decos[reg.decorators[slot]].results.results) ==> slice.group != ""
  }

  /** Every ranked decorator is registered in a scope of the view. */
  ghost predicate DecoRanksListed(e: Env) {
    forall d :: d in e.decoRank ==>
      exists slot :: slot in e.reg.decorators && slot.scope in e.scopes && e.reg.decorators[slot] == d
  }

  /** What runs of registrations establish, and the views of them */
  ghost predicate Registered(e: Env) {
    && Tables(e.reg) && Ordinary(e.reg) && RanksJoined(e)
    && DecoratorsListed(e.reg) && DecoratorsWhole(e.reg) && OrdinaryDecorators(e.reg) && DecoRanksListed(e)
  }

  /** The decorators succeed, and what they decorate is provided. */
  ghost predicate Decoratable(e: Env, m: Meaning) {
    && (forall d :: d in e.decoRank ==> m.Decorator(d).Ok?)
    && (forall slot :: slot in e.reg.decorators && slot.scope in e.scopes && !slot.key.IsGroup() ==>
          e.reg.AllProviders(slot.scope, slot.key) != [])
  }

  lemma {:induction false} LeafIsKey(r: Result, k: Key)
    ensures k in SingleLeaves(r) ==> k in LeafKeys(r)
    ensures forall slice :: slice in SliceLeaves(r) && slice.t.SliceOf? && k == Key(slice.t.elem, "", slice.group) ==>
              k in LeafKeys(r)
    ensures k in LeafKeys(r) && k !in SingleLeaves(r) ==>
              exists slice :: slice in SliceLeaves(r) && slice.t.SliceOf? && k == Key(slice.t.elem, "", slice.group)
    decreases r, 1
  {
    match r
    case SingleResult(_, _, _) =>
    case GroupedResult(group, t, _, _) => assert Key(t, "", group) in SliceLeaves(r);
    case ObjectResult(fields) => FieldLeafIsKey(fields, k);
  }

  lemma {:induction false} FieldLeafIsKey(fields: seq<ResultField>, k: Key)
    ensures k in SingleFieldLeaves(fields) ==> k in FieldsLeafKeys(fields)
    ensures forall slice ::
              slice in SliceFieldLeaves(fields) && slice.t.SliceOf? && k == Key(slice.t.elem, "", slice.group) ==>
              k in FieldsLeafKeys(fields)
    ensures k in FieldsLeafKeys(fields) && k !in SingleFieldLeaves(fields) ==>
              exists slice ::
                slice in SliceFieldLeaves(fields) && slice.t.SliceOf? && k == Key(slice.t.elem, "", slice.group)
    decreases fields, 0
  {
    if fields != [] {
      assert (fields[0] decreases to fields[0].result);
      LeafIsKey(fields[0].result, k);
      FieldLeafIsKey(fields[1..], k);
    }
  }

  /** The keys a decorator is registered for are those of its single leaves and those of the values of its slices. */
  lemma {:induction false} LeavesAreKeys(rs: seq<Result>, k: Key)
    ensures k in SinglesOf(rs) ==> k in AllLeafKeys(rs)
    ensures forall slice :: slice in SlicesOf(rs) && slice.t.SliceOf? && k == Key(slice.t.elem, "", slice.group) ==>
              k in AllLeafKeys(rs)
    ensures k in AllLeafKeys(rs) && k !in SinglesOf(rs) ==>
              exists slice :: slice in SlicesOf(rs) && slice.t.SliceOf? && k == Key(slice.t.elem, "", slice.group)
  {
    hide SingleLeaves, SliceLeaves, LeafKeys;
    if rs != [] {
      LeafIsKey(rs[0], k);
      LeavesAreKeys(rs[1..], k);
    }
  }

  lemma {:induction false} SliceOfLeaf(r: Result, slice: Key)
    requires Decorating(r) && slice in SliceLeaves(r)
    ensures slice.t.SliceOf? && slice.name == ""
    decreases r, 1
  {
    if r.ObjectResult? { SliceOfFieldLeaf(r.fields, slice); }
  }

  lemma {:induction false} SliceOfFieldLeaf(fields: seq<ResultField>, slice: Key)
    requires FieldsDecorating(fields) && slice in SliceFieldLeaves(fields)
    ensures slice.t.SliceOf? && slice.name == ""
    decreases fields, 0
  {
    assert (fields[0] decreases to fields[0].result);
    if slice in SliceLeaves(fields[0].result) { SliceOfLeaf(fields[0].result, slice); }
    else { SliceOfFieldLeaf(fields[1..], slice); }
  }

  lemma {:induction false} SliceOfResults(rs: seq<Result>, slice: Key)
    requires AllDecorating(rs) && slice in SlicesOf(rs)
    ensures slice.t.SliceOf? && slice.name == ""
  {
    if slice in SliceLeaves(rs[0]) { SliceOfLeaf(rs[0], slice); } else { SliceOfResults(rs[1..], slice); }
  }

  /** What holds of one decorator: it writes its leaves, and it is registered for the keys of its leaves. */
  lemma DecoratorFacts(e: Env, m: Meaning, d: nat)
    requires Tabled(e) && IsMeaning(e, m) && d in e.decoRank && m.Decorator(d).Ok? && Registered(e)
    ensures DecoratorScope(e, d) in e.scopes && PlainList(e.reg.decos[d].params)
    ensures forall k :: LastSet(m.Decorator(d).value, k).Some? ==> Decorates(e, d, k)
    ensures forall slice :: LastSubmit(m.Decorator(d).value, slice).Some? ==>
              && slice.t.SliceOf? && IsSliceOf(slice, Key(slice.t.elem, "", slice.group))
              && Decorates(e, d, Key(slice.t.elem, "", slice.group))
  {
    hide Tables, Ordinary, RanksJoined, IsMeaning, LastSet, LastSubmit, AllLeafKeys, SinglesOf, SlicesOf, AllDecorating;
    var slot :| slot in e.reg.decorators && slot.scope in e.scopes && e.reg.decorators[slot] == d;
    var rs := e.reg.decos[d].results.results;
    DecoratorWritesLeaves(e, m, d);
    forall k | LastSet(m.Decorator(d).value, k).Some? ensures Decorates(e, d, k) {
      LastWritten(m.Decorator(d).value, k);
      LeavesAreKeys(rs, k);
      assert k in KeysOfDecorator(e.reg.decos[d]);
    }
    forall slice | LastSubmit(m.Decorator(d).value, slice).Some?
      ensures slice.t.SliceOf? && IsSliceOf(slice, Key(slice.t.elem, "", slice.group))
      ensures Decorates(e, d, Key(slice.t.elem, "", slice.group))
    {
      LastWritten(m.Decorator(d).value, slice);
      SliceOfResults(rs, slice);
      var k := Key(slice.t.elem, "", slice.group);
      LeavesAreKeys(rs, k);
      assert k in KeysOfDecorator(e.reg.decos[d]);
    }
  }

  /** A decorator of a single key writes it. */
  lemma DecoratedKeyIsWritten(e: Env, m: Meaning, slot: Slot)
    requires Tabled(e) && IsMeaning(e, m) && Registered(e) && slot in e.reg.decorators && !slot.key.IsGroup()
    requires e.reg.decorators[slot] in e.decoRank && m.Decorator(e.reg.decorators[slot]).Ok?
    ensures LastSet(m.Decorator(e.reg.decorators[slot]).value, slot.key).Some?
  {
    hide Tables, Ordinary, RanksJoined, IsMeaning, LastSet, LastSubmit, AllLeafKeys, SinglesOf, SlicesOf, AllDecorating,
         DecoratorsWhole;
    var d := e.reg.decorators[slot];
    DecoratorWritesLeaves(e, m, d);
    LastWritten(m.Decorator(d).value, slot.key);
    LeavesAreKeys(e.reg.decos[d].results.results, slot.key);
    assert slot.key in KeysOfDecorator(e.reg.decos[d]);
  }

  lemma RegisteredIsTidy(e: Env, m: Meaning)
    requires Ranked(e) && IsMeaning(e, m) && Registered(e) && Decoratable(e, m)
    ensures DecoratorsTidy(e, m) && SlicesWellFormed(e, m)
  {
    hide Tables, Ordinary, RanksJoined, IsMeaning, LastSet, LastSubmit, DecoratorsListed, DecoratorsWhole,
         OrdinaryDecorators, DecoRanksListed, Layered, Decorates, Env.ScopesClosed, Env.ProvidersRanked,
         Env.CtorsRanked;
    RankedIsTabled(e);
    forall d | d in e.decoRank
      ensures DecoratorScope(e, d) in e.scopes
      ensures forall k :: LastSet(m.Decorator(d).value, k).Some? ==> Decorates(e, d, k)
      ensures forall slice :: LastSubmit(m.Decorator(d).value, slice).Some? ==>
                && slice.t.SliceOf? && IsSliceOf(slice, Key(slice.t.elem, "", slice.group))
                && Decorates(e, d, Key(slice.t.elem, "", slice.group))
    {
      DecoratorFacts(e, m, d);
    }
    forall slot | slot in e.reg.decorators && slot.scope in e.scopes && !slot.key.IsGroup()
      ensures LastSet(m.Decorator(e.reg.decorators[slot]).value, slot.key).Some?
    {
      DecoratedKeyIsWritten(e, m, slot);
    }
  }

  lemma RankedIsTabled(e: Env)
    requires Ranked(e)
    ensures Tabled(e) && e.Closed() && Layered(e)
  {}

  lemma RegisteredIsPlain(e: Env, m: Meaning)
    requires Tabled(e) && IsMeaning(e, m) && Registered(e) && Decoratable(e, m)
    ensures ParamsPlain(e)
  {
    hide Tables, IsMeaning, DecoratorsListed, DecoratorsWhole, OrdinaryDecorators, DecoRanksListed;
    forall d | d in e.decoRank ensures PlainList(e.reg.decos[d].params) { DecoratorFacts(e, m, d); }
  }

  /** What has been registered, can be ranked and is decorated by decorators that succeed is sound. */
  lemma DecoratedIsSound(e: Env)
    requires Ranked(e) && Registered(e) && Decoratable(e, MeaningOf(e))
    ensures Sound(e, MeaningOf(e))
  {
    hide Registered, IsMeaning, MeaningOf, WritesItsKeys, ProvidersUnique, ParamsPlain, DecoratorsTidy,
         SlicesWellFormed, CtorLayered, DecoratorLayered, CtorsRegistered, Decoratable, Env.Closed;
    MeaningExists(e);
    var m := MeaningOf(e);
    RegisteredParts(e);
    TablesRegister(e);
    RegisteredWritesItsKeys(e, m);
    TablesAreUnique(e);
    RegisteredIsPlain(e, m);
    RegisteredIsTidy(e, m);
  }

  lemma RegisteredParts(e: Env)
    requires Registered(e)
    ensures Tables(e.reg) && RanksJoined(e) && Ordinary(e.reg)
  {}

  ghost predicate NoDecorators(e: Env) {
    e.decoRank == map[] && e.reg.decorators == map[]
  }

  lemma DecoratorFreeIsRanked(e: Env)
    requires e.Closed() && NoDecorators(e)
    ensures Ranked(e)
  {
    assert Tabled(e);
    forall n | n in e.rank ensures CtorLayered(e, n) {}
  }

  /** Without decorators, whatever is closed and registered is sound. */
  lemma DecoratorFreeIsSound(e: Env)
    requires e.Closed() && NoDecorators(e)
    requires Tables(e.reg) && Ordinary(e.reg) && RanksJoined(e)
    ensures Layered(e) && Sound(e, MeaningOf(e))
  {
    hide Tables, Ordinary, RanksJoined, MeaningOf, Sound, Env.Closed;
    DecoratorFreeIsRanked(e);
    RankedIsTabled(e);
    DecoratedIsSound(e);
  }

  // ---------------------------------------------------------------------------------------------
  // Invokes on the container, one after the other

  /** An Invoke, by the parameters its function declares */
  datatype Ask = Ask(scope: nat, specs: seq<ParamSpec>)

  /** Each Invoke is from a scope that exists, and the check that it makes is enough. */
  ghost predicate Answerable(world: World, reg: Registry, st: Store, asks: seq<Ask>)
    requires Good(reg)
    decreases |asks|, 0
  {
    asks == [] ||
    (Answerable(world, reg, st, asks[..|asks| - 1]) &&
     var last := asks[|asks| - 1];
     var reg1 := Asked(world, reg, st, asks[..|asks| - 1]).0;
     last.scope < |reg1.parents| && Checked(world, reg1, last.scope, last.specs))
  }

  /** The tables and the stores after some Invokes, failing ones included */
  ghost function Asked(world: World, reg: Registry, st: Store, asks: seq<Ask>): (r: (Registry, Store))
    requires Good(reg) && Answerable(world, reg, st, asks)
    ensures Good(r.0)
    decreases |asks|, 1
  {
    if asks == [] then (reg, st) else
      var last := asks[|asks| - 1];
      var (reg1, st1) := Asked(world, reg, st, asks[..|asks| - 1]);
      var (_, reg2, st2) := InvokedFrom(world, reg1, last.scope, last.specs, st1);
      InvokedKeepsGood(world, reg1, last.scope, last.specs, st1);
      (reg2, st2)
  }

  lemma InvokedKeepsGood(world: World, reg: Registry, c: nat, specs: seq<ParamSpec>, st: Store)
    requires Good(reg) && c < |reg.parents| && Checked(world, reg, c, specs)
    ensures Good(InvokedFrom(world, reg, c, specs, st).1)
  {
    hide Good, Checked, InvokedFrom;
    var missing := InvokedFromIsStep(world, reg, c, specs, st);
    StepKeepsGood(reg, InvokeOp(c, specs, missing));
  }

  /** Parameters are well formed and not soft. */
  ghost predicate PlainSpec(spec: ParamSpec)
    decreases spec
  {
    match spec
    case SingleSpec(k, _) => !k.IsGroup()
    case GroupSpec(elem, slice, soft) => !soft && IsSliceOf(slice, elem)
    case ObjectSpec(fields) => forall i :: 0 <= i < |fields| ==> PlainSpec(fields[i].spec)
    case Unusable => true
  }

  ghost predicate PlainSpecs(specs: seq<ParamSpec>) {
    forall i :: 0 <= i < |specs| ==> PlainSpec(specs[i])
  }

  lemma {:induction false} PlainParam(reg: Registry, s: nat, spec: ParamSpec)
    requires |reg.nodes| == |reg.parents| && PlainSpec(spec)
    ensures NewParam(reg, s, spec).0.Some? ==> Refinement.Plain(NewParam(reg, s, spec).0.value)
    decreases spec, 1
  {
    if spec.ObjectSpec? { PlainFields(reg, s, spec.fields); }
  }

  lemma {:induction false} PlainFields(reg: Registry, s: nat, fields: seq<FieldSpec>)
    requires |reg.nodes| == |reg.parents| && forall i :: 0 <= i < |fields| ==> PlainSpec(fields[i].spec)
    ensures var fs := NewFields(reg, s, fields).0;
            fs.Some? ==> forall i :: 0 <= i < |fs.value| ==> Refinement.Plain(fs.value[i].param)
    decreases fields, 0
  {
    if fields != [] {
      assert (fields[0] decreases to fields[0].spec);
      PlainParam(reg, s, fields[0].spec);
      PlainFields(NewParam(reg, s, fields[0].spec).1, s, fields[1..]);
    }
  }

  lemma {:induction false} PlainParams(reg: Registry, s: nat, specs: seq<ParamSpec>)
    requires |reg.nodes| == |reg.parents| && PlainSpecs(specs)
    ensures NewParams(reg, s, specs).0.Some? ==> PlainList(NewParams(reg, s, specs).0.value)
    decreases |specs|
  {
    if specs != [] {
      PlainParam(reg, s, specs[0]);
      PlainParams(NewParam(reg, s, specs[0]).1, s, specs[1..]);
    }
  }

  /** The Invokes are from scopes that the view covers. */
  ghost predicate AskedWithin(e: Env, asks: seq<Ask>) {
    forall i :: 0 <= i < |asks| ==> asks[i].scope in e.scopes && PlainSpecs(asks[i].specs)
  }

  /** Where all that can be reached is ranked, the check is enough. */
  lemma ViewIsChecked(e: Env, reg: Registry, c: nat, specs: seq<ParamSpec>)
    requires Good(reg) && Alike(e.reg, reg) && e.Closed() && c in e.scopes
    ensures c < |reg.parents| && Checked(e.world, reg, c, specs)
  {
    hide Good, NewParams;
    assert c < |reg.parents| by { assert e.ScopesClosed(); }
    InvokeIsSafe(reg, c, specs);
    var reg1 := NewParams(reg, c, specs).1;
    var e' := e.(reg := reg1);
    SameClosed(e, e');
    assert Views(e', e.world, reg1, c);
  }

  /** After any Invokes the tables that resolution reads are as they were, and the stores are exact. */
  lemma {:induction false} AskedSettles(e: Env, m: Meaning, reg: Registry, st: Store, asks: seq<Ask>)
    requires Good(reg) && Alike(e.reg, reg) && e.Closed() && Sound(e, m) && Settled(e, m, st) && AskedWithin(e, asks)
    ensures Answerable(e.world, reg, st, asks)
    ensures Alike(e.reg, Asked(e.world, reg, st, asks).0)
    ensures Settled(e, m, Asked(e.world, reg, st, asks).1)
    decreases |asks|
  {
    hide Good, Env.Closed, Sound, Settled, Checked, InvokedFrom, PlainSpecs;
    if asks != [] {
      var init, last := asks[..|asks| - 1], asks[|asks| - 1];
      AskedSettles(e, m, reg, st, init);
      var (reg1, st1) := Asked(e.world, reg, st, init);
      ViewIsChecked(e, reg1, last.scope, last.specs);
      OneAnswer(e, m, reg1, st1, last);
    }
  }

  /** The outcome of an Invoke by what its parameters mean: the check for missing types comes before the check for
      cycles. */
  ghost function Expected(e: Env, m: Meaning, reg: Registry, ask: Ask): InvokeOutcome
    requires Good(reg) && ask.scope < |reg.parents|
  {
    GoodTree(reg);
    var ps := NewParams(reg, ask.scope, ask.specs).0;
    if ps.None? then BadArguments
    else if UnprovidedList(e.reg, ps.value, ask.scope) == [] && Refuses(reg, ask.scope, ask.specs) then Cyclic
    else OutcomeOf(EvalInvoke(e.reg, m, ps.value, ask.scope))
  }

  lemma OneAnswer(e: Env, m: Meaning, reg: Registry, st: Store, ask: Ask)
    requires Good(reg) && Alike(e.reg, reg) && e.Closed() && Sound(e, m) && Settled(e, m, st)
    requires ask.scope in e.scopes && PlainSpecs(ask.specs)
    requires ask.scope < |reg.parents| && Checked(e.world, reg, ask.scope, ask.specs)
    ensures var (outcome, reg', st') := InvokedFrom(e.world, reg, ask.scope, ask.specs, st);
            outcome == Expected(e, m, reg, ask) && Alike(e.reg, reg') && Settled(e, m, st')
  {
    hide Good, Env.Closed, Checked, InvokedFrom, NewParams, PlainSpecs, EvalInvoke, Refuses, Invoke, Env.MissingList,
         UnprovidedList, Exact, IsMeaning, Layered, ParamsPlain, DecoratorsTidy, SlicesWellFormed, WritesItsKeys,
         ProvidersUnique;
    InvokedFromIsInvoke(e, reg, ask.scope, ask.specs, st);
    GoodTree(reg);
    var ps := NewParams(reg, ask.scope, ask.specs).0;
    if ps.Some? {
      PlainParams(reg, ask.scope, ask.specs);
      SoundMissing(e, m, st, ps.value, ask.scope);
      InvokeAgrees(e, m, ps.value, ask.scope, st);
    }
  }

  /** After any number of Invokes, from any scopes and failing ones included, the next one returns what it means: the
      values its parameters stand for, or the error, or the cycle that the graph of its scope has. The stores hold
      exactly what the constructors called so far contribute, and none has been committed twice. */
  lemma {:induction false} AnswerAgrees(e: Env, m: Meaning, reg: Registry, st: Store, asks: seq<Ask>, ask: Ask)
    requires Good(reg) && Alike(e.reg, reg) && e.Closed() && Sound(e, m) && Settled(e, m, st)
    requires AskedWithin(e, asks) && AskedWithin(e, [ask])
    ensures Answerable(e.world, reg, st, asks)
    ensures var (reg1, st1) := Asked(e.world, reg, st, asks);
            && Good(reg1) && ask.scope < |reg1.parents| && Checked(e.world, reg1, ask.scope, ask.specs)
            && InvokedFrom(e.world, reg1, ask.scope, ask.specs, st1).0 == Expected(e, m, reg1, ask)
            && Exact(e, m, st1) && Distinct(st1.commits)
  {
    hide Good, Env.Closed, Sound, Checked, InvokedFrom, PlainSpecs, Exact, Expected;
    assert AskedWithin(e, [ask]) ==> [ask][0].scope in e.scopes && PlainSpecs([ask][0].specs);
    AskedSettles(e, m, reg, st, asks);
    var (reg1, st1) := Asked(e.world, reg, st, asks);
    ViewIsChecked(e, reg1, ask.scope, ask.specs);
    OneAnswer(e, m, reg1, st1, ask);
    SettledCommits(e, m, st1);
  }

  lemma EmptyIsSettled(e: Env, m: Meaning)
    requires Sound(e, m)
    ensures Settled(e, m, Empty)
  {
    hide Exact, Sound;
    EmptyIsExact(e, m);
  }

  // ---------------------------------------------------------------------------------------------
  // From a run of registrations

  /** The operations register, and do not resolve. */
  predicate OnlyRegister(ops: seq<Op>) {
    forall i :: 0 <= i < |ops| ==> !ops[i].InvokeOp?
  }

  /** After any run of registrations without deferral, export, decorators and descendant cycles: an Invoke from
      any scope terminates and returns what it means, whatever was invoked before it and whether or not that
      failed. */
  lemma {:induction false} DefaultContainerAgrees(world: World, ops: seq<Op>, asks: seq<Ask>, ask: Ask)
    requires CleanHistory(false, ops) && OnlyRegister(ops)
    requires var reg := History(false, ops);
             && Default(reg) && Ordinary(reg) && reg.decorators == map[]
             && (forall i :: 0 <= i < |asks| ==> asks[i].scope < |reg.parents| && PlainSpecs(asks[i].specs))
             && ask.scope < |reg.parents| && PlainSpecs(ask.specs)
    ensures var reg := History(false, ops);
            var e := SeenFromAll(world, reg);
            && e.Closed() && Layered(e) && IsMeaning(e, MeaningOf(e))
            && Answerable(world, reg, Empty, asks)
            && (var (reg1, st1) := Asked(world, reg, Empty, asks);
                && Good(reg1) && ask.scope < |reg1.parents| && Checked(world, reg1, ask.scope, ask.specs)
                && InvokedFrom(world, reg1, ask.scope, ask.specs, st1).0 == Expected(e, MeaningOf(e), reg1, ask)
                && Exact(e, MeaningOf(e), st1) && Distinct(st1.commits))
  {
    hide Tables, FlagsSound, OverallRank, Default, Checked, InvokedFrom, PlainSpecs, Exact, Expected, MeaningOf,
         IsMeaning, ParamsPlain, DecoratorsTidy, SlicesWellFormed, WritesItsKeys, ProvidersUnique, CtorLayered,
         DecoratorLayered;
    var reg := History(false, ops);
    var e := SeenFromAll(world, reg);
    DefaultCoversAllScopes(world, reg);
    DecoratorFreeIsSound(e);
    EmptyIsSettled(e, MeaningOf(e));
    AnswerAgrees(e, MeaningOf(e), reg, Empty, asks, ask);
  }

  lemma SeenIsJoined(world: World, reg: Registry, c: nat)
    requires Tables(reg) && c < |reg.parents| && IsDag(GraphOf(reg, c))
    ensures RanksJoined(SeenFrom(world, reg, c))
  {
    forall n | n in SeenFrom(world, reg, c).rank ensures Joined(reg, n) {
      var k :| k in KeysOfCtor(reg.ctors[n]);
      ListedIsJoined(reg, reg.ctors[n].scope, k, n);
    }
  }

  /** The same for a scope whose graph has no cycle, in a container that may defer the check and may have cycles
      elsewhere: Invokes from this scope and its ancestors, whenever it sees no exported constructor and no group
      parameter older than itself. */
  lemma {:induction false} AcyclicScopeAgrees(world: World, reg: Registry, c: nat, asks: seq<Ask>, ask: Ask)
    requires Good(reg) && c < |reg.parents| && IsDag(GraphOf(reg, c)) && Tractable(reg, c)
    requires Ordinary(reg) && reg.decorators == map[]
    requires forall i :: 0 <= i < |asks| ==> asks[i].scope in reg.PathToRoot(c) && PlainSpecs(asks[i].specs)
    requires ask.scope in reg.PathToRoot(c) && PlainSpecs(ask.specs)
    ensures var e := SeenFrom(world, reg, c);
            && e.Closed() && Layered(e) && IsMeaning(e, MeaningOf(e))
            && Answerable(world, reg, Empty, asks)
            && (var (reg1, st1) := Asked(world, reg, Empty, asks);
                && Good(reg1) && ask.scope < |reg1.parents| && Checked(world, reg1, ask.scope, ask.specs)
                && InvokedFrom(world, reg1, ask.scope, ask.specs, st1).0 == Expected(e, MeaningOf(e), reg1, ask)
                && Exact(e, MeaningOf(e), st1) && Distinct(st1.commits))
  {
    hide Tables, FlagsSound, ScopeRank, Ordinary, Tractable, IsDag, GraphOf, Checked, InvokedFrom, PlainSpecs, Exact,
         Expected, MeaningOf, IsMeaning, ParamsPlain, DecoratorsTidy, SlicesWellFormed, WritesItsKeys, ProvidersUnique,
         CtorLayered, DecoratorLayered;
    var e := SeenFrom(world, reg, c);
    AcyclicScopeCovers(world, reg, c);
    SeenIsJoined(world, reg, c);
    DecoratorFreeIsSound(e);
    EmptyIsSettled(e, MeaningOf(e));
    AnswerAgrees(e, MeaningOf(e), reg, Empty, asks, ask);
  }

  /** The same with decorators: after any run of registrations in which no key is decorated twice in a scope, in any
      view that ranks constructors and decorators together, whenever the decorators succeed. */
  lemma {:induction false} DecoratedContainerAgrees(e: Env, deferred: bool, ops: seq<Op>, asks: seq<Ask>, ask: Ask)
    requires WholeHistory(deferred, ops) && OnlyRegister(ops) && e.reg == History(deferred, ops)
    requires Ranked(e) && RanksJoined(e) && DecoRanksListed(e) && Ordinary(e.reg) && OrdinaryDecorators(e.reg)
    requires Decoratable(e, MeaningOf(e)) && AskedWithin(e, asks) && AskedWithin(e, [ask])
    ensures Sound(e, MeaningOf(e)) && Answerable(e.world, e.reg, Empty, asks)
    ensures var (reg1, st1) := Asked(e.world, e.reg, Empty, asks);
            && Good(reg1) && ask.scope < |reg1.parents| && Checked(e.world, reg1, ask.scope, ask.specs)
            && InvokedFrom(e.world, reg1, ask.scope, ask.specs, st1).0 == Expected(e, MeaningOf(e), reg1, ask)
            && Exact(e, MeaningOf(e), st1) && Distinct(st1.commits)
  {
    hide Tables, FlagsSound, Checked, InvokedFrom, Exact, Expected, MeaningOf, Decoratable, AskedWithin, RanksJoined,
         DecoRanksListed, Ordinary, OrdinaryDecorators, Sound, Ranked, DecoratorsWhole, DecoratorsListed;
    EveryRunIsWhole(deferred, ops);
    RankedIsTabled(e);
    DecoratedIsSound(e);
    EmptyIsSettled(e, MeaningOf(e));
    AnswerAgrees(e, MeaningOf(e), e.reg, Empty, asks, ask);
  }

  // ---------------------------------------------------------------------------------------------
  // Decorated values

  lemma {:induction false} EvalOne(reg: Registry, m: Meaning, p: Param, c: nat, v: Value)
    requires Unprovided(reg, p, c) == [] && Eval(reg, m, p, c, None) == Ok(v)
    ensures EvalInvoke(reg, m, [p], c) == Ok([v])
  {
    hide Unprovided, Eval;
    assert [p][1..] == [];
    assert UnprovidedList(reg, [p], c) == Unprovided(reg, p, c) + UnprovidedList(reg, [p][1..], c) == [];
    assert EvalList(reg, m, [p][1..], c, None) == Ok([]);
    assert EvalList(reg, m, [p], c, None) == Ok([v] + []);
    assert [v] + [] == [v];
  }

  lemma SoundSucceeds(e: Env, m: Meaning, k: Key, c: nat)
    requires e.Closed() && Sound(e, m) && c in e.scopes
    ensures Succeed(e, m, k, e.reg.PathToRoot(c))
  {
    hide IsMeaning, ParamsPlain, SlicesWellFormed, WritesItsKeys, ProvidersUnique, CtorLayered, DecoratorLayered,
         LastSet, LastSubmit;
    var path := e.reg.PathToRoot(c);
    forall i | 0 <= i < |path| && Slot(path[i], k) in e.reg.decorators
      ensures var d := e.reg.decorators[Slot(path[i], k)];
              d in e.decoRank && e.reg.decos[d].scope == path[i] && m.Decorator(d).Ok?
    {
      assert path[i] in path;
      assert Slot(path[i], k).scope in e.scopes;
    }
  }

  /** Whatever was asked for before, from whichever scopes: a decorated value is all its decorators from the
      outermost scope down to the asking one, applied in turn to what the provider made. */
  lemma {:induction false} DecoratedRequest(e: Env, rs: seq<Request>, i: nat, k: Key, raw: Value)
    requires Ranked(e) && Registered(e) && Decoratable(e, MeaningOf(e))
    requires Askable(e, rs) && i < |rs| && rs[i].params == [SingleParam(k, false)]
    requires EvalProvided(e.reg, MeaningOf(e), k, false, Outermost(e.reg, k, e.reg.PathToRoot(rs[i].scope))) == Ok(raw)
    ensures InTables(e, k, e.reg.PathToRoot(rs[i].scope))
    ensures Session(e, rs, Empty).0[i] == Ok([Chain(e, MeaningOf(e), k, e.reg.PathToRoot(rs[i].scope), raw)])
  {
    hide Env.Closed, Exact, Chain, EvalProvided, EvalSingle, EvalInvoke, Session, MeaningOf, Registered, Decoratable,
         Outermost, WritesItsKeys, ProvidersUnique, ParamsPlain, DecoratorsTidy, SlicesWellFormed, CtorLayered,
         DecoratorLayered, IsMeaning;
    var c, m := rs[i].scope, MeaningOf(e);
    DecoratedIsSound(e);
    EmptyIsSettled(e, m);
    SessionAgrees(e, m, rs, Empty);
    SoundSucceeds(e, m, k, c);
    DecorationComposes(e, m, k, c, raw);
    ProvidedIsVisible(e.reg, m, k, c);
    EvalOne(e.reg, m, SingleParam(k, false), c, Chain(e, m, k, e.reg.PathToRoot(c), raw));
  }

  lemma {:induction false} OutermostOnPath(reg: Registry, k: Key, path: seq<nat>)
    requires path != []
    ensures Outermost(reg, k, path) in path
  {
    if |path| > 1 { OutermostOnPath(reg, k, path[1..]); }
  }

  lemma {:induction false} ProvidedIsVisible(reg: Registry, m: Meaning, k: Key, c: nat)
    requires EvalProvided(reg, m, k, false, Outermost(reg, k, reg.PathToRoot(c))).Ok?
    ensures reg.AllProviders(c, k) != []
  {
    hide Outermost, Ancestors;
    OutermostOnPath(reg, k, reg.PathToRoot(c));
    var s := Outermost(reg, k, reg.PathToRoot(c));
    var b := ProvidingScope(reg, k, reg.PathToRoot(s)).value;
    var n := reg.Providers(b, k)[0];
    ProvidersOnMember(reg, reg.PathToRoot(s), k, n);
    UpwardsVisible(reg, c, s, k, n);
  }

  /** The same for a value group */
  lemma {:induction false} DecoratedGroupRequest(e: Env, rs: seq<Request>, i: nat, id: nat, elem: Key, slice: Key)
    requires Ranked(e) && Registered(e) && Decoratable(e, MeaningOf(e))
    requires Askable(e, rs) && i < |rs| && rs[i].params == [GroupParam(id, elem, slice, false)]
    requires forall n :: n in e.reg.AllProviders(rs[i].scope, elem) ==> MeaningOf(e).Ctor(n).Ok?
    ensures InTables(e, elem, e.reg.PathToRoot(rs[i].scope))
    ensures Session(e, rs, Empty).0[i] == Ok([GroupChain(e, MeaningOf(e), elem, slice, e.reg.PathToRoot(rs[i].scope))])
  {
    hide Env.Closed, Exact, GroupChain, EvalGroup, EvalInvoke, Session, MeaningOf, Registered, Decoratable,
         WritesItsKeys, ProvidersUnique, ParamsPlain, DecoratorsTidy, SlicesWellFormed, CtorLayered, DecoratorLayered,
         IsMeaning;
    var c, m := rs[i].scope, MeaningOf(e);
    DecoratedIsSound(e);
    EmptyIsSettled(e, m);
    SessionAgrees(e, m, rs, Empty);
    SoundSucceeds(e, m, elem, c);
    GroupDecorationComposes(e, m, elem, slice, c);
    EvalOne(e.reg, m, GroupParam(id, elem, slice, false), c, GroupChain(e, m, elem, slice, e.reg.PathToRoot(c)));
  }
}
