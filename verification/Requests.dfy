/** An Invoke that asks for one value, by what is declared and what is registered: from the declared parameter to the
    outcome, after any other Invokes. */
module Requests {
  import opened Values
  import opened Registry
  import opened Registration
  import opened RegistrationInvariant
  import opened Resolver
  import opened Evaluator
  import opened Refinement
  import opened Sessions
  import opened Runs
  import opened Coverage
  import opened Independence
  import opened Invocation
  import opened Guarantees
  import opened Declarations
  import opened Absence

  function One(c: nat, k: Key, optional: bool): Ask {
    Ask(c, [SingleSpec(k, optional)])
  }

  /** The declared parameter is the one that is built. */
  lemma {:induction false} OneIsMade(reg: Registry, c: nat, k: Key, optional: bool)
    requires |reg.nodes| == |reg.parents|
    ensures NewParams(reg, c, One(c, k, optional).specs).0 == Some([SingleParam(k, optional)])
  {
    hide NewParams;
    var specs := One(c, k, optional).specs;
    NewParamsAreMade(reg, c, specs);
    assert AllUsable(specs);
    var ps := NewParams(reg, c, specs).0.value;
    assert ps == [ps[0]] && Made(NewParams(reg, c, specs).1.groupKeys, specs[0], ps[0]);
  }

  /** The outcome of such an Invoke, by what the value means */
  ghost function Answer(k: Key, optional: bool, unseen: bool, refused: bool, v: Try<Value>): InvokeOutcome {
    if unseen && !optional then NotBuilt(MissingDependencies(MissingTypes([k])))
    else if refused then Cyclic
    else if v.Ok? then Built([v.value])
    else NotBuilt(ArgumentsFailed(v.error))
  }

  lemma {:induction false} OneUnprovided(reg: Registry, k: Key, optional: bool, c: nat)
    ensures UnprovidedList(reg, [SingleParam(k, optional)], c)
         == if reg.AllProviders(c, k) == [] && !optional then [k] else []
  {
    hide Registry.AllProviders;
    var ps := [SingleParam(k, optional)];
    assert ps[1..] == [];
    assert UnprovidedList(reg, [], c) == [];
  }

  lemma {:induction false} OneEvaluated(reg: Registry, m: Meaning, k: Key, optional: bool, c: nat)
    ensures var v := EvalSingle(reg, m, k, optional, c, None);
            EvalList(reg, m, [SingleParam(k, optional)], c, None) == if v.Ok? then Ok([v.value]) else Fail(v.error)
  {
    hide EvalSingle;
    var ps := [SingleParam(k, optional)];
    assert ps[1..] == [];
    assert EvalList(reg, m, [], c, None) == Ok([]);
    var v := EvalSingle(reg, m, k, optional, c, None);
    if v.Ok? { assert [v.value] + [] == [v.value]; }
  }

  lemma {:induction false} OneExpected(e: Env, m: Meaning, reg: Registry, c: nat, k: Key, optional: bool)
    requires Good(reg) && c < |reg.parents|
    ensures Expected(e, m, reg, One(c, k, optional))
         == Answer(k, optional, Unseen(e.reg, c, k), Refuses(reg, c, One(c, k, optional).specs),
                   EvalSingle(e.reg, m, k, optional, c, None))
  {
    hide Good, EvalSingle, Unseen, Refuses, NewParams, EvalList, UnprovidedList, Registry.AllProviders;
    GoodTree(reg);
    InvokeIsSafe(reg, c, One(c, k, optional).specs);
    OneIsMade(reg, c, k, optional);
    OneUnprovided(e.reg, k, optional, c);
    OneEvaluated(e.reg, m, k, optional, c);
    UnseenIs(e.reg, c, k);
  }

  /** After any number of Invokes, from any scopes and failing ones included, an Invoke that asks for one value. */
  lemma {:induction false} RequestAgrees(e: Env, m: Meaning, reg: Registry, st: Store, asks: seq<Ask>, c: nat, k: Key,
          optional: bool)
    requires Good(reg) && Alike(e.reg, reg) && e.Closed() && Sound(e, m) && Settled(e, m, st)
    requires AskedWithin(e, asks) && c in e.scopes && !k.IsGroup()
    ensures Answerable(e.world, reg, st, asks)
    ensures var (reg1, st1) := Asked(e.world, reg, st, asks);
            var specs := One(c, k, optional).specs;
            && Good(reg1) && c < |reg1.parents| && Checked(e.world, reg1, c, specs)
            && InvokedFrom(e.world, reg1, c, specs, st1).0
               == Answer(k, optional, Unseen(e.reg, c, k), Refuses(reg1, c, specs),
                         EvalSingle(e.reg, m, k, optional, c, None))
  {
    hide Good, Env.Closed, Sound, Settled, Checked, InvokedFrom, Expected, EvalSingle, Unseen, Refuses, Answer, Exact;
    AnswerAgrees(e, m, reg, st, asks, One(c, k, optional));
    OneExpected(e, m, Asked(e.world, reg, st, asks).0, c, k, optional);
  }

  lemma {:induction false} NothingApplies(reg: Registry, k: Key, path: seq<nat>, self: Option<nat>)
    requires reg.decorators == map[]
    ensures ApplyingScope(reg, k, path, self).None?
  {
    if path != [] { NothingApplies(reg, k, path[1..], self); }
  }

  /** The outcome of asking for `k`, by its providers: if nobody provides it, or the first of its providers that fails
      does so for want of something,
        an optional parameter is zero and a required one is not built; if that provider fails
      for another reason, neither is built; if none fails, both are given the value of the last. */
  ghost predicate ByProviders(e: Env, m: Meaning, c: nat, k: Key, optional: bool, outcome: InvokeOutcome)
    requires Layered(e)
  {
    var ns := ProvidersAt(e.reg, k, c);
    && (Unseen(e.reg, c, k) ==>
          outcome == if optional then Built([Zero(k.t)]) else NotBuilt(MissingDependencies(MissingTypes([k]))))
    && (forall i: nat :: FailsFirst(m, ns, i) ==>
          && ns[i] in e.rank
          && outcome == if optional && CtorLacks(e, m, ns[i]) then Built([Zero(k.t)])
                        else NotBuilt(ArgumentsFailed(ParamSingleFailed(k, ByCtor(ns[i]), m.Ctor(ns[i]).error))))
    && (ns != [] && (forall i :: 0 <= i < |ns| ==> m.Ctor(ns[i]).Ok?) ==>
          var made := m.Ctor(ns[|ns| - 1]).value.values;
          outcome == Built([if k in made then made[k] else NoValue]))
  }

  lemma {:induction false} AnswerByProviders(e: Env, m: Meaning, c: nat, k: Key, optional: bool, level: nat)
    requires Layered(e) && IsMeaning(e, m) && Under(e, {k}, c, None, level)
    requires ApplyingScope(e.reg, k, e.reg.PathToRoot(c), None).None?
    ensures ByProviders(e, m, c, k, optional,
                        Answer(k, optional, Unseen(e.reg, c, k), false, EvalSingle(e.reg, m, k, optional, c, None)))
  {
    hide Layered, IsMeaning, Under, CtorLacks, EvalSingle, Unseen, ProvidersAt;
    var ns := ProvidersAt(e.reg, k, c);
    SeenHasProviders(e.reg, k, c);
    if Unseen(e.reg, c, k) && optional { UnseenIsZero(e.reg, m, k, c); }
    forall i: nat | FailsFirst(m, ns, i)
      ensures ns[i] in e.rank
      ensures EvalSingle(e.reg, m, k, optional, c, None)
           == if optional && CtorLacks(e, m, ns[i]) then Ok(Zero(k.t))
              else Fail(ParamSingleFailed(k, ByCtor(ns[i]), m.Ctor(ns[i]).error))
    {
      OptionalToleratesAbsence(e, m, k, c, None, level, i);
    }
    if ns != [] && forall i :: 0 <= i < |ns| ==> m.Ctor(ns[i]).Ok? { ProvidedToBoth(e, m, k, c, None, optional); }
  }

  lemma SeenHasProviders(reg: Registry, k: Key, c: nat)
    ensures ProvidersAt(reg, k, c) != [] <==> !Unseen(reg, c, k)
  {
    ClosestProvides(reg, k, reg.PathToRoot(c));
  }

  lemma {:induction false} UnseenIsZero(reg: Registry, m: Meaning, k: Key, c: nat)
    requires Unseen(reg, c, k) && ApplyingScope(reg, k, reg.PathToRoot(c), None).None?
    ensures EvalSingle(reg, m, k, true, c, None) == Ok(Zero(k.t))
  {
    ClosestProvides(reg, k, reg.PathToRoot(c));
  }

  /** In every container without deferral, export and decorators, whatever was registered and invoked before, the
      providers decide in this way, unless the graph of the scope has a cycle. */
  lemma {:induction false} OptionalRequest(world: World, ops: seq<Op>, asks: seq<Ask>, c: nat, k: Key, optional: bool)
    requires CleanHistory(false, ops) && OnlyRegister(ops)
    requires var reg := History(false, ops);
             && Default(reg) && Ordinary(reg) && reg.decorators == map[]
             && (forall i :: 0 <= i < |asks| ==> asks[i].scope < |reg.parents| && PlainSpecs(asks[i].specs))
             && c < |reg.parents| && !k.IsGroup()
    ensures var reg := History(false, ops);
            var e, specs := SeenFromAll(world, reg), One(c, k, optional).specs;
            && Layered(e) && Answerable(world, reg, Empty, asks)
            && (var (reg1, st1) := Asked(world, reg, Empty, asks);
                && Good(reg1) && c < |reg1.parents| && Checked(world, reg1, c, specs)
                && (!Refuses(reg1, c, specs) ==>
                      ByProviders(e, MeaningOf(e), c, k, optional, InvokedFrom(world, reg1, c, specs, st1).0)))
  {
    hide Tables, FlagsSound, OverallRank, Default, Checked, InvokedFrom, Exact, MeaningOf, IsMeaning, ParamsPlain,
         DecoratorsTidy, SlicesWellFormed, WritesItsKeys, ProvidersUnique, CtorLayered, DecoratorLayered, Refuses,
         ByProviders, Unseen, EvalSingle, Under, Ordinary, Settled;
    var reg := History(false, ops);
    var e := SeenFromAll(world, reg);
    DefaultCoversAllScopes(world, reg);
    DecoratorFreeIsSound(e);
    var m := MeaningOf(e);
    EmptyIsSettled(e, m);
    RequestAgrees(e, m, reg, Empty, asks, c, k, optional);
    NothingApplies(reg, k, reg.PathToRoot(c), None);
    AllUnderHeight(e, m, {k}, c);
    AnswerByProviders(e, m, c, k, optional, Height(e));
  }
}
