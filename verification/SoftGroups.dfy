/** Soft value groups: they are built last, call nobody, and hold what has been contributed so far (param.go). */
module SoftGroups {
  import opened Values
  import opened Extraction
  import opened Registry
  import opened Resolver
  import opened Evaluator
  import opened Refinement
  import opened Digraph

  // ---------------------------------------------------------------------------------------------
  // Order

  /** The fields at the places `at`, which increase */
  ghost predicate Picks(fields: seq<ParamField>, at: seq<nat>, picked: seq<ParamField>) {
    && |at| == |picked|
    && (forall i, j :: 0 <= i < j < |at| ==> at[i] < at[j])
    && (forall i :: 0 <= i < |at| ==> at[i] < |fields| && picked[i] == fields[at[i]])
  }

  /** All the fields that are soft groups, or all that are not, in the order in which they are declared */
  ghost predicate PickedFrom(fields: seq<ParamField>, at: seq<nat>, picked: seq<ParamField>, soft: bool) {
    && Picks(fields, at, picked)
    && (forall i: nat :: i < |fields| ==> (i in at <==> fields[i].param.IsSoftGroup() == soft))
  }

  function Next(at: seq<nat>): (r: seq<nat>)
    ensures |r| == |at| && forall i :: 0 <= i < |at| ==> r[i] == at[i] + 1
  {
    seq(|at|, i requires 0 <= i < |at| => at[i] + 1)
  }

  lemma NextIn(at: seq<nat>, i: nat)
    ensures i + 1 in Next(at) <==> i in at
    ensures 0 !in Next(at)
  {
    if i in at {
      var j :| 0 <= j < |at| && at[j] == i;
      assert Next(at)[j] == i + 1;
    }
  }

  lemma PickNext(fields: seq<ParamField>, at: seq<nat>, picked: seq<ParamField>, soft: bool)
    requires fields != [] && PickedFrom(fields[1..], at, picked, soft)
    ensures Picks(fields, Next(at), picked)
    ensures forall i: nat :: 0 < i < |fields| ==> (i in Next(at) <==> fields[i].param.IsSoftGroup() == soft)
  {
    forall i: nat | 0 < i < |fields| ensures i in Next(at) <==> fields[i].param.IsSoftGroup() == soft {
      NextIn(at, i - 1);
      assert fields[i] == fields[1..][i - 1];
    }
  }

  lemma PickHead(fields: seq<ParamField>, at: seq<nat>, picked: seq<ParamField>)
    requires fields != [] && Picks(fields, at, picked) && 0 !in at
    ensures Picks(fields, [0] + at, [fields[0]] + picked)
  {
    forall j | 0 <= j < |at| ensures at[j] > 0 { assert at[j] in at; }
  }

  lemma HeadIn(at: seq<nat>, i: nat)
    ensures i in [0] + at <==> i == 0 || i in at
  {}

  lemma {:induction false} PickSoft(fields: seq<ParamField>, soft: bool) returns (at: seq<nat>)
    ensures PickedFrom(fields, at, Soft(fields, soft), soft)
  {
    hide Next, Picks;
    if fields == [] {
      at := [];
      assert Picks(fields, at, Soft(fields, soft)) by { PickNothing(soft); }
    } else {
      var rest := PickSoft(fields[1..], soft);
      PickNext(fields, rest, Soft(fields[1..], soft), soft);
      NextIn(rest, 0);
      at := Next(rest);
      if fields[0].param.IsSoftGroup() == soft {
        PickHead(fields, at, Soft(fields[1..], soft));
        forall i: nat ensures i in [0] + Next(rest) <==> i == 0 || i in Next(rest) { HeadIn(Next(rest), i); }
        at := [0] + at;
      }
    }
  }

  lemma {:induction false} PickNothing(soft: bool)
    ensures Picks([], [], Soft([], soft))
  {}

  /** A parameter object builds the fields that are not soft groups first and the soft groups last, both in the order in
      which they are declared. */
  lemma SoftGroupsAreBuiltLast(fields: seq<ParamField>) returns (firm: seq<nat>, soft: seq<nat>)
    ensures |firm| <= |BuildOrder(fields)|
    ensures PickedFrom(fields, firm, BuildOrder(fields)[..|firm|], false)
    ensures PickedFrom(fields, soft, BuildOrder(fields)[|firm|..], true)
  {
    firm := PickSoft(fields, false);
    soft := PickSoft(fields, true);
    assert BuildOrder(fields)[..|firm|] == Soft(fields, false);
    assert BuildOrder(fields)[|firm|..] == Soft(fields, true);
  }

  // ---------------------------------------------------------------------------------------------
  // What a soft group holds

  /** No scope on the way has a decorator for the group. */
  ghost predicate Undecorated(reg: Registry, elem: Key, path: seq<nat>) {
    forall s :: s in path ==> Slot(s, elem) !in reg.decorators
  }

  lemma {:induction false} NoGroupDecorators(e: Env, elem: Key, path: seq<nat>, level: nat, st: Store)
    requires e.Closed() && (forall s :: s in path ==> s in e.scopes) && Undecorated(e.reg, elem, path)
    ensures e.CallGroupDecorators(elem, path, level, st) == (None, st)
  {
    hide Env.Closed, Env.CallDecorator;
    if path != [] {
      assert path[0] in path && forall s :: s in path[1..] ==> s in path;
      NoGroupDecorators(e, elem, path[1..], level, st);
    }
  }

  /** In every state of the stores: a soft group that is not decorated is what the stores from its scope up to the root
      hold of it, and to build it changes nothing. */
  lemma {:induction false} SoftGroupCallsNobody(e: Env, elem: Key, slice: Key, c: nat, level: nat, st: Store)
    requires e.Closed() && c in e.scopes && e.Below({elem}, c, level)
    requires Undecorated(e.reg, elem, e.reg.PathToRoot(c))
    requires Env.Closest(st.decoratedGroups, slice, e.reg.PathToRoot(c)).None?
    ensures e.BuildGroup(elem, slice, true, c, level, st)
         == (Ok(Bag(multiset(e.GroupOn(st, elem, e.reg.PathToRoot(c))))), st)
  {
    hide Env.CallGroupDecorators, Env.CallAll, Env.GroupOn, Undecorated;
    var path := e.reg.PathToRoot(c);
    assert forall s :: s in path ==> s in e.scopes;
    NoGroupDecorators(e, elem, path, level, st);
  }

  /** The constructors among `ns` that have been called */
  function CalledAmong(st: Store, ns: seq<nat>): (r: seq<nat>)
    ensures forall n :: n in r <==> n in ns && n in st.called
  {
    if ns == [] then []
    else if ns[0] in st.called then [ns[0]] + CalledAmong(st, ns[1..])
    else CalledAmong(st, ns[1..])
  }

  lemma {:induction false} CalledConcat(st: Store, a: seq<nat>, b: seq<nat>)
    ensures CalledAmong(st, a + b) == CalledAmong(st, a) + CalledAmong(st, b)
  {
    if a == [] {
      assert a + b == b;
    } else {
      CalledConcat(st, a[1..], b);
      assert (a + b)[1..] == a[1..] + b;
    }
  }

  lemma {:induction false} CalledDistinct(st: Store, ns: seq<nat>)
    requires Distinct(ns)
    ensures Distinct(CalledAmong(st, ns))
  {
    if ns != [] {
      var rest := CalledAmong(st, ns[1..]);
      forall i, j | 0 <= i < j < |ns[1..]| ensures ns[1..][i] != ns[1..][j] {
        assert ns[1..][i] == ns[i + 1] && ns[1..][j] == ns[j + 1];
      }
      CalledDistinct(st, ns[1..]);
      forall j | 0 <= j < |rest| ensures rest[j] != ns[0] {
        assert rest[j] in ns[1..];
        var i :| 0 <= i < |ns[1..]| && ns[1..][i] == rest[j];
        assert ns[i + 1] == rest[j];
      }
    }
  }

  lemma {:induction false} ScopeHoldsCalled(e: Env, m: Meaning, st: Store, k: Key, s: nat)
    requires WritesItsKeys(e, m) && ProvidersUnique(e) && CommitsExact(e, m, st) && GroupsExact(e, m, st)
    ensures multiset(Listed(st.groups, Slot(s, k)))
            == multiset(m.Contributions(CalledAmong(st, e.reg.Providers(s, k)), k))
  {
    hide Committed, Meaning.Contributions;
    var ns := CalledAmong(st, e.reg.Providers(s, k));
    forall n | n in st.commits && CtorScope(e, n) == s && m.Contribution(n, k) != [] ensures n in ns {
      assert n in st.called && k in m.Ctor(n).value.groups;
    }
    forall n | n in ns ensures n in st.commits && CtorScope(e, n) == s {
      assert n in st.called;
    }
    CalledDistinct(st, e.reg.Providers(s, k));
    CommittedIsContributions(e, m, st.commits, ns, s, k);
    assert Listed(st.groups, Slot(s, k)) == Committed(e, m, st.commits, s, k);
  }

  /** Where the stores are exact, that is the contributions of the visible providers that have been called, each once,
      and of no other constructor. */
  lemma {:induction false} StoresHoldCalled(e: Env, m: Meaning, st: Store, k: Key, path: seq<nat>)
    requires WritesItsKeys(e, m) && ProvidersUnique(e) && CommitsExact(e, m, st) && GroupsExact(e, m, st)
    ensures multiset(e.GroupOn(st, k, path))
            == multiset(m.Contributions(CalledAmong(st, e.reg.ProvidersOn(path, k)), k))
  {
    hide WritesItsKeys, ProvidersUnique, CommitsExact, GroupsExact;
    if path != [] {
      StoresHoldCalled(e, m, st, k, path[1..]);
      ScopeHoldsCalled(e, m, st, k, path[0]);
      CalledConcat(st, e.reg.Providers(path[0], k), e.reg.ProvidersOn(path[1..], k));
      ContributionsConcat(m, CalledAmong(st, e.reg.Providers(path[0], k)),
                          CalledAmong(st, e.reg.ProvidersOn(path[1..], k)), k);
    }
  }

  lemma {:induction false} SoftGroupHoldsCalled(e: Env, m: Meaning, elem: Key, slice: Key, c: nat, level: nat,
          st: Store)
    requires e.Closed() && c in e.scopes && e.Below({elem}, c, level) && Sound(e, m) && Exact(e, m, st)
    requires Undecorated(e.reg, elem, e.reg.PathToRoot(c))
    requires Env.Closest(st.decoratedGroups, slice, e.reg.PathToRoot(c)).None?
    ensures e.BuildGroup(elem, slice, true, c, level, st)
         == (Ok(Bag(multiset(m.Contributions(CalledAmong(st, e.reg.AllProviders(c, elem)), elem)))), st)
  {
    hide Env.Closed, Env.BuildGroup, Env.GroupOn, Undecorated, WritesItsKeys, ProvidersUnique, CommitsExact,
         GroupsExact, DecoratorsTidy, SlicesWellFormed, ParamsPlain, Layered, IsMeaning, ValuesExact, DecoratedExact,
         DecoratedGroupsExact, Meaning.Contributions, CalledAmong;
    SoftGroupCallsNobody(e, elem, slice, c, level, st);
    StoresHoldCalled(e, m, st, elem, e.reg.PathToRoot(c));
  }
}
