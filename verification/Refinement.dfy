/** The resolver with its caches agrees with the evaluator. */
module Refinement {
  import opened Values
  import opened ResultTree
  import opened Extraction
  import opened Registry
  import opened Resolver
  import opened Evaluator
  import opened Digraph

  // ---------------------------------------------------------------------------------------------
  // What the registrations must be like

  /** Single parameters have no group, group parameters have one and ask for a slice of its values; no
      group is soft. */
  ghost predicate Plain(p: Param)
    decreases p
  {
    match p
    case SingleParam(k, _) => !k.IsGroup()
    case GroupParam(_, elem, slice, soft) => !soft && IsSliceOf(slice, elem)
    case ObjectParam(fields) => forall i :: 0 <= i < |fields| ==> Plain(fields[i].param)
  }

  predicate IsSliceOf(slice: Key, elem: Key) {
    slice.t.SliceOf? && elem == Key(slice.t.elem, "", slice.group) && elem.IsGroup() && slice.name == ""
  }

  ghost predicate PlainList(ps: seq<Param>) {
    forall p :: p in ps ==> Plain(p)
  }

  function CtorScope(e: Env, n: nat): nat {
    if n < |e.reg.ctors| then e.reg.ctors[n].scope else 0
  }

  function DecoratorScope(e: Env, d: nat): nat {
    if d < |e.reg.decos| then e.reg.decos[d].scope else 0
  }

  /** Constructors are in the tables under exactly the keys they register, and group names are not empty. */
  ghost predicate CtorsRegistered(e: Env)
    requires Tabled(e)
  {
    && (forall n, s, k :: n in e.rank ==>
          (n in e.reg.Providers(s, k) <==>
           s == CtorScope(e, n) && k in KeysOf(ListEntries(e.reg.ctors[n].results.results))))
    && (forall n, x :: n in e.rank && x in ListEntries(e.reg.ctors[n].results.results) ==> x.single == !x.key.IsGroup())
  }

  /** Single keys have one provider in a scope, and no provider is listed twice. */
  ghost predicate ProvidersUnique(e: Env) {
    && (forall s, k: Key :: !k.IsGroup() ==> |e.reg.Providers(s, k)| <= 1)
    && (forall s, k :: Distinct(e.reg.Providers(s, k)))
  }

  ghost predicate ParamsPlain(e: Env)
    requires Tabled(e)
  {
    && (forall n :: n in e.rank ==> PlainList(e.reg.ctors[n].params))
    && (forall d :: d in e.decoRank ==> PlainList(e.reg.decos[d].params))
  }

  /** Decorator `d` is registered for `k` in its scope. */
  ghost predicate Decorates(e: Env, d: nat, k: Key) {
    Slot(DecoratorScope(e, d), k) in e.reg.decorators && e.reg.decorators[Slot(DecoratorScope(e, d), k)] == d
  }

  /** Decorators succeed, are in the tables under exactly the keys they write (a decorated group under the key
      of its values), and decorate what is provided. */
  ghost predicate DecoratorsTidy(e: Env, m: Meaning) {
    && (forall slot :: slot in e.reg.decorators && slot.scope in e.scopes ==>
          e.reg.decorators[slot] in e.decoRank && DecoratorScope(e, e.reg.decorators[slot]) == slot.scope)
    && (forall d :: d in e.decoRank ==> m.Decorator(d).Ok? && DecoratorScope(e, d) in e.scopes)
    && (forall d, k :: d in e.decoRank && LastSet(m.Decorator(d).value, k).Some? ==> Decorates(e, d, k))
    && (forall d, k, slice :: d in e.decoRank && LastSubmit(m.Decorator(d).value, slice).Some? && IsSliceOf(slice, k)
          ==> Decorates(e, d, k))
    && (forall slot :: slot in e.reg.decorators && slot.scope in e.scopes && !slot.key.IsGroup() ==>
          && e.reg.AllProviders(slot.scope, slot.key) != []
          && LastSet(m.Decorator(e.reg.decorators[slot]).value, slot.key).Some?)
  }

  /** A constructor that succeeds writes exactly the single keys it is listed for, and only to groups that it
      is listed for. */
  ghost predicate WritesItsKeys(e: Env, m: Meaning) {
    forall n :: n in e.rank && m.Ctor(n).Ok? ==>
      && (forall k :: k in m.Ctor(n).value.values <==> !k.IsGroup() && n in e.reg.Providers(CtorScope(e, n), k))
      && (forall k :: k in m.Ctor(n).value.groups ==> n in e.reg.Providers(CtorScope(e, n), k))
      && (forall s, k :: n in e.reg.Providers(s, k) ==> s == CtorScope(e, n))
  }

  lemma CtorWritesItsKeys(e: Env, m: Meaning, n: nat)
    requires Tabled(e) && CtorsRegistered(e) && n in e.rank && EvalCtor(e, m, n).Ok?
    ensures var w := EvalCtor(e, m, n).value;
            && (forall k :: k in w.values <==> !k.IsGroup() && n in e.reg.Providers(CtorScope(e, n), k))
            && (forall k :: k in w.groups ==> n in e.reg.Providers(CtorScope(e, n), k))
  {
    var ctor := e.reg.ctors[n];
    var args := EvalList(e.reg, m, ctor.params, ctor.orig, None);
    RegisteredKeysAreWritten(ctor.results, Fit(e.world.ctor(n, args.value), |ctor.results.indexes|));
    var es := ListEntries(ctor.results.results);
    forall k ensures k in SingleKeysOf(es) <==> !k.IsGroup() && k in KeysOf(es) {
      if k in KeysOf(es) && !k.IsGroup() {
        var x :| x in es && x.key == k;
        assert x.single;
      }
    }
  }

  lemma RegisteredWritesItsKeys(e: Env, m: Meaning)
    requires Tabled(e) && CtorsRegistered(e) && IsMeaning(e, m)
    ensures WritesItsKeys(e, m)
  {
    forall n | n in e.rank && m.Ctor(n).Ok?
      ensures forall k :: k in m.Ctor(n).value.values <==> !k.IsGroup() && n in e.reg.Providers(CtorScope(e, n), k)
      ensures forall k :: k in m.Ctor(n).value.groups ==> n in e.reg.Providers(CtorScope(e, n), k)
    {
      CtorWritesItsKeys(e, m, n);
    }
  }

  /** Everything the agreement rests on */
  ghost predicate Sound(e: Env, m: Meaning) {
    && Layered(e)
    && IsMeaning(e, m)
    && ParamsPlain(e)
    && ProvidersUnique(e)
    && WritesItsKeys(e, m)
    && DecoratorsTidy(e, m)
    && SlicesWellFormed(e, m)
  }

  // ---------------------------------------------------------------------------------------------
  // Exact stores

  /** What the committed constructors contributed to group `k` of scope `s`, in the order of the commits */
  ghost function Committed(e: Env, m: Meaning, cs: seq<nat>, s: nat, k: Key): seq<Value> {
    if cs == [] then [] else
      Committed(e, m, cs[..|cs| - 1], s, k)
      + if CtorScope(e, cs[|cs| - 1]) == s then m.Contribution(cs[|cs| - 1], k) else []
  }

  ghost predicate CommitsExact(e: Env, m: Meaning, st: Store) {
    && Distinct(st.commits)
    && (forall n :: n in st.called <==> n in st.commits)
    && forall n :: n in st.called ==> n in e.rank && m.Ctor(n).Ok?
  }

  /** The values of the scopes are those that the called constructors made, no more and no less. */
  ghost predicate ValuesExact(e: Env, m: Meaning, st: Store) {
    && (forall n, k :: n in st.called && m.Ctor(n).Ok? && k in m.Ctor(n).value.values ==>
          && Slot(CtorScope(e, n), k) in st.values
          && st.values[Slot(CtorScope(e, n), k)] == m.Ctor(n).value.values[k])
    && (forall slot :: slot in st.values ==>
          exists n :: n in st.called && CtorScope(e, n) == slot.scope
                      && m.Ctor(n).Ok? && slot.key in m.Ctor(n).value.values)
  }

  ghost predicate GroupsExact(e: Env, m: Meaning, st: Store) {
    forall slot :: Listed(st.groups, slot) == Committed(e, m, st.commits, slot.scope, slot.key)
  }

  predicate IsCalled(st: Store, d: nat) {
    d in st.states && st.states[d] == Called
  }

  /** The decorated values are those that the called decorators made, no more and no less. */
  ghost predicate DecoratedExact(e: Env, m: Meaning, st: Store) {
    && (forall d :: d in st.states ==> d in e.decoRank)
    && (forall d, k :: IsCalled(st, d) && m.Decorator(d).Ok? && LastSet(m.Decorator(d).value, k).Some? ==>
          && Slot(DecoratorScope(e, d), k) in st.decorated
          && st.decorated[Slot(DecoratorScope(e, d), k)] == LastSet(m.Decorator(d).value, k).value)
    && (forall slot :: slot in st.decorated ==>
          exists d :: IsCalled(st, d) && DecoratorScope(e, d) == slot.scope
                      && m.Decorator(d).Ok? && LastSet(m.Decorator(d).value, slot.key).Some?)
  }

  ghost predicate DecoratedGroupsExact(e: Env, m: Meaning, st: Store) {
    && (forall d, k :: IsCalled(st, d) && m.Decorator(d).Ok? && LastSubmit(m.Decorator(d).value, k).Some? ==>
          && Slot(DecoratorScope(e, d), k) in st.decoratedGroups
          && st.decoratedGroups[Slot(DecoratorScope(e, d), k)] == LastSubmit(m.Decorator(d).value, k).value)
    && (forall slot :: slot in st.decoratedGroups ==>
          exists d :: IsCalled(st, d) && DecoratorScope(e, d) == slot.scope
                      && m.Decorator(d).Ok? && LastSubmit(m.Decorator(d).value, slot.key).Some?)
  }

  ghost predicate Exact(e: Env, m: Meaning, st: Store) {
    && CommitsExact(e, m, st)
    && ValuesExact(e, m, st)
    && GroupsExact(e, m, st)
    && DecoratedExact(e, m, st)
    && DecoratedGroupsExact(e, m, st)
  }

  lemma EmptyIsExact(e: Env, m: Meaning)
    ensures Exact(e, m, Empty)
  {}

  /** The decorators being run stand at `level` or above, `self` among them. */
  ghost predicate StackAbove(e: Env, st: Store, self: Option<nat>, level: nat) {
    && (forall d :: d in st.states && st.states[d] == OnStack ==> d in e.decoRank && e.decoRank[d] >= level)
    && (self.Some? ==> self.value in st.states && st.states[self.value] == OnStack)
  }

  /** Between the two states every decorator that was started is done, and only constructors below `level`
      have been committed. */
  ghost predicate Moved(e: Env, st: Store, st': Store, level: nat) {
    && Steps(st, st')
    && (forall d :: d in st'.states && d !in st.states ==> st'.states[d] == Called)
    && (forall n :: n in st'.called && n !in st.called ==> n in e.rank && e.rank[n] < level)
  }

  lemma MovedTransitive(e: Env, a: Store, b: Store, c: Store, level: nat)
    requires Moved(e, a, b, level) && Moved(e, b, c, level)
    ensures Moved(e, a, c, level)
  {
    StepsTransitive(a, b, c);
  }

  lemma NotMoved(e: Env, st: Store, level: nat)
    ensures Moved(e, st, st, level)
  {}

  lemma StackStays(e: Env, st: Store, st': Store, self: Option<nat>, level: nat)
    requires StackAbove(e, st, self, level) && Moved(e, st, st', level)
    ensures StackAbove(e, st', self, level)
  {}

  // ---------------------------------------------------------------------------------------------
  // Lookups

  /** A decorated value belongs to a called decorator of its own key. */
  lemma DecoratedSlotHasDecorator(e: Env, m: Meaning, st: Store, slot: Slot)
    requires DecoratorsTidy(e, m) && DecoratedExact(e, m, st) && slot in st.decorated
    ensures slot in e.reg.decorators && IsCalled(st, e.reg.decorators[slot])
  {
    var d :| IsCalled(st, d) && DecoratorScope(e, d) == slot.scope
             && m.Decorator(d).Ok? && LastSet(m.Decorator(d).value, slot.key).Some?;
    assert Decorates(e, d, slot.key);
  }

  lemma {:induction false} DecoratedSliceHasDecorator(e: Env, m: Meaning, st: Store, s: nat, elem: Key, slice: Key)
    requires DecoratorsTidy(e, m) && DecoratedExact(e, m, st) && DecoratedGroupsExact(e, m, st)
    requires Slot(s, slice) in st.decoratedGroups && IsSliceOf(slice, elem)
    ensures Slot(s, elem) in e.reg.decorators && IsCalled(st, e.reg.decorators[Slot(s, elem)])
    ensures m.Decorator(e.reg.decorators[Slot(s, elem)]).Ok?
    ensures LastSubmit(m.Decorator(e.reg.decorators[Slot(s, elem)]).value, slice).Some?
  {
    var d :| IsCalled(st, d) && DecoratorScope(e, d) == s
             && m.Decorator(d).Ok? && LastSubmit(m.Decorator(d).value, slice).Some?;
    assert Decorates(e, d, elem);
  }

  /** The check for missing dependencies does not depend on what has been decorated so far. */
  lemma {:induction false} MissingIsStatic(e: Env, m: Meaning, st: Store, p: Param, c: nat)
    requires DecoratorsTidy(e, m) && DecoratedExact(e, m, st) && c in e.scopes && Plain(p)
    ensures e.Missing(st, p, c) == Unprovided(e.reg, p, c)
    decreases p, 1
  {
    match p
    case SingleParam(k, _) =>
      if Slot(c, k) in st.decorated { DecoratedSlotHasDecorator(e, m, st, Slot(c, k)); }
    case GroupParam(_, _, _, _) =>
    case ObjectParam(fields) => MissingFieldsStatic(e, m, st, fields, c);
  }

  lemma {:induction false} MissingFieldsStatic(e: Env, m: Meaning, st: Store, fields: seq<ParamField>, c: nat)
    requires DecoratorsTidy(e, m) && DecoratedExact(e, m, st) && c in e.scopes
    requires forall i :: 0 <= i < |fields| ==> Plain(fields[i].param)
    ensures e.MissingFields(st, fields, c) == UnprovidedFields(e.reg, fields, c)
    decreases fields, 0
  {
    if fields != [] {
      assert (fields[0] decreases to fields[0].param);
      MissingIsStatic(e, m, st, fields[0].param, c);
      MissingFieldsStatic(e, m, st, fields[1..], c);
    }
  }

  lemma {:induction false} MissingListStatic(e: Env, m: Meaning, st: Store, ps: seq<Param>, c: nat)
    requires DecoratorsTidy(e, m) && DecoratedExact(e, m, st) && c in e.scopes && PlainList(ps)
    ensures e.MissingList(st, ps, c) == UnprovidedList(e.reg, ps, c)
  {
    if ps != [] {
      MissingIsStatic(e, m, st, ps[0], c);
      MissingListStatic(e, m, st, ps[1..], c);
    }
  }

  lemma OneProvider(e: Env, s: nat, k: Key, n: nat)
    requires ProvidersUnique(e) && !k.IsGroup() && n in e.reg.Providers(s, k)
    ensures e.reg.Providers(s, k) == [n]
  {}

  /** A cached value stands in a scope that provides it, and is what its provider means. */
  lemma ValueHasProvider(e: Env, m: Meaning, st: Store, slot: Slot) returns (n: nat)
    requires WritesItsKeys(e, m) && ProvidersUnique(e) && CommitsExact(e, m, st) && ValuesExact(e, m, st)
    requires slot in st.values
    ensures n in st.called && e.reg.Providers(slot.scope, slot.key) == [n]
    ensures m.Ctor(n).Ok? && slot.key in m.Ctor(n).value.values && st.values[slot] == m.Ctor(n).value.values[slot.key]
  {
    n :| n in st.called && CtorScope(e, n) == slot.scope && m.Ctor(n).Ok? && slot.key in m.Ctor(n).value.values;
    OneProvider(e, slot.scope, slot.key, n);
  }

  /** The closest decorator that is not being run is the closest decorator that applies. */
  lemma {:induction false} ClosestIsApplying(e: Env, st: Store, k: Key, path: seq<nat>, self: Option<nat>, level: nat)
    requires StackAbove(e, st, self, level) && DecoratorsUnder(e, k, path, self, level)
    ensures e.ClosestDecorator(st, k, path) == ApplyingScope(e.reg, k, path, self)
  {
    if path != [] { ClosestIsApplying(e, st, k, path[1..], self, level); }
  }

  /** Where no decorator applies there is no decorated value. */
  lemma {:induction false} NoDecoratedValue(e: Env, m: Meaning, st: Store, k: Key, path: seq<nat>,
          self: Option<nat>, level: nat)
    requires DecoratorsTidy(e, m) && DecoratedExact(e, m, st) && StackAbove(e, st, self, level)
    requires ApplyingScope(e.reg, k, path, self).None?
    ensures Env.Closest(st.decorated, k, path).None?
  {
    if path != [] {
      NoDecoratedValue(e, m, st, k, path[1..], self, level);
      if Slot(path[0], k) in st.decorated { DecoratedSlotHasDecorator(e, m, st, Slot(path[0], k)); }
    }
  }

  /** The closest scope with a value or a provider is the closest scope with a provider. */
  lemma {:induction false} SameLocation(e: Env, m: Meaning, st: Store, k: Key, path: seq<nat>)
    requires WritesItsKeys(e, m) && ProvidersUnique(e) && CommitsExact(e, m, st) && ValuesExact(e, m, st)
    ensures e.Locate(st, k, path) == ProvidingScope(e.reg, k, path)
  {
    if path != [] {
      SameLocation(e, m, st, k, path[1..]);
      if Slot(path[0], k) in st.values { var n := ValueHasProvider(e, m, st, Slot(path[0], k)); }
    }
  }

  /** With all decorators of the group run, the closest decorated slice is that of the closest decorator that
      makes one. */
  lemma {:induction false} SameSlice(e: Env, m: Meaning, st: Store, elem: Key, slice: Key, path: seq<nat>,
          self: Option<nat>, level: nat)
    requires DecoratorsTidy(e, m) && DecoratedExact(e, m, st) && DecoratedGroupsExact(e, m, st)
    requires StackAbove(e, st, self, level) && IsSliceOf(slice, elem)
    requires forall s :: s in path ==> s in e.scopes
    requires forall s :: s in path && Applies(e.reg, elem, s, self) ==> IsCalled(st, e.reg.decorators[Slot(s, elem)])
    ensures Env.Closest(st.decoratedGroups, slice, path) == DecoratedSlice(e.reg, m, elem, slice, path, self)
  {
    if path != [] {
      SameSlice(e, m, st, elem, slice, path[1..], self, level);
      if Slot(path[0], slice) in st.decoratedGroups {
        DecoratedSliceHasDecorator(e, m, st, path[0], elem, slice);
      }
    }
  }

  // ---------------------------------------------------------------------------------------------
  // Commits

  /** The values after a commit, slot by slot */
  ghost predicate AddsValues(st: Store, s: nat, w: Written, st': Store) {
    forall slot: Slot ::
      if slot.scope == s && slot.key in w.values
      then slot in st'.values && st'.values[slot] == w.values[slot.key]
      else (slot in st'.values <==> slot in st.values) && (slot in st.values ==> st'.values[slot] == st.values[slot])
  }

  ghost predicate AddsGroups(st: Store, s: nat, w: Written, st': Store) {
    forall slot: Slot ::
      Listed(st'.groups, slot) == Listed(st.groups, slot) + if slot.scope == s then Listed(w.groups, slot.key) else []
  }

  lemma CommitAdds(st: Store, s: nat, w: Written)
    ensures AddsValues(st, s, w, st.Commit(s, w)) && AddsGroups(st, s, w, st.Commit(s, w))
  {
    hide AddsValues, AddsGroups;
    CommitAddsValues(st, s, w);
    CommitAddsGroups(st, s, w);
  }

  lemma CommitAddsValues(st: Store, s: nat, w: Written)
    ensures AddsValues(st, s, w, st.Commit(s, w))
  {
    var values := st.Commit(s, w).values;
    forall slot: Slot ensures
      if slot.scope == s && slot.key in w.values then slot in values && values[slot] == w.values[slot.key]
      else (slot in values <==> slot in st.values) && (slot in st.values ==> values[slot] == st.values[slot])
    {
      if slot.scope == s && slot.key in w.values { assert slot == Slot(s, slot.key); }
    }
  }

  lemma CommitAddsGroups(st: Store, s: nat, w: Written)
    ensures AddsGroups(st, s, w, st.Commit(s, w))
  {
    hide Store.Commit, Listed;
    forall slot: Slot ensures
      Listed(st.Commit(s, w).groups, slot)
      == Listed(st.groups, slot) + if slot.scope == s then Listed(w.groups, slot.key) else []
    {
      CommitAddsGroup(st, s, w, slot);
    }
  }

  lemma CommitAddsGroup(st: Store, s: nat, w: Written, slot: Slot)
    ensures Listed(st.Commit(s, w).groups, slot)
         == Listed(st.groups, slot) + if slot.scope == s then Listed(w.groups, slot.key) else []
  {
    var groups := st.Commit(s, w).groups;
    if slot.scope == s && slot.key in w.groups {
      assert Slot(s, slot.key) == slot;
      assert slot in groups && groups[slot] == Listed(st.groups, slot) + w.groups[slot.key];
    } else if slot in st.groups {
      assert slot in groups && groups[slot] == st.groups[slot];
    } else {
      assert slot !in groups;
    }
  }

  lemma CommitKeepsValues(e: Env, m: Meaning, st: Store, n: nat, w: Written, st': Store)
    requires WritesItsKeys(e, m) && ProvidersUnique(e) && CommitsExact(e, m, st) && ValuesExact(e, m, st)
    requires n in e.rank && n !in st.called && m.Ctor(n) == Ok(w)
    requires AddsValues(st, CtorScope(e, n), w, st') && st'.called == st.called + {n}
    ensures ValuesExact(e, m, st')
  {
    var s := CtorScope(e, n);
    forall n', k | n' in st'.called && m.Ctor(n').Ok? && k in m.Ctor(n').value.values
      ensures Slot(CtorScope(e, n'), k) in st'.values
      ensures st'.values[Slot(CtorScope(e, n'), k)] == m.Ctor(n').value.values[k]
    {
      if n' != n {
        OneProvider(e, CtorScope(e, n'), k, n');
        if CtorScope(e, n') == s && k in w.values { OneProvider(e, s, k, n); }
      }
    }
    forall slot | slot in st'.values
      ensures exists n' :: n' in st'.called && CtorScope(e, n') == slot.scope
                           && m.Ctor(n').Ok? && slot.key in m.Ctor(n').value.values
    {
      if slot.scope == s && slot.key in w.values {
        assert n in st'.called;
      } else {
        var n' :| n' in st.called && CtorScope(e, n') == slot.scope
                  && m.Ctor(n').Ok? && slot.key in m.Ctor(n').value.values;
        assert n' in st'.called;
      }
    }
  }

  lemma CommitKeepsGroups(e: Env, m: Meaning, st: Store, n: nat, w: Written, st': Store)
    requires GroupsExact(e, m, st) && m.Ctor(n) == Ok(w)
    requires AddsGroups(st, CtorScope(e, n), w, st') && st'.commits == st.commits + [n]
    ensures GroupsExact(e, m, st')
  {
    assert st'.commits[..|st'.commits| - 1] == st.commits;
    forall slot: Slot ensures Listed(st'.groups, slot) == Committed(e, m, st'.commits, slot.scope, slot.key) {
      assert Listed(st.groups, slot) == Committed(e, m, st.commits, slot.scope, slot.key);
    }
  }

  lemma CommitKeepsCommits(e: Env, m: Meaning, st: Store, n: nat, st': Store)
    requires CommitsExact(e, m, st) && n in e.rank && n !in st.called && m.Ctor(n).Ok?
    requires st'.called == st.called + {n} && st'.commits == st.commits + [n]
    ensures CommitsExact(e, m, st')
  {
    assert n !in st.commits;
  }

  /** Committing what a constructor means keeps the stores exact. */
  lemma CommitKeepsExact(e: Env, m: Meaning, st: Store, n: nat, w: Written, st': Store)
    requires WritesItsKeys(e, m) && ProvidersUnique(e) && Exact(e, m, st)
    requires n in e.rank && n !in st.called && m.Ctor(n) == Ok(w)
    requires st' == st.Commit(CtorScope(e, n), w).(called := st.called + {n}, commits := st.commits + [n])
    ensures Exact(e, m, st')
  {
    CommitAdds(st, CtorScope(e, n), w);
    CommitKeepsCommits(e, m, st, n, st');
    CommitKeepsValues(e, m, st, n, w, st');
    CommitKeepsGroups(e, m, st, n, w, st');
    DecorationsFrame(e, m, st, st');
  }

  lemma DecorationsFrame(e: Env, m: Meaning, st: Store, st': Store)
    requires DecoratedExact(e, m, st) && DecoratedGroupsExact(e, m, st)
    requires st'.states == st.states && st'.decorated == st.decorated && st'.decoratedGroups == st.decoratedGroups
    ensures DecoratedExact(e, m, st') && DecoratedGroupsExact(e, m, st')
  {
    assert forall d :: IsCalled(st', d) <==> IsCalled(st, d);
  }

  /** The decorators' part of the stores does not matter to the constructors' part. */
  lemma CommitsFrame(e: Env, m: Meaning, st: Store, st': Store)
    requires CommitsExact(e, m, st) && ValuesExact(e, m, st) && GroupsExact(e, m, st)
    requires st'.called == st.called && st'.commits == st.commits && st'.values == st.values && st'.groups == st.groups
    ensures CommitsExact(e, m, st') && ValuesExact(e, m, st') && GroupsExact(e, m, st')
  {}

  /** Which slots a run of decorated writes sets, and to what */
  lemma {:induction false} DecorateAllSets(st: Store, s: nat, ws: seq<Write>, slot: Slot)
    ensures var st' := st.DecorateAll(s, ws);
            if slot.scope == s && LastSet(ws, slot.key).Some?
            then slot in st'.decorated && st'.decorated[slot] == LastSet(ws, slot.key).value
            else (slot in st'.decorated <==> slot in st.decorated)
                 && (slot in st.decorated ==> st'.decorated[slot] == st.decorated[slot])
    ensures var st' := st.DecorateAll(s, ws);
            if slot.scope == s && LastSubmit(ws, slot.key).Some?
            then slot in st'.decoratedGroups && st'.decoratedGroups[slot] == LastSubmit(ws, slot.key).value
            else (slot in st'.decoratedGroups <==> slot in st.decoratedGroups)
                 && (slot in st.decoratedGroups ==> st'.decoratedGroups[slot] == st.decoratedGroups[slot])
  {
    if ws != [] { DecorateAllSets(st, s, ws[..|ws| - 1], slot); }
  }

  lemma {:induction false} DecorateKeepsValues(e: Env, m: Meaning, st: Store, d: nat, ws: seq<Write>, st': Store)
    requires DecoratorsTidy(e, m) && DecoratedExact(e, m, st)
    requires d in e.decoRank && !IsCalled(st, d) && m.Decorator(d) == Ok(ws)
    requires st'.decorated == st.DecorateAll(DecoratorScope(e, d), ws).decorated && st'.states == st.states[d := Called]
    ensures DecoratedExact(e, m, st')
  {
    var s := DecoratorScope(e, d);
    forall d', k | IsCalled(st', d') && m.Decorator(d').Ok? && LastSet(m.Decorator(d').value, k).Some?
      ensures Slot(DecoratorScope(e, d'), k) in st'.decorated
      ensures st'.decorated[Slot(DecoratorScope(e, d'), k)] == LastSet(m.Decorator(d').value, k).value
    {
      DecorateAllSets(st, s, ws, Slot(DecoratorScope(e, d'), k));
      assert Decorates(e, d', k);
      if d' != d {
        assert IsCalled(st, d');
        assert LastSet(ws, k).Some? ==> Decorates(e, d, k);
      }
    }
    forall slot | slot in st'.decorated
      ensures exists d' :: IsCalled(st', d') && DecoratorScope(e, d') == slot.scope
                           && m.Decorator(d').Ok? && LastSet(m.Decorator(d').value, slot.key).Some?
    {
      DecorateAllSets(st, s, ws, slot);
      if slot.scope == s && LastSet(ws, slot.key).Some? {
        assert IsCalled(st', d);
      } else {
        var d' :| IsCalled(st, d') && DecoratorScope(e, d') == slot.scope
                  && m.Decorator(d').Ok? && LastSet(m.Decorator(d').value, slot.key).Some?;
        assert IsCalled(st', d');
      }
    }
  }

  /** Each slice key that a decorator writes belongs to one decorator of the scope. */
  ghost predicate SlicesWellFormed(e: Env, m: Meaning) {
    forall d, slice :: d in e.decoRank && m.Decorator(d).Ok? && LastSubmit(m.Decorator(d).value, slice).Some? ==>
      slice.t.SliceOf? && IsSliceOf(slice, Key(slice.t.elem, "", slice.group))
  }

  lemma {:induction false} DecorateKeepsGroups(e: Env, m: Meaning, st: Store, d: nat, ws: seq<Write>, st': Store)
    requires DecoratorsTidy(e, m) && SlicesWellFormed(e, m) && DecoratedExact(e, m, st)
    requires DecoratedGroupsExact(e, m, st)
    requires d in e.decoRank && !IsCalled(st, d) && m.Decorator(d) == Ok(ws)
    requires st'.decoratedGroups == st.DecorateAll(DecoratorScope(e, d), ws).decoratedGroups
    requires st'.states == st.states[d := Called]
    ensures DecoratedGroupsExact(e, m, st')
  {
    var s := DecoratorScope(e, d);
    forall d', k | IsCalled(st', d') && m.Decorator(d').Ok? && LastSubmit(m.Decorator(d').value, k).Some?
      ensures Slot(DecoratorScope(e, d'), k) in st'.decoratedGroups
      ensures st'.decoratedGroups[Slot(DecoratorScope(e, d'), k)] == LastSubmit(m.Decorator(d').value, k).value
    {
      DecorateAllSets(st, s, ws, Slot(DecoratorScope(e, d'), k));
      if d' != d {
        assert IsCalled(st, d');
        var elem := Key(k.t.elem, "", k.group);
        assert IsSliceOf(k, elem) && Decorates(e, d', elem);
        assert LastSubmit(ws, k).Some? ==> Decorates(e, d, elem);
      }
    }
    forall slot | slot in st'.decoratedGroups
      ensures exists d' :: IsCalled(st', d') && DecoratorScope(e, d') == slot.scope
                           && m.Decorator(d').Ok? && LastSubmit(m.Decorator(d').value, slot.key).Some?
    {
      DecorateAllSets(st, s, ws, slot);
      if slot.scope == s && LastSubmit(ws, slot.key).Some? {
        assert IsCalled(st', d);
      } else {
        var d' :| IsCalled(st, d') && DecoratorScope(e, d') == slot.scope
                  && m.Decorator(d').Ok? && LastSubmit(m.Decorator(d').value, slot.key).Some?;
        assert IsCalled(st', d');
      }
    }
  }

  // ---------------------------------------------------------------------------------------------
  // Groups: every visible provider contributes once

  lemma {:induction false} ContributionsConcat(m: Meaning, a: seq<nat>, b: seq<nat>, k: Key)
    ensures m.Contributions(a + b, k) == m.Contributions(a, k) + m.Contributions(b, k)
  {
    if a == [] {
      assert a + b == b;
    } else {
      ContributionsConcat(m, a[1..], b, k);
      assert (a + b)[1..] == a[1..] + b;
    }
  }

  lemma {:induction false} ContributionsWithout(m: Meaning, ns: seq<nat>, i: nat, k: Key)
    requires i < |ns|
    ensures multiset(m.Contributions(ns, k))
         == multiset(m.Contributions(ns[..i] + ns[i + 1..], k)) + multiset(m.Contribution(ns[i], k))
  {
    assert ns == ns[..i] + ([ns[i]] + ns[i + 1..]);
    ContributionsConcat(m, ns[..i], [ns[i]] + ns[i + 1..], k);
    ContributionsConcat(m, [ns[i]], ns[i + 1..], k);
    ContributionsConcat(m, ns[..i], ns[i + 1..], k);
    assert m.Contributions([ns[i]], k) == m.Contribution(ns[i], k);
  }

  /** `cs` commits all of `ns`, and nothing else that contributes to group `k` of scope `s`. */
  ghost predicate Supplies(e: Env, m: Meaning, cs: seq<nat>, ns: seq<nat>, s: nat, k: Key) {
    && Distinct(cs) && Distinct(ns)
    && (forall n :: n in ns ==> n in cs && CtorScope(e, n) == s)
    && (forall n :: n in cs && CtorScope(e, n) == s && m.Contribution(n, k) != [] ==> n in ns)
  }

  lemma SuppliesWithoutLast(e: Env, m: Meaning, cs: seq<nat>, ns: seq<nat>, s: nat, k: Key)
    requires Supplies(e, m, cs, ns, s, k) && cs != [] && cs[|cs| - 1] !in ns
    ensures Supplies(e, m, cs[..|cs| - 1], ns, s, k)
  {
    var init, n := cs[..|cs| - 1], cs[|cs| - 1];
    assert cs == init + [n];
  }

  lemma SuppliesWithout(e: Env, m: Meaning, cs: seq<nat>, ns: seq<nat>, s: nat, k: Key, i: nat)
    requires Supplies(e, m, cs, ns, s, k) && cs != [] && i < |ns| && ns[i] == cs[|cs| - 1]
    ensures Supplies(e, m, cs[..|cs| - 1], ns[..i] + ns[i + 1..], s, k)
  {
    var init, n := cs[..|cs| - 1], cs[|cs| - 1];
    var rest := ns[..i] + ns[i + 1..];
    assert cs == init + [n];
    assert n !in init;
    assert ns == ns[..i] + [n] + ns[i + 1..];
    assert forall x :: x in ns <==> x in rest || x == n;
    forall j | 0 <= j < |rest| ensures rest[j] == ns[if j < i then j else j + 1] {}
    assert Distinct(rest) && n !in rest;
  }

  lemma {:induction false} CommittedIsContributions(e: Env, m: Meaning, cs: seq<nat>, ns: seq<nat>, s: nat, k: Key)
    requires Supplies(e, m, cs, ns, s, k)
    ensures multiset(Committed(e, m, cs, s, k)) == multiset(m.Contributions(ns, k))
    decreases |cs|
  {
    if cs == [] {
      HeadIsMember(ns);
    } else {
      var n := cs[|cs| - 1];
      if n in ns {
        var i :| 0 <= i < |ns| && ns[i] == n;
        SuppliesWithout(e, m, cs, ns, s, k, i);
        CommittedIsContributions(e, m, cs[..|cs| - 1], ns[..i] + ns[i + 1..], s, k);
        ContributionsWithout(m, ns, i, k);
      } else {
        SuppliesWithoutLast(e, m, cs, ns, s, k);
        CommittedIsContributions(e, m, cs[..|cs| - 1], ns, s, k);
        assert n in cs;
      }
    }
  }

  lemma {:induction false} ScopeGroupIsContributions(e: Env, m: Meaning, st: Store, k: Key, s: nat)
    requires WritesItsKeys(e, m) && ProvidersUnique(e) && CommitsExact(e, m, st) && GroupsExact(e, m, st)
    requires forall n :: n in e.reg.Providers(s, k) ==> n in st.called
    ensures multiset(Listed(st.groups, Slot(s, k))) == multiset(m.Contributions(e.reg.Providers(s, k), k))
  {
    var ns := e.reg.Providers(s, k);
    forall n | n in st.commits && CtorScope(e, n) == s && m.Contribution(n, k) != [] ensures n in ns {
      assert n in st.called && k in m.Ctor(n).value.groups;
    }
    forall n | n in ns ensures n in st.commits && CtorScope(e, n) == s {
      assert n in st.called;
    }
    CommittedIsContributions(e, m, st.commits, ns, s, k);
    assert Listed(st.groups, Slot(s, k)) == Committed(e, m, st.commits, s, k);
  }

  /** Once the providers of a group have been called, its stores hold their contributions, each once. */
  lemma {:induction false} GroupIsContributions(e: Env, m: Meaning, st: Store, k: Key, path: seq<nat>)
    requires WritesItsKeys(e, m) && ProvidersUnique(e) && CommitsExact(e, m, st) && GroupsExact(e, m, st)
    requires forall n :: n in e.reg.ProvidersOn(path, k) ==> n in st.called
    ensures multiset(e.GroupOn(st, k, path)) == multiset(m.Contributions(e.reg.ProvidersOn(path, k), k))
  {
    if path != [] {
      GroupIsContributions(e, m, st, k, path[1..]);
      ScopeGroupIsContributions(e, m, st, k, path[0]);
      ContributionsConcat(m, e.reg.Providers(path[0], k), e.reg.ProvidersOn(path[1..], k), k);
    }
  }

  // ---------------------------------------------------------------------------------------------
  // What soundness gives, one fact at a time

  lemma SoundCtor(e: Env, m: Meaning, n: nat)
    requires Sound(e, m) && n in e.rank
    ensures n < |e.reg.ctors| && e.reg.ctors[n].results.Valid()
    ensures Under(e, ListLeaves(e.reg.ctors[n].params), e.reg.ctors[n].orig, None, e.rank[n])
    ensures PlainList(e.reg.ctors[n].params)
    ensures m.Ctor(n) == EvalCtor(e, m, n)
  {
    assert CtorLayered(e, n);
  }

  lemma SoundDecorator(e: Env, m: Meaning, d: nat)
    requires Sound(e, m) && d in e.decoRank
    ensures d < |e.reg.decos| && e.reg.decos[d].results.Valid() && e.reg.decos[d].scope in e.scopes
    ensures Under(e, ListLeaves(e.reg.decos[d].params), e.reg.decos[d].scope, Some(d), e.decoRank[d])
    ensures PlainList(e.reg.decos[d].params)
    ensures m.Decorator(d).Ok? && m.Decorator(d) == EvalDecorator(e, m, d)
  {
    assert DecoratorLayered(e, d);
  }

  lemma {:induction false} SoundMissing(e: Env, m: Meaning, st: Store, ps: seq<Param>, c: nat)
    requires Sound(e, m) && Exact(e, m, st) && c in e.scopes && PlainList(ps)
    ensures e.MissingList(st, ps, c) == UnprovidedList(e.reg, ps, c)
  {
    MissingListStatic(e, m, st, ps, c);
  }

  lemma {:induction false} SoundDecorated(e: Env, m: Meaning, st: Store, k: Key, s: nat)
    requires Sound(e, m) && Exact(e, m, st) && s in e.scopes && Slot(s, k) in e.reg.decorators && !k.IsGroup()
    requires IsCalled(st, e.reg.decorators[Slot(s, k)])
    ensures var d := e.reg.decorators[Slot(s, k)];
            Env.Fetch(st.decorated, Slot(s, k)) == OrNoValue(LastSet(m.Decorator(d).value, k))
  {}

  lemma {:induction false} SoundUndecorated(e: Env, m: Meaning, st: Store, k: Key, path: seq<nat>,
          self: Option<nat>, level: nat)
    requires Sound(e, m) && Exact(e, m, st) && StackAbove(e, st, self, level)
    requires ApplyingScope(e.reg, k, path, self).None?
    ensures Env.Closest(st.decorated, k, path).None?
  {
    NoDecoratedValue(e, m, st, k, path, self, level);
  }

  lemma {:induction false} SoundLocation(e: Env, m: Meaning, st: Store, k: Key, path: seq<nat>)
    requires Sound(e, m) && Exact(e, m, st)
    ensures e.Locate(st, k, path) == ProvidingScope(e.reg, k, path)
  {
    SameLocation(e, m, st, k, path);
  }

  lemma ValueIsProvided(e: Env, m: Meaning, st: Store, k: Key, s: nat)
    requires WritesItsKeys(e, m) && ProvidersUnique(e) && CommitsExact(e, m, st) && ValuesExact(e, m, st)
    requires !k.IsGroup() && e.reg.Providers(s, k) != []
    requires e.reg.Providers(s, k)[0] in st.called || Slot(s, k) in st.values
    ensures var ns := e.reg.Providers(s, k);
            && |ns| == 1 && m.Ctor(ns[0]).Ok?
            && Slot(s, k) in st.values
            && st.values[Slot(s, k)] == Provided(m.Ctor(ns[0]), k)
  {
    var ns := e.reg.Providers(s, k);
    OneProvider(e, s, k, ns[0]);
    if Slot(s, k) in st.values { var n := ValueHasProvider(e, m, st, Slot(s, k)); }
  }

  /** A value in the store is what the last provider of its slot means, and no provider of the slot fails. */
  lemma {:induction false} SoundValue(e: Env, m: Meaning, st: Store, k: Key, s: nat)
    requires Sound(e, m) && Exact(e, m, st) && !k.IsGroup() && e.reg.Providers(s, k) != []
    requires e.reg.Providers(s, k)[0] in st.called || Slot(s, k) in st.values
    ensures var ns := e.reg.Providers(s, k);
            && m.FirstFailure(ns).None?
            && Slot(s, k) in st.values
            && st.values[Slot(s, k)] == Provided(m.Ctor(ns[|ns| - 1]), k)
  {
    hide IsMeaning, Layered, ParamsPlain, DecoratorsTidy, SlicesWellFormed, WritesItsKeys, ProvidersUnique,
         CommitsExact, ValuesExact, GroupsExact, DecoratedExact, DecoratedGroupsExact;
    ValueIsProvided(e, m, st, k, s);
  }

  lemma {:induction false} SoundSlice(e: Env, m: Meaning, st: Store, elem: Key, slice: Key, path: seq<nat>,
          self: Option<nat>, level: nat)
    requires Sound(e, m) && Exact(e, m, st) && StackAbove(e, st, self, level) && IsSliceOf(slice, elem)
    requires forall s :: s in path ==> s in e.scopes
    requires forall s :: s in path && Applies(e.reg, elem, s, self) ==> IsCalled(st, e.reg.decorators[Slot(s, elem)])
    ensures Env.Closest(st.decoratedGroups, slice, path) == DecoratedSlice(e.reg, m, elem, slice, path, self)
  {
    SameSlice(e, m, st, elem, slice, path, self, level);
  }

  lemma {:induction false} SoundGroup(e: Env, m: Meaning, st: Store, k: Key, path: seq<nat>)
    requires Sound(e, m) && Exact(e, m, st)
    requires forall n :: n in e.reg.ProvidersOn(path, k) ==> n in st.called
    ensures multiset(e.GroupOn(st, k, path)) == multiset(m.Contributions(e.reg.ProvidersOn(path, k), k))
  {
    GroupIsContributions(e, m, st, k, path);
  }

  lemma SoundCalled(e: Env, m: Meaning, st: Store, n: nat)
    requires Exact(e, m, st) && n in st.called
    ensures m.Ctor(n).Ok?
  {}

  lemma SoundCommit(e: Env, m: Meaning, st: Store, n: nat, w: Written, st': Store)
    requires Sound(e, m) && Exact(e, m, st) && n in e.rank && n !in st.called && m.Ctor(n) == Ok(w)
    requires st' == st.(runs := st.runs + [n]).Commit(CtorScope(e, n), w)
                       .(called := st.called + {n}, commits := st.commits + [n])
    ensures Exact(e, m, st')
  {
    var ran := st.(runs := st.runs + [n]);
    CommitsFrame(e, m, st, ran);
    DecorationsFrame(e, m, st, ran);
    CommitKeepsExact(e, m, ran, n, w, st');
  }

  lemma SoundRun(e: Env, m: Meaning, st: Store, st': Store)
    requires Exact(e, m, st) && st' == st.(runs := st'.runs)
    ensures Exact(e, m, st')
  {
    CommitsFrame(e, m, st, st');
    DecorationsFrame(e, m, st, st');
  }

  lemma SoundStart(e: Env, m: Meaning, st: Store, d: nat, st1: Store)
    requires Exact(e, m, st) && d in e.decoRank && d !in st.states && st1 == st.(states := st.states[d := OnStack])
    ensures Exact(e, m, st1)
  {
    CommitsFrame(e, m, st, st1);
    assert forall x :: IsCalled(st1, x) <==> IsCalled(st, x);
  }

  lemma {:induction false} SoundDecorate(e: Env, m: Meaning, st: Store, d: nat, ws: seq<Write>, st': Store)
    requires Sound(e, m) && Exact(e, m, st) && d in e.decoRank && !IsCalled(st, d) && m.Decorator(d) == Ok(ws)
    requires st' == st.(decoRuns := st'.decoRuns).DecorateAll(DecoratorScope(e, d), ws)
                       .(states := st.states[d := Called])
    ensures Exact(e, m, st')
  {
    var ran := st.(decoRuns := st'.decoRuns);
    CommitsFrame(e, m, st, ran);
    DecorationsFrame(e, m, st, ran);
    CommitsFrame(e, m, ran, st');
    DecorateKeepsValues(e, m, ran, d, ws, st');
    DecorateKeepsGroups(e, m, ran, d, ws, st');
  }

  // ---------------------------------------------------------------------------------------------
  // The agreement: every Build and every Call

  /** The state is exact after as it was before, having moved below `level`. */
  ghost predicate Agrees(e: Env, m: Meaning, st: Store, st': Store, level: nat) {
    Exact(e, m, st') && Moved(e, st, st', level)
  }

  lemma AgreesTransitive(e: Env, m: Meaning, a: Store, b: Store, c: Store, level: nat)
    requires Agrees(e, m, a, b, level) && Agrees(e, m, b, c, level)
    ensures Agrees(e, m, a, c, level)
  {
    MovedTransitive(e, a, b, c, level);
  }

  lemma AgreesHere(e: Env, m: Meaning, st: Store, level: nat)
    requires Exact(e, m, st)
    ensures Agrees(e, m, st, st, level)
  {
    NotMoved(e, st, level);
  }

  lemma AgreesNext(e: Env, m: Meaning, st: Store, st': Store, self: Option<nat>, level: nat)
    requires Agrees(e, m, st, st', level) && StackAbove(e, st, self, level)
    ensures Exact(e, m, st') && StackAbove(e, st', self, level)
  {
    StackStays(e, st, st', self, level);
  }

  /** paramList.BuildList */
  lemma {:induction false} BuildListAgrees(e: Env, m: Meaning, ps: seq<Param>, c: nat, self: Option<nat>,
          rl: nat, level: nat, st: Store)
    requires e.Closed() && Sound(e, m) && Exact(e, m, st) && StackAbove(e, st, self, level)
    requires c in e.scopes && e.Below(ListLeaves(ps), c, rl) && Under(e, ListLeaves(ps), c, self, level)
    requires PlainList(ps)
    ensures e.BuildList(ps, c, rl, st).0 == EvalList(e.reg, m, ps, c, self)
    ensures Agrees(e, m, st, e.BuildList(ps, c, rl, st).1, level)
    decreases e.Idle(st), rl, 0, ListSize(ps), 0
  {
    hide Sound, Exact, Agrees, Steps, Under, StackAbove, Env.Below, Env.Closed;
    if ps == [] {
      AgreesHere(e, m, st, level);
    } else {
      UnderParts(e, Leaves(ps[0]), ListLeaves(ps[1..]), c, self, rl, level);
      var (v, st1) := e.Build(ps[0], c, rl, st);
      BuildAgrees(e, m, ps[0], c, self, rl, level, st);
      if v.Ok? {
        AgreesNext(e, m, st, st1, self, level);
        IdleShrinks(e, st, st1);
        BuildListAgrees(e, m, ps[1..], c, self, rl, level, st1);
        AgreesTransitive(e, m, st, st1, e.BuildList(ps[1..], c, rl, st1).1, level);
      }
    }
  }

  lemma UnderParts(e: Env, a: set<Key>, b: set<Key>, c: nat, self: Option<nat>, rl: nat, level: nat)
    requires e.Below(a + b, c, rl) && Under(e, a + b, c, self, level)
    ensures e.Below(a, c, rl) && Under(e, a, c, self, level) && e.Below(b, c, rl) && Under(e, b, c, self, level)
  {
    assert forall k :: k in a || k in b ==> k in a + b;
  }

  /** param.Build */
  lemma {:induction false} BuildAgrees(e: Env, m: Meaning, p: Param, c: nat, self: Option<nat>, rl: nat,
          level: nat, st: Store)
    requires e.Closed() && Sound(e, m) && Exact(e, m, st) && StackAbove(e, st, self, level)
    requires c in e.scopes && e.Below(Leaves(p), c, rl) && Under(e, Leaves(p), c, self, level) && Plain(p)
    ensures e.Build(p, c, rl, st).0 == Eval(e.reg, m, p, c, self)
    ensures Agrees(e, m, st, e.Build(p, c, rl, st).1, level)
    decreases e.Idle(st), rl, 0, Size(p), 3
  {
    hide Sound, Exact, Agrees, Steps;
    match p
    case SingleParam(k, optional) => BuildSingleAgrees(e, m, k, optional, c, self, rl, level, st);
    case GroupParam(_, elem, slice, soft) => BuildGroupAgrees(e, m, elem, slice, c, self, rl, level, st);
    case ObjectParam(fields) =>
      BuildOrderKeeps(fields);
      PlainInBuildOrder(fields);
      BuildFieldsAgrees(e, m, BuildOrder(fields), c, self, rl, level, st);
  }

  lemma PlainInBuildOrder(fields: seq<ParamField>)
    requires forall i :: 0 <= i < |fields| ==> Plain(fields[i].param)
    ensures forall i :: 0 <= i < |BuildOrder(fields)| ==> Plain(BuildOrder(fields)[i].param)
  {
    forall i | 0 <= i < |BuildOrder(fields)| ensures Plain(BuildOrder(fields)[i].param) {
      var f := BuildOrder(fields)[i];
      assert f in Soft(fields, false) || f in Soft(fields, true);
      assert f in fields;
    }
  }

  lemma {:induction false} BuildFieldsAgrees(e: Env, m: Meaning, fields: seq<ParamField>, c: nat,
          self: Option<nat>, rl: nat, level: nat, st: Store)
    requires e.Closed() && Sound(e, m) && Exact(e, m, st) && StackAbove(e, st, self, level)
    requires c in e.scopes && e.Below(FieldLeaves(fields), c, rl) && Under(e, FieldLeaves(fields), c, self, level)
    requires forall i :: 0 <= i < |fields| ==> Plain(fields[i].param)
    ensures e.BuildFields(fields, c, rl, st).0 == EvalFields(e.reg, m, fields, c, self)
    ensures Agrees(e, m, st, e.BuildFields(fields, c, rl, st).1, level)
    decreases e.Idle(st), rl, 0, FieldSize(fields), 0
  {
    hide Sound, Exact, Agrees, Steps, Under, StackAbove, Env.Below, Env.Closed;
    if fields == [] {
      AgreesHere(e, m, st, level);
    } else {
      var init, last := fields[..|fields| - 1], fields[|fields| - 1];
      FieldConcat(init, [last]);
      assert fields == init + [last];
      assert FieldLeaves([last]) == Leaves(last.param);
      UnderParts(e, FieldLeaves(init), Leaves(last.param), c, self, rl, level);
      var (vs, st1) := e.BuildFields(init, c, rl, st);
      BuildFieldsAgrees(e, m, init, c, self, rl, level, st);
      if vs.Ok? {
        AgreesNext(e, m, st, st1, self, level);
        IdleShrinks(e, st, st1);
        BuildAgrees(e, m, last.param, c, self, rl, level, st1);
        AgreesTransitive(e, m, st, st1, e.Build(last.param, c, rl, st1).1, level);
      }
    }
  }

  /** paramSingle.Build */
  lemma {:induction false} BuildSingleAgrees(e: Env, m: Meaning, k: Key, optional: bool, c: nat,
          self: Option<nat>, rl: nat, level: nat, st: Store)
    requires e.Closed() && Sound(e, m) && Exact(e, m, st) && StackAbove(e, st, self, level)
    requires c in e.scopes && e.Below({k}, c, rl) && Under(e, {k}, c, self, level) && !k.IsGroup()
    ensures e.BuildSingle(k, optional, c, rl, st).0 == EvalSingle(e.reg, m, k, optional, c, self)
    ensures Agrees(e, m, st, e.BuildSingle(k, optional, c, rl, st).1, level)
    decreases e.Idle(st), rl, 0, 1, 2
  {
    hide Sound, Exact, Agrees, Steps;
    var path := e.reg.PathToRoot(c);
    ClosestIsApplying(e, st, k, path, self, level);
    var s := ApplyingScope(e.reg, k, path, self);
    if s.Some? {
      var d := e.reg.decorators[Slot(s.value, k)];
      SoundDecorator(e, m, d);
      CallDecoratorAgrees(e, m, d, self, rl, level, st);
      AgreesNext(e, m, st, e.CallDecorator(d, rl, st).1, self, level);
      SoundDecorated(e, m, e.CallDecorator(d, rl, st).1, k, s.value);
    } else {
      SoundUndecorated(e, m, st, k, path, self, level);
      BuildUndecoratedAgrees(e, m, k, optional, c, self, rl, level, st);
    }
  }

  lemma {:induction false} BuildUndecoratedAgrees(e: Env, m: Meaning, k: Key, optional: bool, c: nat,
          self: Option<nat>, rl: nat, level: nat, st: Store)
    requires e.Closed() && Sound(e, m) && Exact(e, m, st) && StackAbove(e, st, self, level)
    requires c in e.scopes && e.Below({k}, c, rl) && Under(e, {k}, c, self, level) && !k.IsGroup()
    ensures e.BuildUndecorated(k, optional, c, rl, st).0 == EvalProvided(e.reg, m, k, optional, c)
    ensures Agrees(e, m, st, e.BuildUndecorated(k, optional, c, rl, st).1, level)
    decreases e.Idle(st), rl, 0, 1, 1
  {
    hide Sound, Exact, Agrees, Steps, StackAbove, Env.CallAll, Env.Closed, Env.Locate, Env.Idle,
         Meaning.FirstFailure, ProvidingScope;
    var path := e.reg.PathToRoot(c);
    SoundLocation(e, m, st, k, path);
    AgreesHere(e, m, st, level);
    var s := ProvidingScope(e.reg, k, path);
    if s.Some? {
      var ns := e.reg.Providers(s.value, k);
      e.BelowProviders(k, c, s.value, rl);
      e.BelowProviders(k, c, s.value, level);
      if Slot(s.value, k) in st.values {
        SoundValue(e, m, st, k, s.value);
      } else {
        CallAllAgrees(e, m, ns, self, rl, level, st);
        var (failed, st1) := e.CallAll(ns, rl, st);
        if failed.None? {
          AgreesNext(e, m, st, st1, self, level);
          SoundValue(e, m, st1, k, s.value);
        }
      }
    }
  }

  lemma {:induction false} CallAllAgrees(e: Env, m: Meaning, ns: seq<nat>, self: Option<nat>, rl: nat,
          level: nat, st: Store)
    requires e.Closed() && Sound(e, m) && Exact(e, m, st) && StackAbove(e, st, self, level)
    requires CtorsBelow(e, ns, rl) && CtorsBelow(e, ns, level)
    ensures e.CallAll(ns, rl, st).0 == m.FirstFailure(ns)
    ensures Agrees(e, m, st, e.CallAll(ns, rl, st).1, level)
    ensures m.FirstFailure(ns).None? ==> forall n :: n in ns ==> n in e.CallAll(ns, rl, st).1.called
    decreases e.Idle(st), rl, 0, 0, |ns|
  {
    hide Sound, Exact, Agrees, Steps;
    if ns == [] {
      AgreesHere(e, m, st, level);
    } else {
      var (err, st1) := e.CallCtor(ns[0], st);
      CallCtorAgrees(e, m, ns[0], self, level, st);
      if err.None? {
        AgreesNext(e, m, st, st1, self, level);
        IdleShrinks(e, st, st1);
        CallAllAgrees(e, m, ns[1..], self, rl, level, st1);
        AgreesTransitive(e, m, st, st1, e.CallAll(ns[1..], rl, st1).1, level);
        CalledStays(st1, e.CallAll(ns[1..], rl, st1).1);
      }
    }
  }

  lemma CalledStays(st: Store, st': Store)
    requires Steps(st, st')
    ensures st.called <= st'.called
  {}

  ghost function Failure<T>(t: Try<T>): Option<Error> {
    if t.Ok? then None else Some(t.error)
  }

  /** constructorNode.Call */
  lemma {:induction false} CallCtorAgrees(e: Env, m: Meaning, n: nat, self: Option<nat>, level: nat, st: Store)
    requires e.Closed() && Sound(e, m) && Exact(e, m, st) && StackAbove(e, st, self, level) && n in e.rank
    requires e.rank[n] < level
    ensures e.CallCtor(n, st).0 == Failure(m.Ctor(n))
    ensures Agrees(e, m, st, e.CallCtor(n, st).1, level)
    ensures m.Ctor(n).Ok? ==> n in e.CallCtor(n, st).1.called
    decreases e.Idle(st), e.rank[n], 1, 0, 0
  {
    hide Sound, Exact, Agrees, Steps, Produce;
    AgreesHere(e, m, st, level);
    if n in st.called {
      SoundCalled(e, m, st, n);
    } else {
      var ctor := e.reg.ctors[n];
      SoundCtor(e, m, n);
      SoundMissing(e, m, st, ctor.params, ctor.orig);
      if UnprovidedList(e.reg, ctor.params, ctor.orig) == [] {
        var (args, st1) := e.BuildList(ctor.params, ctor.orig, e.rank[n], st);
        StackLower(e, st, self, level, e.rank[n]);
        BuildListAgrees(e, m, ctor.params, ctor.orig, None, e.rank[n], e.rank[n], st);
        AgreesHigher(e, m, st, st1, e.rank[n], level);
        if args.Ok? { RunCtorAgrees(e, m, n, args.value, level, st, st1); }
      }
    }
  }

  lemma StackLower(e: Env, st: Store, self: Option<nat>, level: nat, level': nat)
    requires StackAbove(e, st, self, level) && level' <= level
    ensures StackAbove(e, st, None, level')
  {}

  lemma AgreesHigher(e: Env, m: Meaning, st: Store, st': Store, level: nat, level': nat)
    requires Agrees(e, m, st, st', level) && level <= level'
    ensures Agrees(e, m, st, st', level')
  {}

  lemma {:induction false} RunCtorAgrees(e: Env, m: Meaning, n: nat, args: seq<Value>, level: nat, st: Store,
          st1: Store)
    requires e.Closed() && Sound(e, m) && n in e.rank && e.rank[n] < level && Agrees(e, m, st, st1, e.rank[n])
    requires n !in st.called
    requires UnprovidedList(e.reg, e.reg.ctors[n].params, e.reg.ctors[n].orig) == []
    requires EvalList(e.reg, m, e.reg.ctors[n].params, e.reg.ctors[n].orig, None) == Ok(args)
    requires Steps(st, st1)
    ensures e.RunCtor(n, args, st, st1).0 == Failure(m.Ctor(n))
    ensures Agrees(e, m, st, e.RunCtor(n, args, st, st1).1, level)
    ensures m.Ctor(n).Ok? ==> n in e.RunCtor(n, args, st, st1).1.called
  {
    hide Sound, Exact, Moved, Steps, Produce;
    SoundCtor(e, m, n);
    var st2 := e.RunCtor(n, args, st, st1).1;
    NotCalledMeanwhile(e, st, st1, n);
    if m.Ctor(n).Ok? {
      SoundCommit(e, m, st1, n, m.Ctor(n).value, st2);
    } else {
      SoundRun(e, m, st1, st2);
    }
    MovedByRun(e, st, st1, st2, n, level);
  }

  /** The constructors called while the arguments of `n` are built stand below `n`. */
  lemma NotCalledMeanwhile(e: Env, st: Store, st1: Store, n: nat)
    requires n in e.rank && Moved(e, st, st1, e.rank[n]) && n !in st.called
    ensures n !in st1.called
  {}

  lemma MovedByRun(e: Env, st: Store, st1: Store, st2: Store, n: nat, level: nat)
    requires n in e.rank && e.rank[n] < level && Moved(e, st, st1, e.rank[n]) && Steps(st, st2)
    requires st2.states == st1.states && (st2.called == st1.called || st2.called == st1.called + {n})
    ensures Moved(e, st, st2, level)
  {}

  /** decoratorNode.Call */
  lemma {:induction false} CallDecoratorAgrees(e: Env, m: Meaning, d: nat, self: Option<nat>, rl: nat,
          level: nat, st: Store)
    requires e.Closed() && d < |e.reg.decos| && e.reg.decos[d].scope in e.scopes && e.reg.decos[d].results.Valid()
    requires Sound(e, m) && Exact(e, m, st) && StackAbove(e, st, self, level)
    requires d in e.decoRank && e.decoRank[d] < level && st.State(d) != OnStack
    ensures e.CallDecorator(d, rl, st).0 == None
    ensures Agrees(e, m, st, e.CallDecorator(d, rl, st).1, level)
    ensures IsCalled(e.CallDecorator(d, rl, st).1, d)
    decreases e.Idle(st), rl, 0, 0, 0
  {
    hide Sound, Exact, Agrees, Steps, ExtractFrom;
    AgreesHere(e, m, st, level);
    if st.State(d) != Called {
      var deco := e.reg.decos[d];
      SoundDecorator(e, m, d);
      var st1 := st.(states := st.states[d := OnStack]);
      SoundStart(e, m, st, d, st1);
      SoundMissing(e, m, st1, deco.params, deco.scope);
      assert d in e.Idle(st) && d !in e.Idle(st1);
      e.AllBelowTop(ListLeaves(deco.params), deco.scope);
      BuildListAgrees(e, m, deco.params, deco.scope, Some(d), e.Top(), e.decoRank[d], st1);
      var (args, st2) := e.BuildList(deco.params, deco.scope, e.Top(), st1);
      e.StartedSteps(d, st, st2);
      RunDecoratorAgrees(e, m, d, args.value, level, st, st1, st2);
    }
  }

  lemma {:induction false} RunDecoratorAgrees(e: Env, m: Meaning, d: nat, args: seq<Value>, level: nat,
          st: Store, st1: Store, st2: Store)
    requires e.Closed() && d < |e.reg.decos| && e.reg.decos[d].scope in e.scopes && e.reg.decos[d].results.Valid()
    requires Sound(e, m) && d in e.decoRank && e.decoRank[d] < level && d !in st.states
    requires st1 == st.(states := st.states[d := OnStack]) && Agrees(e, m, st1, st2, e.decoRank[d])
    requires Steps(st, st2) && d in st2.states && st2.states[d] == OnStack && d !in st2.decoRuns[|st.decoRuns|..]
    requires UnprovidedList(e.reg, e.reg.decos[d].params, e.reg.decos[d].scope) == []
    requires EvalList(e.reg, m, e.reg.decos[d].params, e.reg.decos[d].scope, Some(d)) == Ok(args)
    ensures e.RunDecorator(d, args, st, st2).0 == None
    ensures Agrees(e, m, st, e.RunDecorator(d, args, st, st2).1, level)
    ensures IsCalled(e.RunDecorator(d, args, st, st2).1, d)
  {
    hide Sound, Exact, ExtractFrom;
    SoundDecorator(e, m, d);
    SoundDecorate(e, m, st2, d, m.Decorator(d).value, e.RunDecorator(d, args, st, st2).1);
  }

  /** paramGroupedSlice.Build */
  lemma {:induction false} BuildGroupAgrees(e: Env, m: Meaning, elem: Key, slice: Key, c: nat, self: Option<nat>,
          rl: nat, level: nat, st: Store)
    requires e.Closed() && Sound(e, m) && Exact(e, m, st) && StackAbove(e, st, self, level)
    requires c in e.scopes && e.Below({elem}, c, rl) && Under(e, {elem}, c, self, level) && IsSliceOf(slice, elem)
    ensures e.BuildGroup(elem, slice, false, c, rl, st).0 == EvalGroup(e.reg, m, elem, slice, c, self)
    ensures Agrees(e, m, st, e.BuildGroup(elem, slice, false, c, rl, st).1, level)
    decreases e.Idle(st), rl, 0, 1, 2
  {
    hide Sound, Exact, Agrees, Steps;
    var path := e.reg.PathToRoot(c);
    var (err, st1) := e.CallGroupDecorators(elem, path, rl, st);
    CallGroupDecoratorsAgrees(e, m, elem, path, self, rl, level, st);
    AgreesNext(e, m, st, st1, self, level);
    IdleShrinks(e, st, st1);
    SoundSlice(e, m, st1, elem, slice, path, self, level);
    if DecoratedSlice(e.reg, m, elem, slice, path, self).None? {
      var ns := e.reg.AllProviders(c, elem);
      CallAllAgrees(e, m, ns, self, rl, level, st1);
      var (failed, st2) := e.CallAll(ns, rl, st1);
      AgreesTransitive(e, m, st, st1, st2, level);
      if failed.None? {
        AgreesNext(e, m, st, st2, self, level);
        SoundGroup(e, m, st2, elem, path);
      }
    }
  }

  lemma {:induction false} CallGroupDecoratorsAgrees(e: Env, m: Meaning, elem: Key, path: seq<nat>,
          self: Option<nat>, rl: nat, level: nat, st: Store)
    requires e.Closed() && Sound(e, m) && Exact(e, m, st) && StackAbove(e, st, self, level)
    requires (forall s :: s in path ==> s in e.scopes) && DecoratorsUnder(e, elem, path, self, level)
    ensures e.CallGroupDecorators(elem, path, rl, st).0 == None == GroupDecoratorFailure(e.reg, m, elem, path, self)
    ensures Agrees(e, m, st, e.CallGroupDecorators(elem, path, rl, st).1, level)
    ensures forall s :: s in path && Applies(e.reg, elem, s, self) ==>
              IsCalled(e.CallGroupDecorators(elem, path, rl, st).1, e.reg.decorators[Slot(s, elem)])
    decreases e.Idle(st), rl, 0, 0, |path|
  {
    hide Sound, Exact, Agrees, Steps;
    if path == [] {
      AgreesHere(e, m, st, level);
    } else {
      CallGroupDecoratorsAgrees(e, m, elem, path[1..], self, rl, level, st);
      var (err, st1) := e.CallGroupDecorators(elem, path[1..], rl, st);
      AgreesNext(e, m, st, st1, self, level);
      IdleShrinks(e, st, st1);
      if Applies(e.reg, elem, path[0], self) {
        var d := e.reg.decorators[Slot(path[0], elem)];
        SoundDecorator(e, m, d);
        CallDecoratorAgrees(e, m, d, self, rl, level, st1);
        AgreesTransitive(e, m, st, st1, e.CallDecorator(d, rl, st1).1, level);
        StatesStay(st1, e.CallDecorator(d, rl, st1).1);
      }
    }
  }

  lemma StatesStay(st: Store, st': Store)
    requires Steps(st, st')
    ensures forall d :: IsCalled(st, d) ==> IsCalled(st', d)
  {}
}
