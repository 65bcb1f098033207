/** The graph that internal/dot/graph.go keeps for display, and the pruning of what did not fail. */
module DotGraph {
  import opened Values
  import ResultTree

  datatype ErrorType = NoError | RootCause | TransitiveFailure

  datatype Param = Param(key: Key, optional: bool)

  /** `index` tells the values of a group apart. */
  datatype Result = Result(key: Key, index: nat) {
    /** The group it is put in */
    function GroupKey(): Key { Key(key.t, "", key.group) }
  }

  /** `groupParams` names the groups that it takes. */
  datatype Ctor = Ctor(id: nat, params: seq<Param>, groupParams: seq<Key>, results: seq<Result>, errorType: ErrorType)

  datatype Group = Group(results: seq<Result>, errorType: ErrorType)

  /** `all` holds every constructor that was added; `ctors`, `ctorMap` and `consumers` refer to them. */
  datatype Dot = Dot(
    all: seq<Ctor>,
    ctors: seq<nat>,
    ctorMap: map<nat, nat>,
    groups: seq<Key>,
    groupMap: map<Key, Group>,
    consumers: map<Key, seq<nat>>,
    failedCtors: set<nat>,
    failedGroups: set<Key>,
    rootCauses: seq<Result>,
    transitiveFailures: seq<Result>)

  const EmptyDot := Dot([], [], map[], [], map[], map[], {}, {}, [], [])

  // ---------------------------------------------------------------------------------------------
  // The graph before it is pruned

  /** A constructor is among the consumers of each of its parameters. */
  ghost predicate ConsumersKnown(dot: Dot) {
    && (forall i, j :: 0 <= i < |dot.all| && 0 <= j < |dot.all[i].params| ==>
          i in Listed(dot.consumers, dot.all[i].params[j].key) && dot.all[i].params[j].key.group == "")
    && (forall k, i: nat :: i in Listed(dot.consumers, k) ==> i < |dot.all|)
  }

  /** The groups are listed once; the values of a group are numbered by their positions. */
  ghost predicate GroupsNumbered(dot: Dot) {
    && (forall k :: k in dot.groups <==> k in dot.groupMap)
    && (forall k :: k in dot.groupMap ==> k.name == "")
    && (forall k, j :: k in dot.groupMap && 0 <= j < |dot.groupMap[k].results| ==>
          && dot.groupMap[k].results[j].index == j && dot.groupMap[k].results[j].GroupKey() == k
          && dot.groupMap[k].results[j].key.IsGroup())
  }

  /** The grouped results of a constructor are in their groups. */
  ghost predicate ResultsGrouped(dot: Dot) {
    forall i, r :: 0 <= i < |dot.all| && r in dot.all[i].results && r.key.IsGroup() ==>
      && r.GroupKey() in dot.groupMap
      && r.index < |dot.groupMap[r.GroupKey()].results|
      && dot.groupMap[r.GroupKey()].results[r.index] == r
  }

  /** A value of a group is the result of exactly one constructor. */
  ghost predicate ResultsOwned(dot: Dot) {
    && (forall k, r :: k in dot.groupMap && r in dot.groupMap[k].results ==> exists i: nat :: Owns(dot, i, r))
    && (forall i: nat, j: nat, r: Result :: Owns(dot, i, r) && Owns(dot, j, r) && r.key.IsGroup() ==> i == j)
  }

  ghost predicate Owns(dot: Dot, i: nat, r: Result) {
    i < |dot.all| && r in dot.all[i].results
  }

  /** All the constructors are shown, and the map finds one by its number. */
  ghost predicate AllShown(dot: Dot) {
    && |dot.ctors| == |dot.all| && (forall i :: 0 <= i < |dot.ctors| ==> dot.ctors[i] == i)
    && (forall id :: id in dot.ctorMap <==> exists i :: 0 <= i < |dot.all| && dot.all[i].id == id)
    && (forall id :: id in dot.ctorMap ==> dot.ctorMap[id] < |dot.all| && dot.all[dot.ctorMap[id]].id == id)
  }

  /** What holds while constructors are added and failures are recorded */
  ghost predicate Built(dot: Dot) {
    ConsumersKnown(dot) && GroupsNumbered(dot) && ResultsGrouped(dot) && ResultsOwned(dot) && AllShown(dot)
  }

  // ---------------------------------------------------------------------------------------------
  // What is left after pruning

  /** Ctor.removeParam, for several keys */
  function WithoutKeys(ps: seq<Param>, ks: set<Key>): seq<Param> {
    if ps == [] then []
    else if ps[|ps| - 1].key in ks then WithoutKeys(ps[..|ps| - 1], ks)
    else WithoutKeys(ps[..|ps| - 1], ks) + [ps[|ps| - 1]]
  }

  /** Group.removeResult, for several results that name the group `k` */
  function WithoutResults(k: Key, rs: seq<Result>, gone: set<Result>): seq<Result> {
    if rs == [] then []
    else if Result(k, rs[|rs| - 1].index) in gone then WithoutResults(k, rs[..|rs| - 1], gone)
    else WithoutResults(k, rs[..|rs| - 1], gone) + [rs[|rs| - 1]]
  }

  /** The constructors among `cs` that failed */
  function FailedAmong(all: seq<Ctor>, cs: seq<nat>, failed: set<nat>): seq<nat>
    requires forall i :: 0 <= i < |cs| ==> cs[i] < |all|
  {
    if cs == [] then [] else
      if all[cs[|cs| - 1]].id in failed then FailedAmong(all, cs[..|cs| - 1], failed) + [cs[|cs| - 1]]
      else FailedAmong(all, cs[..|cs| - 1], failed)
  }

  function Among(ks: seq<Key>, kept: set<Key>): seq<Key> {
    if ks == [] then []
    else if ks[|ks| - 1] in kept then Among(ks[..|ks| - 1], kept) + [ks[|ks| - 1]]
    else Among(ks[..|ks| - 1], kept)
  }

  lemma {:induction false} WithoutKeysMember(ps: seq<Param>, ks: set<Key>, p: Param)
    ensures p in WithoutKeys(ps, ks) <==> p in ps && p.key !in ks
  {
    if ps != [] {
      WithoutKeysMember(ps[..|ps| - 1], ks, p);
      assert ps == ps[..|ps| - 1] + [ps[|ps| - 1]];
    }
  }

  lemma {:induction false} WithoutResultsMember(k: Key, rs: seq<Result>, gone: set<Result>, r: Result)
    ensures r in WithoutResults(k, rs, gone) <==> r in rs && Result(k, r.index) !in gone
  {
    if rs != [] {
      WithoutResultsMember(k, rs[..|rs| - 1], gone, r);
      assert rs == rs[..|rs| - 1] + [rs[|rs| - 1]];
    }
  }

  lemma {:induction false} FailedAmongMember(all: seq<Ctor>, cs: seq<nat>, failed: set<nat>, c: nat)
    requires forall i :: 0 <= i < |cs| ==> cs[i] < |all|
    ensures c in FailedAmong(all, cs, failed) <==> c in cs && c < |all| && all[c].id in failed
  {
    if cs != [] {
      FailedAmongMember(all, cs[..|cs| - 1], failed, c);
      assert cs == cs[..|cs| - 1] + [cs[|cs| - 1]];
    }
  }

  lemma {:induction false} AmongMember(ks: seq<Key>, kept: set<Key>, k: Key)
    ensures k in Among(ks, kept) <==> k in ks && k in kept
  {
    if ks != [] {
      AmongMember(ks[..|ks| - 1], kept, k);
      assert ks == ks[..|ks| - 1] + [ks[|ks| - 1]];
    }
  }

  /** Pruned in two goes */
  lemma {:induction false} WithoutKeysTwice(ps: seq<Param>, a: set<Key>, b: set<Key>)
    ensures WithoutKeys(WithoutKeys(ps, a), b) == WithoutKeys(ps, a + b)
  {
    if ps != [] {
      var init, last := ps[..|ps| - 1], ps[|ps| - 1];
      WithoutKeysTwice(init, a, b);
      if last.key !in a {
        var qs := WithoutKeys(init, a) + [last];
        assert qs[..|qs| - 1] == WithoutKeys(init, a);
      }
    }
  }

  lemma {:induction false} WithoutResultsTwice(k: Key, rs: seq<Result>, a: set<Result>, b: set<Result>)
    ensures WithoutResults(k, WithoutResults(k, rs, a), b) == WithoutResults(k, rs, a + b)
  {
    if rs != [] {
      var init, last := rs[..|rs| - 1], rs[|rs| - 1];
      WithoutResultsTwice(k, init, a, b);
      if Result(k, last.index) !in a {
        var qs := WithoutResults(k, init, a) + [last];
        assert qs[..|qs| - 1] == WithoutResults(k, init, a);
      }
    }
  }

  /** Nothing to take away */
  lemma {:induction false} WithoutAbsentKeys(ps: seq<Param>, ks: set<Key>)
    requires forall p :: p in ps ==> p.key !in ks
    ensures WithoutKeys(ps, ks) == ps
  {
    if ps != [] {
      assert ps[|ps| - 1] in ps;
      WithoutAbsentKeys(ps[..|ps| - 1], ks);
    }
  }

  lemma {:induction false} WithoutAbsentResults(k: Key, rs: seq<Result>, gone: set<Result>)
    requires forall r :: r in rs ==> Result(k, r.index) !in gone
    ensures WithoutResults(k, rs, gone) == rs
  {
    if rs != [] {
      assert rs[|rs| - 1] in rs;
      WithoutAbsentResults(k, rs[..|rs| - 1], gone);
    }
  }

  function SetOf(rs: seq<Result>): set<Result> {
    set r | r in rs
  }

  /** The results of the constructors among `cs` that did not fail */
  function GoneOf(all: seq<Ctor>, cs: seq<nat>, failed: set<nat>): set<Result>
    requires forall i :: 0 <= i < |cs| ==> cs[i] < |all|
  {
    if cs == [] then {} else
      GoneOf(all, cs[..|cs| - 1], failed)
      + if all[cs[|cs| - 1]].id in failed then {} else SetOf(all[cs[|cs| - 1]].results)
  }

  lemma {:induction false} GoneMember(all: seq<Ctor>, cs: seq<nat>, failed: set<nat>, r: Result)
    requires forall i :: 0 <= i < |cs| ==> cs[i] < |all|
    ensures r in GoneOf(all, cs, failed) <==>
              exists i :: 0 <= i < |cs| && all[cs[i]].id !in failed && r in all[cs[i]].results
  {
    if cs != [] {
      var init := cs[..|cs| - 1];
      GoneMember(all, init, failed, r);
      if i :| 0 <= i < |init| && all[init[i]].id !in failed && r in all[init[i]].results { assert cs[i] == init[i]; }
      if i :| 0 <= i < |cs| && all[cs[i]].id !in failed && r in all[cs[i]].results {
        if i < |init| { assert init[i] == cs[i]; }
      }
    }
  }

  function KeysOf(rs: set<Result>): set<Key> {
    set r | r in rs :: r.key
  }

  /** PruneSuccess */
  function Prune(dot: Dot): Dot
    requires forall i :: 0 <= i < |dot.ctors| ==> dot.ctors[i] < |dot.all|
  {
    var gone := GoneOf(dot.all, dot.ctors, dot.failedCtors);
    var kept := FailedAmong(dot.all, dot.ctors, dot.failedCtors);
    var keptGroups := dot.groupMap.Keys * dot.failedGroups;
    dot.(all := seq(|dot.all|, i requires 0 <= i < |dot.all| =>
                      dot.all[i].(params := WithoutKeys(dot.all[i].params, KeysOf(gone)),
                                  groupParams := if i in kept then Among(dot.all[i].groupParams, keptGroups)
                                    else dot.all[i].groupParams)),
         ctors := kept,
         ctorMap := map id | id in dot.ctorMap && id in dot.failedCtors :: dot.ctorMap[id],
         groups := Among(dot.groups, dot.failedGroups),
         groupMap := map k | k in dot.groupMap && k in dot.failedGroups ::
                       dot.groupMap[k].(results := WithoutResults(k, dot.groupMap[k].results, gone)))
  }

  /** Constructor `i` has been pruned. */
  ghost predicate Pruned(dot: Dot, i: nat) {
    i < |dot.all| && i !in dot.ctors
  }

  /** A value of a group that is still shown although its constructor is not */
  ghost predicate Stale(dot: Dot, k: Key, r: Result) {
    && k in dot.groupMap && r in dot.groupMap[k].results
    && forall i: nat :: i in dot.ctors ==> !Owns(dot, i, r)
  }

  /** Exactly the failed constructors and groups are kept; no parameter asks for what only a pruned constructor or a
      pruned group has; a kept group has all the results of the kept constructors. */
  ghost predicate NothingDangles(dot: Dot, dot': Dot)
    requires |dot'.all| == |dot.all|
  {
    && (forall i :: i in dot'.ctors <==> i in dot.ctors && i < |dot.all| && dot.all[i].id in dot.failedCtors)
    && (forall k :: k in dot'.groups <==> k in dot.groups && k in dot.failedGroups)
    && (forall k :: k in dot'.groups <==> k in dot'.groupMap)
    && (forall i, p, j: nat, r ::
          (i in dot'.ctors && i < |dot'.all| && p in dot'.all[i].params &&
           Pruned(dot', j) && r in dot'.all[j].results) ==>
          p.key != r.key)
    && (forall i, k :: i in dot'.ctors && i < |dot'.all| && k in dot'.all[i].groupParams ==> k in dot'.groupMap)
    && (forall i, r: Result ::
          (i in dot'.ctors && Owns(dot', i, r) && r.key.IsGroup() && r.GroupKey() in dot'.groupMap) ==>
          r in dot'.groupMap[r.GroupKey()].results)
  }

  lemma GoneIsOwned(dot: Dot, r: Result)
    requires AllShown(dot)
    ensures r in GoneOf(dot.all, dot.ctors, dot.failedCtors) <==>
              exists i: nat :: Owns(dot, i, r) && dot.all[i].id !in dot.failedCtors
  {
    GoneMember(dot.all, dot.ctors, dot.failedCtors, r);
    if r in GoneOf(dot.all, dot.ctors, dot.failedCtors) {
      var i :| 0 <= i < |dot.ctors| && dot.all[dot.ctors[i]].id !in dot.failedCtors &&
               r in dot.all[dot.ctors[i]].results;
      assert Owns(dot, i, r);
    }
    if i: nat :| Owns(dot, i, r) && dot.all[i].id !in dot.failedCtors {
      assert dot.ctors[i] == i;
    }
  }

  lemma KeptIsFailed(dot: Dot, i: nat)
    requires AllShown(dot)
    ensures i in Prune(dot).ctors <==> i < |dot.all| && dot.all[i].id in dot.failedCtors
  {
    FailedAmongMember(dot.all, dot.ctors, dot.failedCtors, i);
    if i < |dot.all| { assert dot.ctors[i] in dot.ctors; }
  }

  lemma ParamsPruned(dot: Dot, i: nat, p: Param, j: nat, r: Result)
    requires Built(dot) && i in Prune(dot).ctors && i < |dot.all| && p in Prune(dot).all[i].params
    requires Pruned(Prune(dot), j) && r in Prune(dot).all[j].results
    ensures p.key != r.key
  {
    hide ConsumersKnown, GroupsNumbered, ResultsGrouped, ResultsOwned;
    var gone := GoneOf(dot.all, dot.ctors, dot.failedCtors);
    KeptIsFailed(dot, j);
    assert Owns(dot, j, r);
    GoneIsOwned(dot, r);
    WithoutKeysMember(dot.all[i].params, KeysOf(gone), p);
  }

  /** A grouped result that is unnamed is taken from its group exactly if its constructor is pruned. */
  lemma GroupPruned(dot: Dot, k: Key, r: Result)
    requires Built(dot) && k in dot.groupMap && k in dot.failedGroups && r in dot.groupMap[k].results
    ensures r in Prune(dot).groupMap[k].results <==>
              r.key.name != "" || forall i: nat :: Owns(dot, i, r) ==> dot.all[i].id in dot.failedCtors
  {
    var rs := dot.groupMap[k].results;
    var gone := GoneOf(dot.all, dot.ctors, dot.failedCtors);
    WithoutResultsMember(k, rs, gone, r);
    var j :| 0 <= j < |rs| && rs[j] == r;
    assert r.index == j && r.GroupKey() == k;
    GoneIsOwned(dot, Result(k, r.index));
    if r.key.name == "" {
      assert r.key == k;
    }
  }

  lemma KeptResultStays(dot: Dot, i: nat, r: Result)
    requires Built(dot) && i in Prune(dot).ctors && Owns(Prune(dot), i, r) && r.key.IsGroup()
    requires r.GroupKey() in Prune(dot).groupMap
    ensures r in Prune(dot).groupMap[r.GroupKey()].results
  {
    KeptIsFailed(dot, i);
    assert Owns(dot, i, r);
    assert dot.groupMap[r.GroupKey()].results[r.index] == r;
    forall j: nat | Owns(dot, j, r) ensures j == i {}
    GroupPruned(dot, r.GroupKey(), r);
  }

  /** After PruneSuccess no reference dangles. */
  lemma PruneLeavesNothingDangling(dot: Dot)
    requires Built(dot)
    ensures NothingDangles(dot, Prune(dot))
  {
    var dot' := Prune(dot);
    forall i: nat ensures i in dot'.ctors <==> i in dot.ctors && i < |dot.all| && dot.all[i].id in dot.failedCtors {
      FailedAmongMember(dot.all, dot.ctors, dot.failedCtors, i);
    }
    forall k
      ensures k in dot'.groups <==> k in dot.groups && k in dot.failedGroups
    {
      AmongMember(dot.groups, dot.failedGroups, k);
    }
    hide ConsumersKnown, ResultsGrouped, ResultsOwned, AllShown;
    forall i, p, j: nat, r |
      i in dot'.ctors && i < |dot'.all| && p in dot'.all[i].params && Pruned(dot', j) && r in dot'.all[j].results
      ensures p.key != r.key
    {
      ParamsPruned(dot, i, p, j, r);
    }
    forall i, k | i in dot'.ctors && i < |dot'.all| && k in dot'.all[i].groupParams ensures k in dot'.groupMap {
      AmongMember(dot.all[i].groupParams, dot.groupMap.Keys * dot.failedGroups, k);
    }
    forall i, r: Result | i in dot'.ctors && Owns(dot', i, r) && r.key.IsGroup() && r.GroupKey() in dot'.groupMap
      ensures r in dot'.groupMap[r.GroupKey()].results
    {
      KeptResultStays(dot, i, r);
    }
  }

  /** A kept group shows the results of kept constructors only, exactly if none of its values from a pruned
      constructor has a name as well: the look-up of the group goes by the whole key of the result. */
  lemma StaleResultsAreNamed(dot: Dot, k: Key, r: Result)
    requires Built(dot)
    ensures Stale(Prune(dot), k, r) <==>
              && k in dot.groupMap && k in dot.failedGroups && r in dot.groupMap[k].results
              && r.key.name != "" && exists i: nat :: Owns(dot, i, r) && dot.all[i].id !in dot.failedCtors
  {
    var dot' := Prune(dot);
    if k in dot.groupMap && k in dot.failedGroups && r in dot.groupMap[k].results {
      GroupPruned(dot, k, r);
      assert r.key.IsGroup() by { assert r.GroupKey() == k; }
      var i: nat :| Owns(dot, i, r);
      KeptIsFailed(dot, i);
      assert Owns(dot', i, r);
      forall j: nat | j in dot'.ctors && Owns(dot', j, r) ensures j == i && dot.all[i].id in dot.failedCtors {
        KeptIsFailed(dot, j);
        assert Owns(dot, j, r);
      }
    } else if k in dot'.groupMap {
      WithoutResultsMember(k, dot.groupMap[k].results, GoneOf(dot.all, dot.ctors, dot.failedCtors), r);
    }
  }

  // ---------------------------------------------------------------------------------------------
  // The graph as the program keeps it

  function Singles(ps: seq<Param>): seq<Param> {
    if ps == [] then []
    else if ps[|ps| - 1].key.IsGroup() then Singles(ps[..|ps| - 1])
    else Singles(ps[..|ps| - 1]) + [ps[|ps| - 1]]
  }

  /** The key of the group that a group parameter takes: its type is a slice of the group's type. */
  function ElemKey(p: Param): Key
    requires p.key.t.SliceOf?
  {
    Key(p.key.t.elem, "", p.key.group)
  }

  predicate GroupsAreSlices(ps: seq<Param>) {
    forall i :: 0 <= i < |ps| && ps[i].key.IsGroup() ==> ps[i].key.t.SliceOf?
  }

  function Grouped(ps: seq<Param>): seq<Key>
    requires GroupsAreSlices(ps)
  {
    if ps == [] then []
    else if ps[|ps| - 1].key.IsGroup() then Grouped(ps[..|ps| - 1]) + [ElemKey(ps[|ps| - 1])]
    else Grouped(ps[..|ps| - 1])
  }

  /** The graph with one more constructor that so far has only results */
  ghost function With(dot: Dot, rs: seq<Result>): Dot {
    dot.(all := dot.all + [Ctor(0, [], [], rs, NoError)])
  }

  /** The groups while the results of a new constructor are put in them */
  ghost predicate Growing(dot: Dot, rs: seq<Result>) {
    GroupsNumbered(dot) && ResultsGrouped(With(dot, rs)) && ResultsOwned(With(dot, rs))
  }

  lemma OwnsWith(dot: Dot, rs: seq<Result>, i: nat, r: Result)
    ensures Owns(With(dot, rs), i, r) <==> Owns(dot, i, r) || (i == |dot.all| && r in rs)
  {}

  lemma GrowingStarts(dot: Dot)
    requires Built(dot)
    ensures Growing(dot, [])
  {
    forall i: nat, r ensures Owns(With(dot, []), i, r) <==> Owns(dot, i, r) { OwnsWith(dot, [], i, r); }
    forall i, r | 0 <= i < |With(dot, []).all| && r in With(dot, []).all[i].results ensures Owns(dot, i, r) {
      assert Owns(With(dot, []), i, r);
    }
  }

  /** getGroup */
  function WithGroup(dot: Dot, k: Key): (dot': Dot)
    ensures k in dot'.groupMap
  {
    if k in dot.groupMap then dot
    else dot.(groupMap := dot.groupMap[k := Group([], NoError)], groups := dot.groups + [k])
  }

  lemma GroupKeepsGrowing(dot: Dot, rs: seq<Result>, k: Key)
    requires Growing(dot, rs) && k.name == ""
    ensures Growing(WithGroup(dot, k), rs)
  {
    var dot' := WithGroup(dot, k);
    forall i: nat, r ensures Owns(With(dot', rs), i, r) <==> Owns(With(dot, rs), i, r) {}
  }

  lemma GroupKeepsBuilt(dot: Dot, k: Key)
    requires Built(dot) && k.name == ""
    ensures Built(WithGroup(dot, k))
  {
    var dot' := WithGroup(dot, k);
    forall i: nat, r ensures Owns(dot', i, r) <==> Owns(dot, i, r) {}
  }

  /** addToGroup: a grouped result is numbered by its place in its group. */
  function AddResult(dot: Dot, key: Key): (Dot, Result) {
    if !key.IsGroup() then (dot, Result(key, 0)) else
      var k := Key(key.t, "", key.group);
      var dot1 := WithGroup(dot, k);
      var r := Result(key, |dot1.groupMap[k].results|);
      (dot1.(groupMap := dot1.groupMap[k := dot1.groupMap[k].(results := dot1.groupMap[k].results + [r])]), r)
  }

  lemma AddResultKeepsGrowing(dot: Dot, rs: seq<Result>, key: Key)
    requires Growing(dot, rs)
    ensures var (dot', r) := AddResult(dot, key);
            Growing(dot', rs + [r]) && dot' == dot.(groupMap := dot'.groupMap, groups := dot'.groups)
  {
    var (dot', r) := AddResult(dot, key);
    if key.IsGroup() {
      var k := Key(key.t, "", key.group);
      GroupKeepsGrowing(dot, rs, k);
      SubmitKeepsGrowing(WithGroup(dot, k), rs, r, dot');
    } else {
      SingleKeepsGrowing(dot, rs, r);
    }
  }

  lemma SingleKeepsGrowing(dot: Dot, rs: seq<Result>, r: Result)
    requires Growing(dot, rs) && !r.key.IsGroup()
    ensures Growing(dot, rs + [r])
  {
    forall i: nat, x
      ensures Owns(With(dot, rs + [r]), i, x) <==> Owns(With(dot, rs), i, x) || (i == |dot.all| && x == r)
    {
      OwnsWith(dot, rs, i, x);
      OwnsWith(dot, rs + [r], i, x);
    }
    forall i, x | 0 <= i < |With(dot, rs + [r]).all| && x in With(dot, rs + [r]).all[i].results && x.key.IsGroup()
      ensures Owns(With(dot, rs), i, x)
    {
      assert Owns(With(dot, rs + [r]), i, x);
    }
  }

  lemma SubmitKeepsGrowing(dot: Dot, rs: seq<Result>, r: Result, dot': Dot)
    requires Growing(dot, rs) && r.key.IsGroup() && r.GroupKey() in dot.groupMap
    requires var k := r.GroupKey();
             && r.index == |dot.groupMap[k].results|
             && dot' == dot.(groupMap := dot.groupMap[k := dot.groupMap[k].(results := dot.groupMap[k].results + [r])])
    ensures Growing(dot', rs + [r])
  {
    var k := r.GroupKey();
    forall i: nat, x
      ensures Owns(With(dot', rs + [r]), i, x) <==> Owns(With(dot, rs), i, x) || (i == |dot.all| && x == r)
    {
      OwnsWith(dot, rs, i, x);
      OwnsWith(dot', rs + [r], i, x);
    }
    forall i: nat ensures !Owns(With(dot, rs), i, r) {}
    assert GroupsNumbered(dot');
    forall i, x | 0 <= i < |With(dot', rs + [r]).all| && x in With(dot', rs + [r]).all[i].results && x.key.IsGroup()
      ensures x.GroupKey() in dot'.groupMap && x.index < |dot'.groupMap[x.GroupKey()].results|
      ensures dot'.groupMap[x.GroupKey()].results[x.index] == x
    {
      assert Owns(With(dot', rs + [r]), i, x);
      if x != r { assert Owns(With(dot, rs), i, x); }
    }
    forall k', x | k' in dot'.groupMap && x in dot'.groupMap[k'].results
      ensures exists i: nat :: Owns(With(dot', rs + [r]), i, x)
    {
      if x == r {
        assert Owns(With(dot', rs + [r]), |dot.all|, x);
      } else {
        assert x in dot.groupMap[k'].results;
        var i: nat :| Owns(With(dot, rs), i, x);
        assert Owns(With(dot', rs + [r]), i, x);
      }
    }
  }

  /** The new constructor is the only one that takes part in what changes. */
  lemma {:induction false} JoinedIsBuilt(dot: Dot, dot1: Dot, dot2: Dot, c: Ctor, ps: seq<Param>)
    requires Built(dot) && Growing(dot1, c.results) && dot1 == dot.(groupMap := dot1.groupMap, groups := dot1.groups)
    requires dot2 == dot1.(all := dot.all + [c], ctors := dot.ctors + [|dot.all|],
                           ctorMap := dot.ctorMap[c.id := |dot.all|],
                           consumers := dot2.consumers)
    requires Consumed(dot.consumers, dot2.consumers, ps, |dot.all|) && c.params == Singles(ps)
    ensures Built(dot2)
  {
    JoinedConsumers(dot, dot2, c, ps);
    JoinedShown(dot, dot2, c);
    JoinedResults(dot1, dot2, c);
  }

  /** `n` has been added to the consumers of the keys of `ps`. */
  ghost predicate Consumed(m: map<Key, seq<nat>>, m': map<Key, seq<nat>>, ps: seq<Param>, n: nat) {
    && (forall k, i: nat :: i in Listed(m', k) ==> i == n || i in Listed(m, k))
    && (forall k, i: nat :: i in Listed(m, k) ==> i in Listed(m', k))
    && (forall p :: p in ps ==> n in Listed(m', p.key))
  }

  lemma {:induction false} SinglesMember(ps: seq<Param>, p: Param)
    ensures p in Singles(ps) <==> p in ps && !p.key.IsGroup()
  {
    if ps != [] {
      SinglesMember(ps[..|ps| - 1], p);
      assert ps == ps[..|ps| - 1] + [ps[|ps| - 1]];
    }
  }

  lemma {:induction false} JoinedConsumers(dot: Dot, dot2: Dot, c: Ctor, ps: seq<Param>)
    requires ConsumersKnown(dot) && dot2.all == dot.all + [c] && c.params == Singles(ps)
    requires Consumed(dot.consumers, dot2.consumers, ps, |dot.all|)
    ensures ConsumersKnown(dot2)
  {
    forall i, j | 0 <= i < |dot2.all| && 0 <= j < |dot2.all[i].params|
      ensures i in Listed(dot2.consumers, dot2.all[i].params[j].key) && dot2.all[i].params[j].key.group == ""
    {
      if i == |dot.all| { SinglesMember(ps, c.params[j]); }
    }
    forall k, i: nat | i in Listed(dot2.consumers, k) ensures i < |dot2.all| {
      if i != |dot.all| { assert i in Listed(dot.consumers, k); }
    }
  }

  lemma JoinedShown(dot: Dot, dot2: Dot, c: Ctor)
    requires AllShown(dot) && dot2.all == dot.all + [c] && dot2.ctors == dot.ctors + [|dot.all|]
    requires dot2.ctorMap == dot.ctorMap[c.id := |dot.all|]
    ensures AllShown(dot2)
  {
    forall id ensures id in dot2.ctorMap <==> exists i :: 0 <= i < |dot2.all| && dot2.all[i].id == id {
      if id == c.id {
        assert dot2.all[|dot.all|].id == id;
      } else if id in dot.ctorMap {
        var i :| 0 <= i < |dot.all| && dot.all[i].id == id;
        assert dot2.all[i].id == id;
      }
    }
  }

  lemma JoinedResults(dot1: Dot, dot2: Dot, c: Ctor)
    requires Growing(dot1, c.results) && dot2.all == dot1.all + [c] && dot2.groupMap == dot1.groupMap
    requires dot2.groups == dot1.groups
    ensures GroupsNumbered(dot2) && ResultsGrouped(dot2) && ResultsOwned(dot2)
  {
    var dot' := With(dot1, c.results);
    forall i: nat, r ensures Owns(dot2, i, r) <==> Owns(dot', i, r) {}
    forall i, r | 0 <= i < |dot2.all| && r in dot2.all[i].results ensures r in dot'.all[i].results {
      assert Owns(dot2, i, r);
    }
  }

  class Graph {
    var all: seq<Ctor>
    var ctors: seq<nat>
    var ctorMap: map<nat, nat>
    var groups: seq<Key>
    var groupMap: map<Key, Group>
    var consumers: map<Key, seq<nat>>
    var failedCtors: set<nat>
    var failedGroups: set<Key>
    var rootCauses: seq<Result>
    var transitiveFailures: seq<Result>

    function Value(): Dot
      reads this
    {
      Dot(all, ctors, ctorMap, groups, groupMap, consumers, failedCtors, failedGroups, rootCauses, transitiveFailures)
    }

    /** NewGraph */
    constructor ()
      ensures Value() == EmptyDot && Built(Value())
    {
      all, ctors, ctorMap, groups, groupMap, consumers := [], [], map[], [], map[], map[];
      failedCtors, failedGroups, rootCauses, transitiveFailures := {}, {}, [], [];
    }

    /** getGroup */
    method GetGroup(k: Key)
      modifies this`groups, this`groupMap
      ensures Value() == WithGroup(old(Value()), k)
    {
      if k !in groupMap {
        groupMap := groupMap[k := Group([], NoError)];
        groups := groups + [k];
      }
    }

    /** addToGroup */
    method AddToGroup(key: Key) returns (r: Result)
      requires key.IsGroup()
      modifies this`groups, this`groupMap
      ensures (Value(), r) == AddResult(old(Value()), key)
    {
      var k := Key(key.t, "", key.group);
      GetGroup(k);
      r := Result(key, |groupMap[k].results|);
      groupMap := groupMap[k := groupMap[k].(results := groupMap[k].results + [r])];
    }

    /** The first two loops of AddCtor: the groups it takes, and the groups its results go to */
    method EnterGroups(ps: seq<Param>, keys: seq<Key>) returns (params: seq<Param>, groupParams: seq<Key>,
            results: seq<Result>)
      requires Built(Value()) && GroupsAreSlices(ps)
      modifies this`groups, this`groupMap
      ensures params == Singles(ps) && groupParams == Grouped(ps)
      ensures |results| == |keys| && forall i :: 0 <= i < |keys| ==> results[i].key == keys[i]
      ensures Growing(Value(), results)
    {
      hide Built, Growing;
      GrowingStarts(Value());
      params, groupParams, results := [], [], [];
      for i := 0 to |ps|
        invariant params == Singles(ps[..i]) && groupParams == Grouped(ps[..i])
        invariant Growing(Value(), [])
      {
        assert ps[..i + 1][..i] == ps[..i];
        if !ps[i].key.IsGroup() {
          params := params + [ps[i]];
        } else {
          GroupKeepsGrowing(Value(), [], ElemKey(ps[i]));
          GetGroup(ElemKey(ps[i]));
          groupParams := groupParams + [ElemKey(ps[i])];
        }
      }
      assert ps[..|ps|] == ps;
      for i := 0 to |keys|
        invariant |results| == i && forall j :: 0 <= j < i ==> results[j].key == keys[j]
        invariant Growing(Value(), results)
      {
        AddResultKeepsGrowing(Value(), results, keys[i]);
        var r := Result(keys[i], 0);
        if keys[i].IsGroup() {
          r := AddToGroup(keys[i]);
        }
        results := results + [r];
      }
    }

    /** The last loop of AddCtor: tracks which constructors consume a parameter. */
    method TrackConsumers(ps: seq<Param>, n: nat)
      modifies this`consumers
      ensures Consumed(old(consumers), consumers, ps, n)
    {
      ghost var before := consumers;
      for i := 0 to |ps|
        invariant Consumed(before, consumers, ps[..i], n)
      {
        var k := ps[i].key;
        consumers := consumers[k := Listed(consumers, k) + [n]];
      }
      assert ps[..|ps|] == ps;
    }

    /** AddCtor */
    method AddCtor(id: nat, ps: seq<Param>, keys: seq<Key>)
      requires Built(Value()) && GroupsAreSlices(ps)
      modifies this`all, this`ctors, this`ctorMap, this`groups, this`groupMap, this`consumers
      ensures Built(Value())
      ensures |all| == |old(all)| + 1 && all[..|old(all)|] == old(all)
      ensures var c := all[|old(all)|];
              && c == Ctor(id, Singles(ps), Grouped(ps), c.results, NoError)
              && |c.results| == |keys| && forall i :: 0 <= i < |keys| ==> c.results[i].key == keys[i]
    {
      ghost var dot := Value();
      hide Built, Growing, Consumed;
      var params, groupParams, results := EnterGroups(ps, keys);
      ghost var dot1 := Value();
      var n, c := |all|, Ctor(id, params, groupParams, results, NoError);
      TrackConsumers(ps, n);
      all, ctors, ctorMap := all + [c], ctors + [n], ctorMap[id := n];
      assert n == |dot.ctors| by { BuiltShown(dot); }
      JoinedIsBuilt(dot, dot1, Value(), c, ps);
    }

    /** failNode, for several results: root causes if there are none yet */
    method FailAll(rs: seq<Result>, isRootCause: bool)
      modifies this`rootCauses, this`transitiveFailures
      ensures rootCauses == old(rootCauses) + (if isRootCause then rs else [])
      ensures transitiveFailures == old(transitiveFailures) + (if isRootCause then [] else rs)
    {
      for i := 0 to |rs|
        invariant rootCauses == old(rootCauses) + (if isRootCause then rs[..i] else [])
        invariant transitiveFailures == old(transitiveFailures) + (if isRootCause then [] else rs[..i])
      {
        if isRootCause {
          rootCauses := rootCauses + [rs[i]];
        } else {
          transitiveFailures := transitiveFailures + [rs[i]];
        }
      }
      assert rs[..|rs|] == rs;
    }

    /** AddMissingNodes */
    method AddMissingNodes(rs: seq<Result>)
      requires Built(Value())
      modifies this`rootCauses, this`transitiveFailures
      ensures Built(Value())
      ensures rootCauses == old(rootCauses) + (if old(rootCauses) == [] then rs else [])
      ensures transitiveFailures == old(transitiveFailures) + (if old(rootCauses) == [] then [] else rs)
    {
      ghost var dot := Value();
      FailAll(rs, |rootCauses| == 0);
      FailureKeepsBuilt(dot, Value());
    }

    /** FailNodes */
    method FailNodes(rs: seq<Result>, id: nat)
      requires Built(Value())
      modifies this`all, this`failedCtors, this`rootCauses, this`transitiveFailures
      ensures Built(Value()) && failedCtors == old(failedCtors) + {id}
      ensures rootCauses == old(rootCauses) + (if old(rootCauses) == [] then rs else [])
      ensures transitiveFailures == old(transitiveFailures) + (if old(rootCauses) == [] then [] else rs)
      ensures all == if id in ctorMap then Blamed(old(all), ctorMap[id], old(rootCauses) == []) else old(all)
    {
      hide Built;
      ghost var dot := Value();
      BuiltMap(dot);
      var isRootCause := |rootCauses| == 0;
      failedCtors := failedCtors + {id};
      FailAll(rs, isRootCause);
      if id in ctorMap {
        all := Blamed(all, ctorMap[id], isRootCause);
      }
      FailureKeepsBuilt(dot, Value());
    }

    /** The results that are in the group `k` */
    method ResultsIn(results: seq<Result>, k: Key) returns (rs: seq<Result>)
      ensures rs == InGroup(results, k)
    {
      rs := [];
      for i := 0 to |results|
        invariant rs == InGroup(results[..i], k)
      {
        assert results[..i + 1][..i] == results[..i];
        if results[i].key.t == k.t && results[i].key.group == k.group {
          rs := rs + [results[i]];
        }
      }
      assert results[..|results|] == results;
    }

    /** FailGroupNodes: the results of the constructor that are in the group fail with it, in their order. */
    method FailGroupNodes(k: Key, id: nat)
      requires Built(Value()) && k.name == ""
      modifies this`all, this`groups, this`groupMap, this`failedCtors, this`failedGroups, this`rootCauses,
               this`transitiveFailures
      ensures Built(Value())
      ensures id !in ctorMap ==> Value() == WithGroup(old(Value()), k)
      ensures id in ctorMap ==> ctorMap[id] < |old(all)| && all == Blamed(old(all), ctorMap[id], old(rootCauses) == [])
      ensures id in ctorMap ==> failedCtors == old(failedCtors) + {id} && failedGroups == old(failedGroups) + {k}
      ensures id in ctorMap ==> k in groupMap && groupMap[k].errorType == Cause(old(rootCauses) == [])
      ensures id in ctorMap && old(rootCauses) == [] ==>
                rootCauses == InGroup(old(all)[ctorMap[id]].results, k) && transitiveFailures == old(transitiveFailures)
      ensures id in ctorMap && old(rootCauses) != [] ==>
                && rootCauses == old(rootCauses)
                && transitiveFailures == old(transitiveFailures) + InGroup(old(all)[ctorMap[id]].results, k)
    {
      hide Built, InGroup;
      ghost var dot := Value();
      GroupKeepsBuilt(dot, k);
      BuiltMap(dot);
      var isRootCause := |rootCauses| == 0;
      GetGroup(k);
      if id in ctorMap {
        BlameGroup(k, id, isRootCause);
      }
    }

    method BlameGroup(k: Key, id: nat, isRootCause: bool)
      requires Built(Value()) && k in groupMap && k.name == "" && id in ctorMap && ctorMap[id] < |all|
      modifies this`all, this`groupMap, this`failedCtors, this`failedGroups, this`rootCauses, this`transitiveFailures
      ensures Built(Value()) && groupMap.Keys == old(groupMap.Keys)
      ensures failedCtors == old(failedCtors) + {id} && failedGroups == old(failedGroups) + {k}
      ensures all == Blamed(old(all), ctorMap[id], isRootCause) && groupMap[k].errorType == Cause(isRootCause)
      ensures rootCauses == old(rootCauses) + (if isRootCause then InGroup(old(all)[ctorMap[id]].results, k) else [])
      ensures transitiveFailures
              == old(transitiveFailures) + (if isRootCause then [] else InGroup(old(all)[ctorMap[id]].results, k))
    {
      hide Built, InGroup;
      ghost var dot := Value();
      var rs := ResultsIn(all[ctorMap[id]].results, k);
      FailAll(rs, isRootCause);
      failedCtors, failedGroups := failedCtors + {id}, failedGroups + {k};
      all := Blamed(all, ctorMap[id], isRootCause);
      groupMap := groupMap[k := groupMap[k].(errorType := Cause(isRootCause))];
      FailureKeepsBuilt(dot, Value());
    }

    // -----------------------------------------------------------------------------------------
    // Pruning

    /** removeParam */
    method RemoveParam(n: nat, k: Key)
      requires n < |all|
      modifies this`all
      ensures all == old(all)[n := old(all)[n].(params := WithoutKeys(old(all)[n].params, {k}))]
    {
      var ps := all[n].params;
      var pruned: seq<Param> := [];
      for i := 0 to |ps|
        invariant pruned == WithoutKeys(ps[..i], {k})
      {
        assert ps[..i + 1][..i] == ps[..i];
        if k != ps[i].key {
          pruned := pruned + [ps[i]];
        }
      }
      assert ps[..|ps|] == ps;
      all := all[n := all[n].(params := pruned)];
    }

    /** The inner loop of pruneCtorParams */
    method RemoveFromConsumers(k: Key)
      requires ConsumersKnown(Value())
      modifies this`all
      ensures all == MapParams(old(all), {k}) && ConsumersKnown(Value())
    {
      ghost var before, dot := all, Value();
      var cs := Listed(consumers, k);
      forall j | 0 <= j < |cs| ensures cs[j] < |all| {
        assert cs[j] in Listed(consumers, k);
      }
      hide ConsumersKnown, RemovedFrom, MapParams;
      RemovedFromNone(before, k);
      for j := 0 to |cs|
        invariant |all| == |before| && RemovedFrom(before, all, cs[..j], k)
      {
        RemovedFromMore(before, all, cs[..j], cs[j], k);
        assert cs[..j + 1] == cs[..j] + [cs[j]];
        RemoveParam(cs[j], k);
      }
      assert cs[..|cs|] == cs;
      RemovedFromAll(dot, all, k);
      MapKeepsConsumers(dot, {k});
    }

    /** pruneCtorParams */
    method PruneCtorParams(c: nat)
      requires ConsumersKnown(Value()) && c < |all|
      modifies this`all
      ensures all == MapParams(old(all), KeysOf(SetOf(old(all)[c].results))) && ConsumersKnown(Value())
    {
      hide ConsumersKnown, MapParams;
      ghost var before := all;
      var rs := all[c].results;
      MapNothing(all);
      for i := 0 to |rs|
        invariant ConsumersKnown(Value()) && all == MapParams(before, KeysOf(SetOf(rs[..i])))
      {
        MapTwice(before, KeysOf(SetOf(rs[..i])), {rs[i].key});
        KeysOfMore(rs, i);
        RemoveFromConsumers(rs[i].key);
      }
      assert rs[..|rs|] == rs;
    }

    /** removeResult */
    method RemoveResult(r: Result)
      requires r.key in groupMap
      modifies this`groupMap
      ensures groupMap == old(groupMap)[
                r.key := old(groupMap)[r.key].(results := WithoutResults(r.key, old(groupMap)[r.key].results, {r}))]
    {
      var rs := groupMap[r.key].results;
      var pruned: seq<Result> := [];
      for i := 0 to |rs|
        invariant pruned == WithoutResults(r.key, rs[..i], {r})
      {
        assert rs[..i + 1][..i] == rs[..i];
        if r.index != rs[i].index {
          pruned := pruned + [rs[i]];
        }
      }
      assert rs[..|rs|] == rs;
      groupMap := groupMap[r.key := groupMap[r.key].(results := pruned)];
    }

    /** pruneGroupResults */
    method PruneGroupResults(c: nat)
      requires c < |all| && NamelessEmpty(groupMap)
      modifies this`groupMap
      ensures groupMap == MapResults(old(groupMap), SetOf(all[c].results))
    {
      hide MapResults;
      ghost var before := groupMap;
      var rs := all[c].results;
      MapNoResults(groupMap);
      for i := 0 to |rs|
        invariant groupMap == MapResults(before, SetOf(rs[..i])) && groupMap.Keys == before.Keys
        invariant NamelessEmpty(groupMap)
      {
        MapResultsTwice(before, SetOf(rs[..i]), {rs[i]});
        assert SetOf(rs[..i + 1]) == SetOf(rs[..i]) + {rs[i]};
        MapOneResult(groupMap, rs[i]);
        MapKeepsNameless(groupMap, {rs[i]});
        if rs[i].key.IsGroup() && rs[i].key in groupMap {
          RemoveResult(rs[i]);
        }
      }
      assert rs[..|rs|] == rs;
    }

    /** pruneCtors */
    method PruneCtors()
      requires Built(Value())
      modifies this`all, this`ctors, this`ctorMap, this`groupMap
      ensures all == MapParams(old(all), KeysOf(GoneOf(old(all), old(ctors), failedCtors)))
      ensures groupMap == MapResults(old(groupMap), GoneOf(old(all), old(ctors), failedCtors))
      ensures ctors == FailedAmong(old(all), old(ctors), failedCtors)
      ensures ctorMap == map id | id in old(ctorMap) && id in failedCtors :: old(ctorMap)[id]
    {
      hide Built, ConsumersKnown, MapParams, MapResults, PrunedSoFar, GoneOf, FailedAmong, KeysOf, SetOf;
      ghost var dot := Value();
      var pruned: seq<nat> := [];
      PruningStarts(dot);
      for i := 0 to |ctors|
        invariant PrunedSoFar(dot, Value(), pruned, i)
        modifies this`all, this`ctorMap, this`groupMap
      {
        PruningFacts(dot, Value(), pruned, i);
        var c := ctors[i];
        ghost var cur := Value();
        if all[c].id in failedCtors {
          PruningKeeps(dot, cur, pruned, i);
          pruned := pruned + [c];
          continue;
        }
        PruneCtorParams(c);
        MapParamsKeeps(cur.all, KeysOf(SetOf(cur.all[c].results)), c);
        PruneGroupResults(c);
        ctorMap := ctorMap - {all[c].id};
        PruningPrunes(dot, cur, Value(), pruned, i);
      }
      PruningEnds(dot, Value(), pruned);
      ctors := pruned;
    }

    /** pruneCtorGroupParams */
    method PruneCtorGroupParams()
      requires forall i :: 0 <= i < |ctors| ==> ctors[i] < |all|
      modifies this`all
      ensures |all| == |old(all)|
      ensures forall i: nat :: i < |all| ==>
                all[i] == (if i in ctors then old(all)[i].(groupParams := Among(old(all)[i].groupParams, groupMap.Keys))
                           else old(all)[i])
    {
      ghost var before := all;
      for j := 0 to |ctors|
        invariant |all| == |before|
        invariant forall i: nat :: i < |all| ==>
                    all[i] == (if i in ctors[..j]
                               then before[i].(groupParams := Among(before[i].groupParams, groupMap.Keys))
                               else before[i])
      {
        var c := ctors[j];
        var gs := all[c].groupParams;
        var pruned: seq<Key> := [];
        for i := 0 to |gs|
          invariant pruned == Among(gs[..i], groupMap.Keys)
        {
          assert gs[..i + 1][..i] == gs[..i];
          if gs[i] in groupMap {
            pruned := pruned + [gs[i]];
          }
        }
        assert gs[..|gs|] == gs;
        AmongTwice(before[c].groupParams, groupMap.Keys);
        all := all[c := all[c].(groupParams := pruned)];
      }
      assert ctors[..|ctors|] == ctors;
    }

    /** pruneGroups */
    method PruneGroups()
      requires (forall i :: 0 <= i < |ctors| ==> ctors[i] < |all|) && forall k :: k in groups <==> k in groupMap
      modifies this`all, this`groups, this`groupMap
      ensures groups == Among(old(groups), failedGroups)
      ensures groupMap == map k | k in old(groupMap) && k in failedGroups :: old(groupMap)[k]
      ensures |all| == |old(all)|
      ensures forall i: nat :: i < |all| ==>
                all[i] == (if i in ctors then old(all)[i].(groupParams := Among(old(all)[i].groupParams, groupMap.Keys))
                           else old(all)[i])
    {
      ghost var before := groupMap;
      var pruned: seq<Key> := [];
      for i := 0 to |groups|
        invariant pruned == Among(groups[..i], failedGroups)
        invariant forall k :: k in groupMap <==> k in before && (k in failedGroups || k !in groups[..i])
        invariant forall k :: k in groupMap ==> groupMap[k] == before[k]
        modifies this`groupMap
      {
        assert groups[..i + 1][..i] == groups[..i];
        if groups[i] in failedGroups {
          pruned := pruned + [groups[i]];
        } else {
          groupMap := groupMap - {groups[i]};
        }
      }
      assert groups[..|groups|] == groups;
      assert groupMap == map k | k in before && k in failedGroups :: before[k];
      groups := pruned;
      PruneCtorGroupParams();
    }

    /** PruneSuccess */
    method PruneSuccess()
      requires Built(Value())
      modifies this`all, this`ctors, this`ctorMap, this`groups, this`groupMap
      ensures Value() == Prune(old(Value())) && NothingDangles(old(Value()), Value())
    {
      hide Built, NothingDangles, Prune, MapParams, MapResults, GoneOf, FailedAmong, KeysOf, Among;
      ghost var dot := Value();
      PruneLeavesNothingDangling(dot);
      BuiltGroups(dot);
      PruneCtors();
      ghost var dot1 := Value();
      KeptInRange(dot);
      PruneGroups();
      PrunedIs(dot, dot1, Value());
    }
  }

  /** The results among `rs` that are in the group `k`, in their order */
  function InGroup(rs: seq<Result>, k: Key): seq<Result> {
    if rs == [] then [] else
      var r := rs[|rs| - 1];
      InGroup(rs[..|rs| - 1], k) + if r.key.t == k.t && r.key.group == k.group then [r] else []
  }

  function MapParams(all: seq<Ctor>, ks: set<Key>): (r: seq<Ctor>)
    ensures |r| == |all|
  {
    seq(|all|, i requires 0 <= i < |all| => all[i].(params := WithoutKeys(all[i].params, ks)))
  }

  function MapResults(m: map<Key, Group>, gone: set<Result>): (m': map<Key, Group>)
    ensures m'.Keys == m.Keys
  {
    map k | k in m :: m[k].(results := WithoutResults(k, m[k].results, gone))
  }

  lemma MapKeepsConsumers(dot: Dot, ks: set<Key>)
    requires ConsumersKnown(dot)
    ensures ConsumersKnown(dot.(all := MapParams(dot.all, ks)))
  {
    var all' := MapParams(dot.all, ks);
    forall i, j | 0 <= i < |all'| && 0 <= j < |all'[i].params|
      ensures i in Listed(dot.consumers, all'[i].params[j].key) && all'[i].params[j].key.group == ""
    {
      WithoutKeysMember(dot.all[i].params, ks, all'[i].params[j]);
    }
  }

  lemma MapParamsKeeps(all: seq<Ctor>, ks: set<Key>, c: nat)
    requires c < |all|
    ensures MapParams(all, ks)[c] == all[c].(params := MapParams(all, ks)[c].params)
  {}

  lemma {:induction false} AmongTwice(ks: seq<Key>, kept: set<Key>)
    ensures Among(Among(ks, kept), kept) == Among(ks, kept)
  {
    if ks != [] {
      AmongTwice(ks[..|ks| - 1], kept);
      var init := Among(ks[..|ks| - 1], kept);
      assert (init + [ks[|ks| - 1]])[..|init|] == init;
    }
  }

  /** A group without a name has no values. */
  ghost predicate NamelessEmpty(m: map<Key, Group>) {
    forall k :: k in m && !k.IsGroup() ==> m[k].results == []
  }

  /** The loop of pruneCtors has gone through the first `i` constructors. */
  ghost predicate PrunedSoFar(dot: Dot, cur: Dot, pruned: seq<nat>, i: nat) {
    && i <= |dot.ctors| && (forall j :: 0 <= j < |dot.ctors| ==> dot.ctors[j] == j) && |dot.all| == |dot.ctors|
    && NamelessEmpty(dot.groupMap)
    && ConsumersKnown(cur)
    && cur == dot.(all := cur.all, ctorMap := cur.ctorMap, groupMap := cur.groupMap)
    && (var gone := GoneOf(dot.all, dot.ctors[..i], dot.failedCtors);
        cur.all == MapParams(dot.all, KeysOf(gone)) && cur.groupMap == MapResults(dot.groupMap, gone))
    && pruned == FailedAmong(dot.all, dot.ctors[..i], dot.failedCtors)
    && (forall id :: id in cur.ctorMap ==> id in dot.ctorMap && cur.ctorMap[id] == dot.ctorMap[id])
    && (forall id :: id in dot.ctorMap ==>
          (id in cur.ctorMap <==> id in dot.failedCtors || forall j :: 0 <= j < i ==> dot.all[j].id != id))
  }

  lemma PruningStarts(dot: Dot)
    requires Built(dot)
    ensures PrunedSoFar(dot, dot, [], 0)
  {
    MapNothing(dot.all);
    MapNoResults(dot.groupMap);
    assert SetOf([]) == {} && KeysOf({}) == {};
  }

  lemma PruningFacts(dot: Dot, cur: Dot, pruned: seq<nat>, i: nat)
    requires PrunedSoFar(dot, cur, pruned, i) && i < |dot.ctors|
    ensures ConsumersKnown(cur) && cur.ctors == dot.ctors && cur.ctors[i] == i && |cur.all| == |dot.all| == |dot.ctors|
    ensures cur.all[i] == dot.all[i].(params := cur.all[i].params)
    ensures NamelessEmpty(cur.groupMap)
  {}

  lemma PruningKeeps(dot: Dot, cur: Dot, pruned: seq<nat>, i: nat)
    requires PrunedSoFar(dot, cur, pruned, i) && i < |dot.ctors| && dot.all[i].id in dot.failedCtors
    ensures PrunedSoFar(dot, cur, pruned + [i], i + 1)
  {
    assert dot.ctors[..i + 1][..i] == dot.ctors[..i];
    assert GoneOf(dot.all, dot.ctors[..i + 1], dot.failedCtors) == GoneOf(dot.all, dot.ctors[..i], dot.failedCtors);
  }

  lemma PruningPrunes(dot: Dot, cur: Dot, cur': Dot, pruned: seq<nat>, i: nat)
    requires PrunedSoFar(dot, cur, pruned, i) && i < |dot.ctors| && i < |cur.all| && dot.all[i].id !in dot.failedCtors
    requires cur' == cur.(all := cur'.all, ctorMap := cur.ctorMap - {dot.all[i].id}, groupMap := cur'.groupMap)
    requires cur'.all == MapParams(cur.all, KeysOf(SetOf(dot.all[i].results)))
    requires cur'.groupMap == MapResults(cur.groupMap, SetOf(dot.all[i].results))
    ensures PrunedSoFar(dot, cur', pruned, i + 1)
  {
    assert dot.ctors[..i + 1][..i] == dot.ctors[..i];
    var gone, more := GoneOf(dot.all, dot.ctors[..i], dot.failedCtors), SetOf(dot.all[i].results);
    MapKeepsConsumers(cur, KeysOf(more));
    assert ConsumersKnown(cur');
    hide MapParams, MapResults, ConsumersKnown;
    MapTwice(dot.all, KeysOf(gone), KeysOf(more));
    MapResultsTwice(dot.groupMap, gone, more);
    assert KeysOf(gone + more) == KeysOf(gone) + KeysOf(more);
    assert GoneOf(dot.all, dot.ctors[..i + 1], dot.failedCtors) == gone + more;
  }

  lemma PruningEnds(dot: Dot, cur: Dot, pruned: seq<nat>)
    requires Built(dot) && PrunedSoFar(dot, cur, pruned, |dot.ctors|)
    ensures var gone := GoneOf(dot.all, dot.ctors, dot.failedCtors);
            && cur.all == MapParams(dot.all, KeysOf(gone)) && cur.groupMap == MapResults(dot.groupMap, gone)
            && pruned == FailedAmong(dot.all, dot.ctors, dot.failedCtors)
            && cur.ctorMap == map id | id in dot.ctorMap && id in dot.failedCtors :: dot.ctorMap[id]
  {
    assert dot.ctors[..|dot.ctors|] == dot.ctors;
    AllPruned(dot, cur.ctorMap);
  }

  /** The map of constructors after all have been gone through */
  lemma AllPruned(dot: Dot, ctorMap: map<nat, nat>)
    requires Built(dot)
    requires forall id :: id in ctorMap ==> id in dot.ctorMap && ctorMap[id] == dot.ctorMap[id]
    requires forall id :: id in dot.ctorMap ==>
               (id in ctorMap <==> id in dot.failedCtors || forall j :: 0 <= j < |dot.ctors| ==> dot.all[j].id != id)
    ensures ctorMap == map id | id in dot.ctorMap && id in dot.failedCtors :: dot.ctorMap[id]
  {
    forall id | id in dot.ctorMap ensures exists j :: 0 <= j < |dot.ctors| && dot.all[j].id == id {
      assert dot.all[dot.ctorMap[id]].id == id;
    }
  }

  lemma KeptInRange(dot: Dot)
    requires Built(dot)
    ensures var kept := FailedAmong(dot.all, dot.ctors, dot.failedCtors);
            forall i :: 0 <= i < |kept| ==> kept[i] < |dot.all|
  {
    var kept := FailedAmong(dot.all, dot.ctors, dot.failedCtors);
    forall i | 0 <= i < |kept| ensures kept[i] < |dot.all| {
      FailedAmongMember(dot.all, dot.ctors, dot.failedCtors, kept[i]);
      assert kept[i] in kept;
    }
  }

  /** The two halves of PruneSuccess together */
  lemma PrunedIs(dot: Dot, dot1: Dot, dot2: Dot)
    requires Built(dot)
    requires var gone := GoneOf(dot.all, dot.ctors, dot.failedCtors);
             && dot1 == dot.(all := MapParams(dot.all, KeysOf(gone)),
                             ctors := FailedAmong(dot.all, dot.ctors, dot.failedCtors),
                             ctorMap := map id | id in dot.ctorMap && id in dot.failedCtors :: dot.ctorMap[id],
                             groupMap := MapResults(dot.groupMap, gone))
    requires dot2 == dot1.(all := dot2.all, groups := Among(dot.groups, dot.failedGroups), groupMap := dot2.groupMap)
    requires dot2.groupMap == map k | k in dot1.groupMap && k in dot.failedGroups :: dot1.groupMap[k]
    requires |dot2.all| == |dot1.all|
    requires forall i: nat :: i < |dot2.all| ==>
               dot2.all[i] == (if i in dot1.ctors
                               then dot1.all[i].(groupParams := Among(dot1.all[i].groupParams, dot2.groupMap.Keys))
                               else dot1.all[i])
    ensures dot2 == Prune(dot)
  {
    assert dot2.groupMap.Keys == dot.groupMap.Keys * dot.failedGroups;
    assert dot2.groupMap == Prune(dot).groupMap;
    assert dot2.all == Prune(dot).all;
  }

  /** `k` has been removed from the parameters of the constructors `cs`. */
  ghost predicate RemovedFrom(before: seq<Ctor>, after: seq<Ctor>, cs: seq<nat>, k: Key) {
    && |after| == |before|
    && forall i: nat :: i < |before| ==>
       after[i] == if i in cs then before[i].(params := WithoutKeys(before[i].params, {k})) else before[i]
  }

  lemma RemovedFromNone(all: seq<Ctor>, k: Key)
    ensures RemovedFrom(all, all, [], k)
  {}

  lemma RemovedFromMore(before: seq<Ctor>, after: seq<Ctor>, cs: seq<nat>, c: nat, k: Key)
    requires RemovedFrom(before, after, cs, k) && c < |before|
    ensures RemovedFrom(before, after[c := after[c].(params := WithoutKeys(after[c].params, {k}))], cs + [c], k)
  {
    WithoutKeysTwice(before[c].params, {k}, {k});
    assert {k} + {k} == {k};
  }

  /** A constructor that is not among the consumers of `k` has no such parameter. */
  lemma RemovedFromAll(dot: Dot, after: seq<Ctor>, k: Key)
    requires ConsumersKnown(dot) && RemovedFrom(dot.all, after, Listed(dot.consumers, k), k)
    ensures after == MapParams(dot.all, {k})
  {
    forall i: nat | i < |after| ensures after[i] == MapParams(dot.all, {k})[i] {
      if i !in Listed(dot.consumers, k) {
        forall p | p in dot.all[i].params ensures p.key != k {
          var j :| 0 <= j < |dot.all[i].params| && dot.all[i].params[j] == p;
        }
        WithoutAbsentKeys(dot.all[i].params, {k});
      }
    }
  }

  lemma MapNothing(all: seq<Ctor>)
    ensures MapParams(all, KeysOf(SetOf([]))) == all
  {
    forall i | 0 <= i < |all| ensures MapParams(all, {})[i] == all[i] { WithoutAbsentKeys(all[i].params, {}); }
    assert KeysOf(SetOf([])) == {};
  }

  lemma MapTwice(all: seq<Ctor>, a: set<Key>, b: set<Key>)
    ensures MapParams(MapParams(all, a), b) == MapParams(all, a + b)
  {
    forall i | 0 <= i < |all| ensures MapParams(MapParams(all, a), b)[i] == MapParams(all, a + b)[i] {
      WithoutKeysTwice(all[i].params, a, b);
    }
  }

  lemma KeysOfMore(rs: seq<Result>, i: nat)
    requires i < |rs|
    ensures KeysOf(SetOf(rs[..i + 1])) == KeysOf(SetOf(rs[..i])) + {rs[i].key}
  {
    assert SetOf(rs[..i + 1]) == SetOf(rs[..i]) + {rs[i]};
  }

  lemma MapNoResults(m: map<Key, Group>)
    ensures MapResults(m, SetOf([])) == m
  {
    forall k | k in m ensures MapResults(m, SetOf([]))[k] == m[k] { WithoutAbsentResults(k, m[k].results, SetOf([])); }
  }

  lemma MapResultsTwice(m: map<Key, Group>, a: set<Result>, b: set<Result>)
    ensures MapResults(MapResults(m, a), b) == MapResults(m, a + b)
  {
    forall k | k in m ensures MapResults(MapResults(m, a), b)[k] == MapResults(m, a + b)[k] {
      WithoutResultsTwice(k, m[k].results, a, b);
    }
  }

  /** Only the group that the result names is affected. */
  lemma MapOneResult(m: map<Key, Group>, r: Result)
    ensures r.key in m ==>
              MapResults(m, {r}) == m[r.key := m[r.key].(results := WithoutResults(r.key, m[r.key].results, {r}))]
    ensures r.key !in m || (!r.key.IsGroup() && NamelessEmpty(m)) ==> MapResults(m, {r}) == m
  {
    forall k | k in m && k != r.key ensures WithoutResults(k, m[k].results, {r}) == m[k].results {
      WithoutAbsentResults(k, m[k].results, {r});
    }
    assert forall k :: k in m ==> m[k].(results := m[k].results) == m[k];
    if r.key in m && m[r.key].results == [] { assert WithoutResults(r.key, [], {r}) == []; }
  }

  lemma MapKeepsNameless(m: map<Key, Group>, gone: set<Result>)
    requires NamelessEmpty(m)
    ensures NamelessEmpty(MapResults(m, gone))
  {}

  function Cause(isRootCause: bool): ErrorType {
    if isRootCause then RootCause else TransitiveFailure
  }

  function Blamed(all: seq<Ctor>, n: nat, isRootCause: bool): (r: seq<Ctor>)
    requires n < |all|
    ensures |r| == |all|
  {
    all[n := all[n].(errorType := Cause(isRootCause))]
  }

  /** Error types and the records of failures do not matter. */
  lemma FailureKeepsBuilt(dot: Dot, dot': Dot)
    requires Built(dot) && |dot'.all| == |dot.all| && dot'.groupMap.Keys == dot.groupMap.Keys
    requires dot' == dot.(all := dot'.all, groupMap := dot'.groupMap, failedCtors := dot'.failedCtors,
                          failedGroups := dot'.failedGroups,
                          rootCauses := dot'.rootCauses, transitiveFailures := dot'.transitiveFailures)
    requires forall i :: 0 <= i < |dot.all| ==> dot'.all[i] == dot.all[i].(errorType := dot'.all[i].errorType)
    requires forall k :: k in dot.groupMap ==>
             dot'.groupMap[k] == dot.groupMap[k].(errorType := dot'.groupMap[k].errorType)
    ensures Built(dot')
  {
    assert ConsumersKnown(dot') && GroupsNumbered(dot');
    forall i: nat, r ensures Owns(dot', i, r) <==> Owns(dot, i, r) {}
    assert AllShown(dot') by {
      forall id ensures id in dot'.ctorMap <==> exists i :: 0 <= i < |dot'.all| && dot'.all[i].id == id {
        if i :| 0 <= i < |dot.all| && dot.all[i].id == id { assert dot'.all[i].id == id; }
      }
    }
  }

  lemma BuiltMap(dot: Dot)
    requires Built(dot)
    ensures forall id :: id in dot.ctorMap ==> dot.ctorMap[id] < |dot.all| && dot.all[dot.ctorMap[id]].id == id
  {}

  lemma BuiltGroups(dot: Dot)
    requires Built(dot)
    ensures forall k :: k in dot.groups <==> k in dot.groupMap
  {}

  lemma BuiltShown(dot: Dot)
    requires Built(dot)
    ensures |dot.ctors| == |dot.all|
  {}

  // ---------------------------------------------------------------------------------------------
  // Results with a name and a group

  /** Through the methods of the graph: the first constructor has a result with a name and a group, the second one fails
      for this group. When the first is pruned its result is not found in the group. */
  method NamedResultStays(t: Type) returns (g: Graph)
    ensures fresh(g) && Built(g.Value())
    ensures exists r :: Stale(Prune(g.Value()), Key(t, "", "group"), r)
  {
    hide Built, Prune, Stale, Singles, Grouped, InGroup;
    var k := Key(t, "", "group");
    g := new Graph();
    g.AddCtor(0, [], [Key(t, "name", "group")]);
    g.AddCtor(1, [], [k]);
    BuiltFinds(g.Value(), 1);
    ghost var r := g.all[0].results[0];
    g.FailGroupNodes(k, 1);
    BuiltHolds(g.Value(), 0, r);
    StaleResultsAreNamed(g.Value(), k, r);
  }

  lemma BuiltFinds(dot: Dot, i: nat)
    requires Built(dot) && i < |dot.all|
    ensures dot.all[i].id in dot.ctorMap
  {}

  lemma BuiltHolds(dot: Dot, i: nat, r: Result)
    requires Built(dot) && i < |dot.all| && r in dot.all[i].results && r.key.IsGroup()
    ensures Owns(dot, i, r) && r.GroupKey() in dot.groupMap && r in dot.groupMap[r.GroupKey()].results
  {}

  /** The keys that DotResult of result.go gives for a result: those it is registered under */
  function DotKeys(r: ResultTree.Result): (ks: seq<Key>)
    ensures |ks| == |ResultTree.Entries(r)| && forall i :: 0 <= i < |ks| ==> ks[i] == ResultTree.Entries(r)[i].key
  {
    seq(|ResultTree.Entries(r)|, i requires 0 <= i < |ResultTree.Entries(r)| => ResultTree.Entries(r)[i].key)
  }

  lemma {:induction false} EntriesHaveOne(r: ResultTree.Result, i: nat)
    requires i < |ResultTree.Entries(r)|
    ensures ResultTree.Entries(r)[i].key.name == "" || !ResultTree.Entries(r)[i].key.IsGroup()
    decreases r, 1
  {
    if r.ObjectResult? { FieldEntriesHaveOne(r.fields, i); }
  }

  lemma {:induction false} FieldEntriesHaveOne(fields: seq<ResultTree.ResultField>, i: nat)
    requires i < |ResultTree.FieldEntries(fields)|
    ensures ResultTree.FieldEntries(fields)[i].key.name == "" || !ResultTree.FieldEntries(fields)[i].key.IsGroup()
    decreases fields, 0
  {
    assert (fields[0] decreases to fields[0].result);
    var first := ResultTree.Entries(fields[0].result);
    if i < |first| { EntriesHaveOne(fields[0].result, i); } else { FieldEntriesHaveOne(fields[1..], i - |first|); }
  }

  /** No result that the container makes has both a name and a group. */
  lemma DotKeysHaveOne(r: ResultTree.Result, k: Key)
    requires k in DotKeys(r)
    ensures k.name == "" || !k.IsGroup()
  {
    var i :| 0 <= i < |DotKeys(r)| && DotKeys(r)[i] == k;
    EntriesHaveOne(r, i);
  }

  /** Every constructor of the graph has the results of some result trees. */
  ghost predicate FromTrees(dot: Dot) {
    forall i: nat, r: Result :: Owns(dot, i, r) ==> exists tree :: r.key in DotKeys(tree)
  }

  /** In the graphs that the container makes, a pruned graph shows no result of a constructor that it does not show. */
  lemma NothingIsStale(dot: Dot, k: Key, r: Result)
    requires Built(dot) && FromTrees(dot)
    ensures !Stale(Prune(dot), k, r)
  {
    hide Built, Prune, Stale, DotKeys;
    StaleResultsAreNamed(dot, k, r);
    BuiltGrouped(dot);
    if i: nat :| Owns(dot, i, r) {
      var tree :| r.key in DotKeys(tree);
      DotKeysHaveOne(tree, r.key);
    }
  }

  lemma BuiltGrouped(dot: Dot)
    requires Built(dot)
    ensures forall k, r :: k in dot.groupMap && r in dot.groupMap[k].results ==> r.key.IsGroup()
  {}
}
