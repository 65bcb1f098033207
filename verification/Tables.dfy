/** The registration tables as the program keeps them: an object whose methods update its tables step by step.
    Each method is proved to do what the functions of registration say. */
module RegistryTables {
  import opened Values
  import opened ResultTree
  import opened Registry
  import opened Registration
  import opened RegistrationInvariant
  import opened RegistrationSteps
  import opened Digraph
  import opened CycleDetector
  import opened Runs

  // ---------------------------------------------------------------------------------------------
  // The scope tree

  /** Of two scopes on the way from `c` to the root, one is on the way from the other. */
  lemma PathsNest(reg: Registry, c: nat, a: nat, b: nat)
    requires a in reg.PathToRoot(c) && b in reg.PathToRoot(c)
    ensures a in reg.PathToRoot(b) || b in reg.PathToRoot(a)
    decreases c
  {
    if a != c && b != c {
      var p := reg.parents[c].value;
      assert reg.PathToRoot(c) == [c] + reg.PathToRoot(p);
      PathsNest(reg, p, a, b);
    }
  }

  /** The subtrees of two children of a scope have no scope in common. */
  lemma SiblingsApart(reg: Registry, s: nat, a: nat, b: nat, c: nat)
    requires TreeOk(reg) && s < |reg.parents| && a in reg.children[s] && b in reg.children[s] && a != b
    requires Within(reg, a, c)
    ensures !Within(reg, b, c)
  {
    if Within(reg, b, c) {
      PathsNest(reg, c, a, b);
      var lower, upper := if a in reg.PathToRoot(b) then b else a, if a in reg.PathToRoot(b) then a else b;
      assert reg.PathToRoot(lower) == [lower] + reg.PathToRoot(s);
      PathGoesUp(reg, s, upper);
    }
  }

  /** A scope is not in the subtree of one of its children. */
  lemma ChildrenBelow(reg: Registry, s: nat, a: nat)
    requires TreeOk(reg) && s < |reg.parents| && a in reg.children[s]
    ensures !Within(reg, a, s)
  {
    if Within(reg, a, s) { PathGoesUp(reg, s, a); }
  }

  lemma {:induction false} SubscopesOfSnoc(reg: Registry, s: nat, cs: seq<nat>, i: nat)
    requires TreeOk(reg) && s < |reg.parents| && (forall c :: c in cs ==> c in reg.children[s]) && i < |cs|
    ensures cs[i] < |reg.parents|
    ensures SubscopesOf(reg, s, cs[..i + 1]) == SubscopesOf(reg, s, cs[..i]) + Subscopes(reg, cs[i])
  {
    assert cs[i] in cs;
    if i == 0 {
      assert cs[..1] == [cs[0]] && cs[..1][1..] == [];
      assert cs[..0] == [];
    } else {
      SubscopesOfSnoc(reg, s, cs[1..], i - 1);
      assert cs[..i + 1][1..] == cs[1..][..i];
      assert cs[..i][1..] == cs[1..][..i - 1];
    }
  }

  // ---------------------------------------------------------------------------------------------
  // Graph nodes, scope by scope

  /** `reg'` is `reg` with node `x` added to the graphs of the scopes `cs` */
  ghost predicate AddedTo(reg: Registry, reg': Registry, cs: set<nat>, x: Node) {
    && reg' == reg.(nodes := reg'.nodes, orders := reg'.orders)
    && |reg'.nodes| == |reg.nodes|
    && (forall c: nat :: c < |reg.nodes| ==> reg'.nodes[c] == if c in cs then reg.nodes[c] + [x] else reg.nodes[c])
    && (forall place: Place ::
          if place.node == x && place.scope in cs && place.scope < |reg.nodes|
          then place in reg'.orders && reg'.orders[place] == |reg.nodes[place.scope]|
          else (place in reg'.orders <==> place in reg.orders) &&
               (place in reg.orders ==> reg'.orders[place] == reg.orders[place]))
  }

  lemma AddNodeAddedTo(reg: Registry, s: nat, x: Node, cs: set<nat>)
    requires |reg.nodes| == |reg.parents| && forall c: nat :: c in cs <==> Within(reg, s, c)
    ensures AddedTo(reg, AddNode(reg, s, x), cs, x)
  {
    hide Registry.PathToRoot;
    var reg' := AddNode(reg, s, x);
    forall place: Place
      ensures if place.node == x && place.scope in cs && place.scope < |reg.nodes|
              then place in reg'.orders && reg'.orders[place] == |reg.nodes[place.scope]|
              else (place in reg'.orders <==> place in reg.orders) &&
                   (place in reg.orders ==> reg'.orders[place] == reg.orders[place])
    {
      if place.node == x { assert place == Place(x, place.scope); }
    }
  }

  lemma AddedToUnique(reg: Registry, a: Registry, b: Registry, cs: set<nat>, x: Node)
    requires AddedTo(reg, a, cs, x) && AddedTo(reg, b, cs, x)
    ensures a == b
  {
    assert a.nodes == b.nodes;
    forall place: Place ensures place in a.orders <==> place in b.orders {}
    assert a.orders == b.orders;
  }

  /** Added to a scope and all its descendants */
  lemma {:induction false} AddedToAll(reg: Registry, reg': Registry, s: nat, x: Node)
    requires TreeOk(reg) && s < |reg.parents| && AddedTo(reg, reg', SetOf(Subscopes(reg, s)), x)
    ensures reg' == AddNode(reg, s, x)
  {
    AddedEverywhere(reg, s, x);
    hide AddedTo, AddNode;
    AddedToUnique(reg, reg', AddNode(reg, s, x), SetOf(Subscopes(reg, s)), x);
  }

  lemma {:induction false} AddedEverywhere(reg: Registry, s: nat, x: Node)
    requires TreeOk(reg) && s < |reg.parents|
    ensures AddedTo(reg, AddNode(reg, s, x), SetOf(Subscopes(reg, s)), x)
  {
    hide AddedTo, AddNode;
    var cs := SetOf(Subscopes(reg, s));
    forall c: nat ensures c in cs <==> Within(reg, s, c) { SubscopesMembers(reg, s, c); }
    AddNodeAddedTo(reg, s, x, cs);
  }

  lemma AddedToOne(reg: Registry, s: nat, x: Node)
    requires s < |reg.nodes|
    ensures AddedTo(reg, reg.(nodes := reg.nodes[s := reg.nodes[s] + [x]],
                              orders := reg.orders[Place(x, s) := |reg.nodes[s]|]), {s}, x)
  {}

  lemma AddedToTree(reg: Registry, reg': Registry, cs: set<nat>, x: Node)
    requires TreeOk(reg) && AddedTo(reg, reg', cs, x)
    ensures TreeOk(reg') && reg'.parents == reg.parents && reg'.children == reg.children
  {}

  lemma AddedToMore(a: Registry, b: Registry, c: Registry, ss: set<nat>, ts: set<nat>, x: Node)
    requires AddedTo(a, b, ss, x) && AddedTo(b, c, ts, x) && ss !! ts
    ensures AddedTo(a, c, ss + ts, x)
  {}

  ghost function SetOf(cs: seq<nat>): set<nat> {
    set c | c in cs
  }

  /** The tables */
  class ScopeTables {
    var parents: seq<Option<nat>>
    var children: seq<seq<nat>>
    var deferred: seq<bool>
    var verified: seq<bool>
    var nodes: seq<seq<Node>>
    var snaps: seq<int>
    var orders: map<Place, nat>
    var providers: map<Slot, seq<nat>>
    var decorators: map<Slot, nat>
    var ctors: seq<Ctor>
    var decos: seq<Decorator>
    var groupKeys: seq<Key>

    function Reg(): Registry
      reads this
    {
      Registry(parents, children, deferred, verified, nodes, snaps, orders, providers, decorators, ctors, decos,
               groupKeys)
    }

    /** New: a container is its root scope. */
    constructor (deferred: bool)
      ensures Reg() == NewContainer(deferred)
    {
      parents, children, this.deferred, verified := [None], [[]], [deferred], [false];
      nodes, snaps, orders := [[]], [-1], map[];
      providers, decorators, ctors, decos, groupKeys := map[], map[], [], [], [];
    }

    /** ancestors, storesToRoot */
    method PathToRoot(s: nat) returns (path: seq<nat>)
      requires TreeOk(Reg()) && s < |parents|
      ensures path == Reg().PathToRoot(s)
    {
      path := [];
      var cur: nat := s;
      while parents[cur].Some?
        invariant cur < |parents|
        invariant Reg().PathToRoot(s) == path + Reg().PathToRoot(cur)
        decreases cur
      {
        path := path + [cur];
        cur := parents[cur].value;
      }
      path := path + [cur];
    }

    /** rootScope */
    method RootScope(s: nat) returns (root: nat)
      requires TreeOk(Reg()) && s < |parents|
      ensures root == Root(Reg(), s) && root < |parents|
      ensures parents[root].None? && root in Reg().PathToRoot(s)
    {
      root := s;
      while parents[root].Some?
        invariant root < |parents| && Root(Reg(), s) == Root(Reg(), root) && root in Reg().PathToRoot(s)
        decreases root
      {
        assert Reg().PathToRoot(root) == [root] + Reg().PathToRoot(parents[root].value);
        PathGoesUp(Reg(), s, root);
        root := parents[root].value;
      }
    }

    /** getAllProviders */
    method GetAllProviders(s: nat, k: Key) returns (ns: seq<nat>)
      requires TreeOk(Reg()) && s < |parents|
      ensures ns == Reg().AllProviders(s, k)
    {
      var path := PathToRoot(s);
      ns := [];
      for i := 0 to |path|
        invariant Reg().AllProviders(s, k) == ns + Reg().ProvidersOn(path[i..], k)
      {
        assert path[i..][1..] == path[i + 1..];
        ns := ns + Listed(providers, Slot(path[i], k));
      }
      assert path[|path|..] == [];
    }

    /** appendSubscopes */
    method AppendSubscopes(s: nat, dest: seq<nat>) returns (cs: seq<nat>)
      requires TreeOk(Reg()) && s < |parents|
      ensures cs == dest + Subscopes(Reg(), s)
      decreases |parents| - s
    {
      cs := dest + [s];
      var kids := children[s];
      for i := 0 to |kids|
        invariant cs == dest + [s] + SubscopesOf(Reg(), s, kids[..i])
      {
        assert kids[i] in children[s];
        SubscopesOfSnoc(Reg(), s, kids, i);
        cs := AppendSubscopes(kids[i], cs);
      }
      assert kids[..|kids|] == kids;
    }

    /** newGraphNode */
    method NewGraphNode(s: nat, x: Node)
      requires TreeOk(Reg()) && s < |parents|
      modifies this`nodes, this`orders
      ensures Reg() == AddNode(old(Reg()), s, x)
      decreases |parents| - s
    {
      assert Sized(Reg());
      hide AddedTo, AddNode, TreeOk, Subscopes, SubscopesOf;
      ghost var reg := Reg();
      AddedToOne(reg, s, x);
      orders := orders[Place(x, s) := |nodes[s]|];
      nodes := nodes[s := nodes[s] + [x]];
      var kids := children[s];
      ghost var done := {s};
      NoSubscopes(reg, s);
      for i := 0 to |kids|
        invariant AddedTo(reg, Reg(), done, x) && done == SetOf([s] + SubscopesOf(reg, s, kids[..i]))
        invariant parents == reg.parents && children == reg.children
      {
        ghost var before := Reg();
        AddedToTree(reg, before, done, x);
        NextSubtree(reg, s, i);
        SameSubscopes(reg, before, kids[i]);
        AddedEverywhere(before, kids[i], x);
        NewGraphNode(kids[i], x);
        ghost var more := SetOf(Subscopes(reg, kids[i]));
        AddedToMore(reg, before, Reg(), done, more, x);
        done := done + more;
      }
      AllSubscopes(reg, s);
      AddedToAll(reg, Reg(), s, x);
    }

    /** The snapshots that provide takes of the graphs of all affected scopes */
    method TakeSnapshots(t: nat, cs: seq<nat>)
      requires TreeOk(Reg()) && t < |parents| && cs == Subscopes(Reg(), t)
      modifies this`snaps
      ensures Reg() == Snapshot(old(Reg()), t)
    {
      ghost var reg := Reg();
      MembersWithin(reg, t);
      for i := 0 to |cs|
        invariant |snaps| == |reg.snaps|
        invariant forall c :: 0 <= c < |snaps| ==> snaps[c] == if c in cs[..i] then |nodes[c]| else reg.snaps[c]
      {
        snaps := snaps[cs[i] := |nodes[cs[i]]|];
      }
      assert snaps == Snapshot(reg, t).snaps;
    }

    /** Rollback of one graph */
    method RollbackGraph(c: nat)
      requires c < |nodes| == |snaps| && snaps[c] <= |nodes[c]|
      modifies this`nodes, this`snaps
      ensures nodes == old(nodes)[c := RolledBack(old(nodes[c]), old(snaps[c]))]
      ensures snaps == old(snaps)[c := if old(snaps[c]) < 0 then old(snaps[c]) else -1]
    {
      if snaps[c] < 0 {
        return;
      }
      nodes := nodes[c := nodes[c][..snaps[c]]];
      snaps := snaps[c := -1];
    }

    /** The rollback that provide defers */
    method RollbackAll(t: nat, cs: seq<nat>)
      requires Rollable(Reg(), t, cs)
      modifies this`nodes, this`snaps
      ensures Reg() == Rollback(old(Reg()), t)
    {
      ghost var reg := Reg();
      MembersWithin(reg, t);
      hide TreeOk, Subscopes, Within, Rollback, RolledSoFar;
      RolledNothing(reg);
      for i := 0 to |cs|
        invariant RolledSoFar(reg, Reg(), SetOf(cs[..i])) && |nodes| == |snaps| == |reg.nodes|
      {
        ghost var before := Reg();
        RolledSafely(reg, before, SetOf(cs[..i]), cs[i]);
        RollbackGraph(cs[i]);
        assert SetOf(cs[..i + 1]) == SetOf(cs[..i]) + {cs[i]};
        RolledOneMore(reg, before, Reg(), SetOf(cs[..i]), cs[i]);
      }
      assert cs[..|cs|] == cs;
      RolledBackAll(reg, Reg(), SetOf(cs), t);
    }

    // -----------------------------------------------------------------------------------------
    // Parameters

    /** newParam */
    method NewParam(s: nat, spec: ParamSpec) returns (p: Option<Param>)
      requires TreeOk(Reg()) && s < |parents|
      modifies this`nodes, this`orders, this`groupKeys
      ensures (p, Reg()) == Registration.NewParam(old(Reg()), s, spec)
      ensures TreeOk(Reg())
      decreases spec, 1
    {
      ghost var reg := Reg();
      ParamKeepsTree(reg, s, spec);
      match spec
      case SingleSpec(k, optional) =>
        p := Some(SingleParam(k, optional));
      case GroupSpec(elem, slice, soft) =>
        var id := |groupKeys|;
        groupKeys := groupKeys + [elem];
        SameSubscopes(reg, Reg(), s);
        NewGraphNode(s, GroupNode(id));
        p := Some(GroupParam(id, elem, slice, soft));
      case ObjectSpec(fields) =>
        var fs := NewParamObject(s, fields);
        p := if fs.Some? then Some(ObjectParam(fs.value)) else None;
      case Unusable =>
        p := None;
    }

    /** newParamObject */
    method NewParamObject(s: nat, fields: seq<FieldSpec>) returns (fs: Option<seq<ParamField>>)
      requires TreeOk(Reg()) && s < |parents|
      modifies this`nodes, this`orders, this`groupKeys
      ensures (fs, Reg()) == NewFields(old(Reg()), s, fields)
      ensures TreeOk(Reg())
      decreases fields, 0
    {
      assert Sized(Reg());
      hide TreeOk;
      ghost var reg := Reg();
      var done: seq<ParamField> := [];
      assert fields[0..] == fields;
      ContinuedFromNothing(NewFields(reg, s, fields).0);
      for i := 0 to |fields|
        invariant TreeOk(Reg()) && parents == reg.parents && |nodes| == |reg.nodes|
        invariant NewFields(reg, s, fields).1 == NewFields(Reg(), s, fields[i..]).1
        invariant NewFields(reg, s, fields).0 == Continued(done, NewFields(Reg(), s, fields[i..]).0)
      {
        assert fields[i..][1..] == fields[i + 1..];
        assert (fields[i] decreases to fields[i].spec);
        var p := NewParam(s, fields[i].spec);
        if p.None? {
          return None;
        }
        ContinuedStep(done, ParamField(fields[i].index, p.value), NewFields(Reg(), s, fields[i + 1..]).0);
        done := done + [ParamField(fields[i].index, p.value)];
      }
      assert fields[|fields|..] == [] && done + [] == done;
      return Some(done);
    }

    /** newParamList */
    method NewParamList(s: nat, specs: seq<ParamSpec>) returns (ps: Option<seq<Param>>)
      requires TreeOk(Reg()) && s < |parents|
      modifies this`nodes, this`orders, this`groupKeys
      ensures (ps, Reg()) == NewParams(old(Reg()), s, specs)
      ensures TreeOk(Reg())
    {
      assert Sized(Reg());
      hide TreeOk;
      ghost var reg := Reg();
      var done: seq<Param> := [];
      assert specs[0..] == specs;
      ContinuedFromNothing(NewParams(reg, s, specs).0);
      for i := 0 to |specs|
        invariant TreeOk(Reg()) && parents == reg.parents && |nodes| == |reg.nodes|
        invariant NewParams(reg, s, specs).1 == NewParams(Reg(), s, specs[i..]).1
        invariant NewParams(reg, s, specs).0 == Continued(done, NewParams(Reg(), s, specs[i..]).0)
      {
        assert specs[i..][1..] == specs[i + 1..];
        var p := NewParam(s, specs[i]);
        if p.None? {
          return None;
        }
        ContinuedStep(done, p.value, NewParams(Reg(), s, specs[i + 1..]).0);
        done := done + [p.value];
      }
      assert specs[|specs|..] == [] && done + [] == done;
      return Some(done);
    }

    // -----------------------------------------------------------------------------------------
    // The dependency graph of a scope

    /** The orders of constructors in the graph of `s` */
    method OrdersOf(ns: seq<nat>, s: nat) returns (os: seq<nat>)
      ensures os == CtorOrders(Reg(), ns, s)
    {
      os := [];
      for i := 0 to |ns|
        invariant |os| == i && forall j :: 0 <= j < i ==> os[j] == Reg().Order(CtorNode(ns[j]), s)
      {
        var place := Place(CtorNode(ns[i]), s);
        os := os + [if place in orders then orders[place] else 0];
      }
    }

    /** getParamOrder */
    method GetParamOrder(p: Param, s: nat) returns (os: seq<nat>)
      requires TreeOk(Reg()) && s < |parents|
      ensures os == ParamOrders(Reg(), p, s)
      decreases p
    {
      match p
      case SingleParam(k, _) =>
        var ns := GetAllProviders(s, k);
        os := OrdersOf(ns, s);
      case GroupParam(id, _, _, _) =>
        var place := Place(GroupNode(id), s);
        os := [if place in orders then orders[place] else 0];
      case ObjectParam(fields) =>
        os := [];
        for i := 0 to |fields|
          invariant FieldOrders(Reg(), fields, s) == os + FieldOrders(Reg(), fields[i..], s)
        {
          assert fields[i..][1..] == fields[i + 1..];
          assert (fields[i] decreases to fields[i].param);
          var more := GetParamOrder(fields[i].param, s);
          os := os + more;
        }
        assert fields[|fields|..] == [];
    }

    /** EdgesFrom */
    method EdgesFrom(n: Node, s: nat) returns (os: seq<nat>)
      requires TreeOk(Reg()) && s < |parents| && Numbered(Reg(), n)
      ensures os == EdgesOf(Reg(), n, s)
    {
      match n
      case CtorNode(id) =>
        var ps := ctors[id].params;
        os := [];
        for i := 0 to |ps|
          invariant ListOrders(Reg(), ps, s) == os + ListOrders(Reg(), ps[i..], s)
        {
          assert ps[i..][1..] == ps[i + 1..];
          var more := GetParamOrder(ps[i], s);
          os := os + more;
        }
        assert ps[|ps|..] == [];
      case GroupNode(id) =>
        var ns := GetAllProviders(s, groupKeys[id]);
        os := OrdersOf(ns, s);
    }

    /** The check of the graph of `s` */
    method CheckGraph(s: nat) returns (ok: bool)
      requires TreeOk(Reg()) && NodesNumbered(Reg()) && s < |parents| && InRange(GraphOf(Reg(), s))
      ensures ok <==> IsDag(GraphOf(Reg(), s))
    {
      assert Sized(Reg());
      hide TreeOk, InRange, IsDag, HasNoCycle, EdgesOf;
      var g: Graph := [];
      for u := 0 to |nodes[s]|
        invariant g == GraphOf(Reg(), s)[..u]
      {
        var es := EdgesFrom(nodes[s][u], s);
        g := g + [es];
      }
      ghost var whole := GraphOf(Reg(), s);
      assert whole[..|whole|] == whole;
      var cycle;
      ok, cycle := IsAcyclic(g);
    }

    /** The check of all affected scopes */
    method CheckAffected(cs: seq<nat>) returns (rejected: Option<nat>)
      requires TreeOk(Reg()) && NodesNumbered(Reg())
      requires forall c :: c in cs ==> c < |parents|
      requires forall c :: c in cs && !deferred[c] ==> InRange(GraphOf(Reg(), c))
      modifies this`verified
      ensures (rejected, Reg()) == CheckScopes(old(Reg()), cs)
    {
      assert Sized(Reg());
      hide TreeOk, NodesNumbered, GraphOf, IsDag, InRange, CheckScopes;
      ghost var reg := Reg();
      assert cs[0..] == cs;
      for i := 0 to |cs|
        invariant |verified| == |reg.verified| && NodesNumbered(Reg())
        invariant forall c :: c in cs[i..] ==> c < |parents|
        invariant CheckScopes(reg, cs) == CheckScopes(Reg(), cs[i..])
      {
        var c := cs[i];
        assert cs[i..][0] == c && c in cs[i..] && cs[i..][1..] == cs[i + 1..];
        ghost var before := Reg();
        CheckStep(reg, before, cs[i..]);
        verified := verified[c := false];
        if !deferred[c] {
          FlagsFrame(reg, Reg(), c);
          var ok := CheckGraph(c);
          if !ok {
            return Some(c);
          }
          verified := verified[c := true];
          assert verified == before.verified[c := true];
        }
      }
      CheckNothing(Reg());
      assert cs[|cs|..] == [];
      return None;
    }

    // -----------------------------------------------------------------------------------------
    // Provide

    /** Lists constructor `n` for its keys, and returns the lists as they were. */
    method ListProvider(t: nat, keys: set<Key>, n: nat) returns (saved: map<Key, seq<nat>>)
      modifies this`providers
      ensures Reg() == List(old(Reg()), t, keys, n)
      ensures saved.Keys == keys && forall k :: k in keys ==> saved[k] == old(Reg()).Providers(t, k)
    {
      hide Changed, List;
      ghost var reg := Reg();
      ghost var upd: map<Key, seq<nat>> := map[];
      saved := map[];
      var left := keys;
      ChangedNothing(providers, t);
      while left != {}
        invariant left <= keys && upd.Keys == saved.Keys == keys - left
        invariant forall k :: k in saved ==> saved[k] == reg.Providers(t, k) && upd[k] == saved[k] + [n]
        invariant Changed(reg.providers, providers, t, upd)
        decreases left
      {
        var k :| k in left;
        ChangedOne(reg.providers, providers, t, upd, k, Listed(providers, Slot(t, k)) + [n]);
        saved := saved[k := Listed(providers, Slot(t, k))];
        upd := upd[k := saved[k] + [n]];
        providers := providers[Slot(t, k) := Listed(providers, Slot(t, k)) + [n]];
        left := left - {k};
      }
      ListChanges(reg, t, keys, n, upd);
      ChangedUnique(reg.providers, providers, List(reg, t, keys, n).providers, t, upd);
    }

    /** Gives the lists of keys back to scope `c`. */
    method RestoreProviders(c: nat, saved: map<Key, seq<nat>>)
      modifies this`providers
      ensures Changed(old(providers), providers, c, saved)
    {
      hide Changed;
      ghost var before := providers;
      ghost var upd: map<Key, seq<nat>> := map[];
      var left := saved.Keys;
      ChangedNothing(providers, c);
      while left != {}
        invariant left <= saved.Keys && upd.Keys == saved.Keys - left && forall k :: k in upd ==> upd[k] == saved[k]
        invariant Changed(before, providers, c, upd)
        decreases left
      {
        var k :| k in left;
        ChangedOne(before, providers, c, upd, k, saved[k]);
        providers := providers[Slot(c, k) := saved[k]];
        upd := upd[k := saved[k]];
        left := left - {k};
      }
      assert upd == saved;
    }

    /** The end of provide: lists the new constructor, checks the affected scopes, and undoes what it has done if
        one of them has a cycle. The lists are given back to the scope that has it. */
    method CheckProvided(ctor: Ctor, n: nat, cs: seq<nat>, ghost reg: Registry,
            ghost reg1: Registry) returns (outcome: ProvideOutcome)
      requires TreeOk(reg) && NodesNumbered(reg) && ctor.scope < |reg.parents|
      requires Grown(Snapshot(reg, ctor.scope), reg1, ctor.scope) && Grown(reg1, Reg(), ctor.scope)
      requires reg1.ctors == reg.ctors && n == |reg1.ctors| && reg1.providers == reg.providers == providers
      requires ChecksInRange(reg, List(Reg(), ctor.scope, KeysOfCtor(ctor), n), ctor.scope)
      requires Rollable(Reg(), ctor.scope, cs) && cs == Subscopes(reg, ctor.scope)
      modifies this`providers, this`verified, this`nodes, this`snaps
      ensures (outcome, Reg()) == Check(reg, reg1, old(Reg()), ctor)
    {
      hide Grown, Rollable, InRange, GraphOf, CheckScopes, Restore, Rollback, List, Changed, TreeOk, Snapshot,
           NodesNumbered, KeysOfCtor;
      var t := ctor.scope;
      var keys := KeysOfCtor(ctor);
      ghost var reg2 := Reg();
      ghost var reg3 := List(reg2, t, keys, n);
      ListKeeps(reg2, t, keys, n);
      ListedIsSafe(reg, reg1, reg2, reg3, t, cs);
      var saved := ListProvider(t, keys, n);
      var rejected := CheckAffected(cs);
      CheckSteps(reg, reg1, reg2, ctor);
      if rejected.None? {
        return Provided;
      }
      ghost var reg4 := Reg();
      RestoreProviders(rejected.value, saved);
      RestoreChanges(reg4, rejected.value, reg, t, saved);
      ChangedUnique(reg4.providers, providers, Restore(reg4, rejected.value, keys, reg, t).providers, rejected.value,
                    saved);
      RollableStays(reg2, Reg(), t, cs);
      RollbackAll(t, cs);
      return CycleIn(rejected.value);
    }

    /** The second half of provide: makes the node, and validates the keys of its results. */
    method ProvideNode(ctor: Ctor, cs: seq<nat>, ghost reg: Registry) returns (outcome: ProvideOutcome)
      requires TreeOk(reg) && NodesNumbered(reg) && ctor.scope < |reg.parents| && TreeOk(Reg())
      requires cs == Subscopes(reg, ctor.scope)
      requires Grown(Snapshot(reg, ctor.scope), Reg(), ctor.scope)
      requires ctors == reg.ctors && providers == reg.providers && parents == reg.parents
      requires CheckInRange(reg, Reg(), ctor)
      modifies this`nodes, this`snaps, this`orders, this`ctors, this`providers, this`verified
      ensures (outcome, Reg()) == Entered(reg, old(Reg()), ctor)
    {
      assert TreeOk(reg) && Sized(reg) && Sized(Reg());
      hide TreeOk, NodesNumbered, Rollable, Grown, Snapshot, Check, Rollback, NewCtor, ListEntries, NoConflict,
           ChecksInRange, List;
      ghost var reg1 := Reg();
      var t, n, rs := ctor.scope, |ctors|, ctor.results.results;
      CtorGrown(reg, reg1, t, ctor);
      ctors := ctors + [ctor];
      NewGraphNode(t, CtorNode(n));
      assert Reg() == NewCtor(reg1, t, ctor) by { NewCtorIs(reg1, t, ctor); }
      var provided := set slot | slot in providers && slot.scope == t && providers[slot] != [] :: slot.key;
      assert provided == ProvidedBy(reg, t);
      var keys := FindAndValidateResults(rs, provided);
      if keys.None? {
        RollbackAll(t, cs);
        return Conflict;
      }
      if keys.value == {} {
        RollbackAll(t, cs);
        return NoKeys;
      }
      outcome := CheckProvided(ctor, n, cs, reg, reg1);
    }

    /** Scope.provide: `specs` and `ds` are the declared parameters and results of the constructor. */
    method Provide(s: nat, exported: bool, specs: seq<ParamSpec>, ds: seq<Declared>) returns (outcome: ProvideOutcome)
      requires TreeOk(Reg()) && NodesNumbered(Reg()) && s < |parents|
      requires ProvideInRange(Reg(), s, exported, specs, ds)
      modifies this`nodes, this`snaps, this`orders, this`groupKeys, this`ctors, this`providers, this`verified
      ensures (outcome, Reg()) == RegistrationSteps.Provide(old(Reg()), s, exported, specs, ds)
    {
      ghost var reg := Reg();
      hide TreeOk, NodesNumbered, Rollable, Grown, Snapshot, Rollback, NewParams, ListOf, Entered, CheckInRange,
           RegistrationSteps.Provide, ProvideInRange;
      var t := s;
      if exported {
        t := RootScope(s);
      }
      ProvideIs(reg, s, exported, specs, ds);
      var cs := AppendSubscopes(t, []);
      assert cs == Subscopes(reg, t);
      SnapshotKeepsTree(reg, t);
      TakeSnapshots(t, cs);
      var ps := NewParamList(t, specs);
      ParamsGrown(reg, t, specs);
      if ps.None? {
        RollbackAll(t, cs);
        return BadParam;
      }
      var rl := NewResultList(ds);
      if rl.None? {
        RollbackAll(t, cs);
        return BadResult;
      }
      outcome := ProvideNode(Ctor(ps.value, rl.value, t, s), cs, reg);
    }

    // -----------------------------------------------------------------------------------------
    // Scope and Decorate

    /** The child's copy of its parent's graph: the constructors keep their orders. */
    method CopyGraph(p: nat) returns (copied: seq<Node>)
      requires p < |parents| == |nodes|
      modifies this`orders
      ensures copied == nodes[p] && OrdersCopied(old(Reg()), orders, p, nodes[p])
    {
      hide OrdersCopied;
      ghost var reg := Reg();
      CopyNothing(reg, p);
      copied := [];
      for i := 0 to |nodes[p]|
        invariant copied == nodes[p][..i] && OrdersCopied(reg, orders, p, copied)
      {
        var x := nodes[p][i];
        CopyOne(reg, orders, p, copied, x);
        copied := copied + [x];
        if x.CtorNode? {
          orders := orders[Place(x, |parents|) := if Place(x, p) in orders then orders[Place(x, p)] else 0];
        }
      }
    }

    /** Scope.Scope */
    method NewScope(p: nat) returns (child: nat)
      requires TreeOk(Reg()) && p < |parents|
      modifies this`parents, this`children, this`deferred, this`verified, this`nodes, this`snaps, this`orders
      ensures child == |old(parents)| && Reg() == RegistrationSteps.NewScope(old(Reg()), p)
    {
      ghost var reg := Reg();
      assert Sized(reg);
      hide OrdersCopied, TreeOk, RegistrationSteps.NewScope;
      NewScopeIs(reg, p);
      child := |parents|;
      var copied := CopyGraph(p);
      OrdersCopiedAll(reg, orders, p);
      parents, deferred, verified := parents + [Some(p)], deferred + [deferred[p]], verified + [false];
      children := children[p := children[p] + [child]] + [[]];
      nodes, snaps := nodes + [copied], snaps + [-1];
    }

    /** Scope.Decorate */
    method Decorate(s: nat, specs: seq<ParamSpec>, ds: seq<Declared>) returns (outcome: DecorateOutcome)
      requires TreeOk(Reg()) && s < |parents|
      modifies this`nodes, this`orders, this`groupKeys, this`decos, this`decorators
      ensures (outcome, Reg()) == RegistrationSteps.Decorate(old(Reg()), s, specs, ds)
    {
      assert Sized(Reg());
      hide TreeOk, NewParams, SearchKeys, ListOf, AllDecorating, AllLeafKeys;
      var ps := NewParamList(s, specs);
      if ps.None? {
        return RefusedParam;
      }
      var rl := NewResultList(ds);
      if rl.None? {
        return RefusedResult;
      }
      var keys := FindResultKeys(rl.value.results);
      if keys.None? {
        return NotASlice;
      }
      var d := |decos|;
      decos := decos + [Decorator(ps.value, rl.value, s)];
      ghost var reg2 := Reg();
      var ks := keys.value;
      assert ks[0..] == ks;
      for i := 0 to |ks|
        invariant Insert(reg2, s, d, ks) == Insert(Reg(), s, d, ks[i..])
      {
        assert ks[i..][0] == ks[i] && ks[i..][1..] == ks[i + 1..];
        if Slot(s, ks[i]) in decorators {
          return AlreadyDecorated;
        }
        decorators := decorators[Slot(s, ks[i]) := d];
      }
      assert ks[|ks|..] == [];
      return Decorated;
    }
  }

  /** `m'` is `m` with the entries of scope `s` for the keys of `upd` changed */
  ghost predicate Changed<V>(m: map<Slot, V>, m': map<Slot, V>, s: nat, upd: map<Key, V>) {
    forall slot: Slot ::
      if slot.scope == s && slot.key in upd then slot in m' && m'[slot] == upd[slot.key]
      else (slot in m' <==> slot in m) && (slot in m ==> m'[slot] == m[slot])
  }

  lemma ChangedNothing<V>(m: map<Slot, V>, s: nat)
    ensures Changed(m, m, s, map[])
  {}

  lemma ChangedOne<V>(m: map<Slot, V>, m': map<Slot, V>, s: nat, upd: map<Key, V>, k: Key, v: V)
    requires Changed(m, m', s, upd)
    ensures Changed(m, m'[Slot(s, k) := v], s, upd[k := v])
    ensures k !in upd ==>
              (Slot(s, k) in m' <==> Slot(s, k) in m) && (Slot(s, k) in m ==> m'[Slot(s, k)] == m[Slot(s, k)])
  {}

  lemma ListChanges(reg: Registry, t: nat, keys: set<Key>, n: nat, upd: map<Key, seq<nat>>)
    requires upd.Keys == keys && forall k :: k in keys ==> upd[k] == reg.Providers(t, k) + [n]
    ensures Changed(reg.providers, List(reg, t, keys, n).providers, t, upd)
    ensures List(reg, t, keys, n) == reg.(providers := List(reg, t, keys, n).providers)
  {
    forall slot: Slot | slot.scope == t && slot.key in upd ensures slot == Slot(t, slot.key) {}
  }

  lemma RestoreChanges(reg: Registry, c: nat, before: Registry, t: nat, upd: map<Key, seq<nat>>)
    requires forall k :: k in upd ==> upd[k] == before.Providers(t, k)
    ensures Changed(reg.providers, Restore(reg, c, upd.Keys, before, t).providers, c, upd)
    ensures Restore(reg, c, upd.Keys, before, t) == reg.(providers := Restore(reg, c, upd.Keys, before, t).providers)
  {
    forall slot: Slot | slot.scope == c && slot.key in upd ensures slot == Slot(c, slot.key) {}
  }

  lemma ChangedUnique<V>(m: map<Slot, V>, a: map<Slot, V>, b: map<Slot, V>, s: nat, upd: map<Key, V>)
    requires Changed(m, a, s, upd) && Changed(m, b, s, upd)
    ensures a == b
  {
    forall slot: Slot ensures slot in a <==> slot in b {}
  }

  /** One turn of the check */
  lemma CheckStep(reg: Registry, reg1: Registry, cs: seq<nat>)
    requires Sized(reg) && TreeOk(reg) && NodesNumbered(reg) && |reg1.verified| == |reg.verified|
    requires reg1 == reg.(verified := reg1.verified)
    requires cs != [] && cs[0] < |reg.parents| && forall c :: c in cs ==> c < |reg.parents|
    ensures var c := cs[0];
            var off := reg1.(verified := reg1.verified[c := false]);
            var on := reg1.(verified := reg1.verified[c := true]);
            && NodesNumbered(reg1) && NodesNumbered(off) && NodesNumbered(on) && TreeOk(off)
            && (forall c :: c in cs[1..] ==> c < |reg.parents|)
            && CheckScopes(reg1, cs) == if reg.deferred[c] then CheckScopes(off, cs[1..])
                                        else if !IsDag(GraphOf(reg, c)) then (Some(c), off)
                                        else CheckScopes(on, cs[1..])
  {
    hide GraphOf, IsDag;
    var off, on := reg1.(verified := reg1.verified[cs[0] := false]), reg1.(verified := reg1.verified[cs[0] := true]);
    assert forall x :: Numbered(reg1, x) == Numbered(off, x) == Numbered(on, x) == Numbered(reg, x);
    FlagsFrame(reg, reg1, cs[0]);
    assert NodesNumbered(reg1) && NodesNumbered(off) && NodesNumbered(on);
    assert forall c :: c in cs[1..] ==> c in cs;
    assert CheckScopes(reg1, cs) == if reg1.deferred[cs[0]] then CheckScopes(off, cs[1..])
                                    else if !IsDag(GraphOf(reg1, cs[0])) then (Some(cs[0]), off)
                                    else CheckScopes(on, cs[1..]);
    assert TreeOk(off);
  }

  lemma {:induction false} CheckNothing(reg: Registry)
    requires Sized(reg) && NodesNumbered(reg)
    ensures CheckScopes(reg, []) == (None, reg)
  {}

  ghost function Continued<T>(done: seq<T>, rest: Option<seq<T>>): Option<seq<T>> {
    if rest.Some? then Some(done + rest.value) else None
  }

  lemma ContinuedFromNothing<T>(rest: Option<seq<T>>)
    ensures Continued([], rest) == rest
  {
    if rest.Some? { assert [] + rest.value == rest.value; }
  }

  lemma ContinuedStep<T>(done: seq<T>, x: T, rest: Option<seq<T>>)
    ensures Continued(done + [x], rest) == Continued(done, if rest.None? then None else Some([x] + rest.value))
  {
    if rest.Some? { assert (done + [x]) + rest.value == done + ([x] + rest.value); }
  }

  lemma {:induction false} ParamKeepsTree(reg: Registry, s: nat, spec: ParamSpec)
    requires TreeOk(reg)
    ensures TreeOk(Registration.NewParam(reg, s, spec).1)
  {
    NewParamGrows(reg, s, spec);
  }

  /** `cs` are the scopes at or below `t`, and their graphs have snapshots to go back to. */
  ghost predicate Rollable(reg: Registry, t: nat, cs: seq<nat>) {
    && TreeOk(reg) && t < |reg.parents| && cs == Subscopes(reg, t)
    && forall c :: 0 <= c < |reg.nodes| && Within(reg, t, c) ==> 0 <= reg.snaps[c] <= |reg.nodes[c]|
  }

  lemma RollableStays(reg: Registry, reg': Registry, t: nat, cs: seq<nat>)
    requires Rollable(reg, t, cs) && |reg'.verified| == |reg.verified|
    requires reg' == reg.(providers := reg'.providers, verified := reg'.verified)
    ensures Rollable(reg', t, cs)
  {
    SameSubscopes(reg, reg', t);
    assert forall c :: Within(reg', t, c) == Within(reg, t, c);
  }

  lemma {:induction false} RollableGrown(reg: Registry, reg': Registry, t: nat)
    requires TreeOk(reg) && t < |reg.parents| && Grown(Snapshot(reg, t), reg', t)
    ensures Rollable(reg', t, Subscopes(reg, t))
  {
    SameSubscopes(reg, reg', t);
    forall c | 0 <= c < |reg'.nodes| && Within(reg', t, c) ensures 0 <= reg'.snaps[c] <= |reg'.nodes[c]| {
      assert Within(reg, t, c);
      assert reg.nodes[c] <= reg'.nodes[c];
    }
  }

  /** The graphs of the scopes that are checked have their edges in range. */
  ghost predicate ChecksInRange(reg: Registry, reg3: Registry, t: nat)
    requires Sized(reg)
  {
    forall c: nat :: Within(reg, t, c) && !reg.deferred[c] && c < |reg3.nodes| && NodesNumbered(reg3) ==>
      InRange(GraphOf(reg3, c))
  }

  /** If the constructor gets as far as the check, this can be done. */
  ghost predicate CheckInRange(reg: Registry, reg1: Registry, ctor: Ctor)
    requires Sized(reg) && |reg1.nodes| == |reg1.parents|
  {
    Acceptable(reg, ctor.scope, ListEntries(ctor.results.results)) && KeysOfCtor(ctor) != {} ==>
      ChecksInRange(reg, List(NewCtor(reg1, ctor.scope, ctor), ctor.scope, KeysOfCtor(ctor), |reg1.ctors|), ctor.scope)
  }

  /** The check that this Provide makes, if it gets so far, follows no edge out of a graph. */
  ghost predicate ProvideInRange(reg: Registry, s: nat, exported: bool, specs: seq<ParamSpec>, ds: seq<Declared>)
    requires Sized(reg)
  {
    var t := Target(reg, s, exported);
    var (ps, reg1) := NewParams(Snapshot(reg, t), t, specs);
    ps.Some? && ListOf(ds).Some? ==> CheckInRange(reg, reg1, Ctor(ps.value, ListOf(ds).value, t, s))
  }

  /** Tables in order are always in range. */
  lemma TablesAreInRange(reg: Registry, s: nat, exported: bool, specs: seq<ParamSpec>, ds: seq<Declared>)
    requires Tables(reg) && s < |reg.parents|
    ensures ProvideInRange(reg, s, exported, specs, ds)
  {
    hide CtorsOrdered, GroupsOrdered, ProvidersListed, ProvidersPlaced, CtorsListed, ProvidersApart, OrdersScoped,
         CtorJoins, NewCtor, List, GraphOf, InRange, Acceptable, KeysOfCtor, ListEntries, Target, NewParams;
    TargetExists(reg, s, exported);
    var t := Target(reg, s, exported);
    var (ps, reg1) := NewParams(Snapshot(reg, t), t, specs);
    if ps.Some? && ListOf(ds).Some? {
      var ctor := Ctor(ps.value, ListOf(ds).value, t, s);
      if Acceptable(reg, t, ListEntries(ctor.results.results)) && KeysOfCtor(ctor) != {} {
        KeysOfCtorIs(ctor);
        JoinFacts(reg, t, s, specs, ds);
        JoinedIsInRange(reg, NewCtor(reg1, t, ctor), ctor);
      }
    }
  }

  lemma KeysOfCtorIs(ctor: Ctor)
    ensures KeysOfCtor(ctor) == KeysOf(ListEntries(ctor.results.results))
  {}

  lemma JoinedIsInRange(reg: Registry, reg2: Registry, ctor: Ctor)
    requires Tables(reg) && CtorJoins(Snapshot(reg, ctor.scope), reg2, ctor)
    ensures ChecksInRange(reg, List(reg2, ctor.scope, KeysOfCtor(ctor), |reg.ctors|), ctor.scope)
  {
    hide CtorsOrdered, GroupsOrdered, ProvidersListed, ProvidersPlaced, CtorsListed, ProvidersApart, OrdersScoped,
         CtorJoins, List, GraphOf, InRange;
    var reg3 := List(reg2, ctor.scope, KeysOfCtor(ctor), |reg.ctors|);
    SnapshotKeepsTables(reg, ctor.scope);
    ListLists(reg2, ctor, |reg.ctors|);
    JoinKeepsTables(Snapshot(reg, ctor.scope), reg2, reg3, ctor);
    forall c: nat | c < |reg3.parents| ensures InRange(GraphOf(reg3, c)) { EdgesInRange(reg3, c); }
  }

  /** The tables that the check meets */
  lemma {:induction false} ListedIsSafe(reg: Registry, reg1: Registry, reg2: Registry, reg3: Registry, t: nat,
          cs: seq<nat>)
    requires TreeOk(reg) && NodesNumbered(reg) && t < |reg.parents| && cs == Subscopes(reg, t)
    requires Grown(Snapshot(reg, t), reg1, t) && Grown(reg1, reg2, t)
    requires reg3 == reg2.(providers := reg3.providers) && ChecksInRange(reg, reg3, t)
    ensures TreeOk(reg3) && NodesNumbered(reg3) && reg3.parents == reg.parents && reg3.deferred == reg.deferred
    ensures forall c :: c in cs ==> c < |reg3.parents|
    ensures |reg3.verified| == |reg3.parents|
    ensures forall c :: c in cs && !reg3.deferred[c] ==> InRange(GraphOf(reg3, c))
  {
    hide GraphOf, InRange, Grown;
    ListedSized(reg, reg1, reg2, reg3, t);
    ListedTree(reg, reg1, reg2, reg3, t);
    forall c | c in cs ensures Within(reg, t, c) { SubscopesMembers(reg, t, c); }
  }

  lemma ListKeeps(reg: Registry, t: nat, keys: set<Key>, n: nat)
    ensures var reg' := List(reg, t, keys, n); reg' == reg.(providers := reg'.providers)
  {}

  lemma ListedTree(reg: Registry, reg1: Registry, reg2: Registry, reg3: Registry, t: nat)
    requires TreeOk(reg) && Grown(Snapshot(reg, t), reg1, t) && Grown(reg1, reg2, t)
    requires reg3 == reg2.(providers := reg3.providers)
    ensures TreeOk(reg3)
  {
    GrownFields(Snapshot(reg, t), reg1, t);
    GrownFields(reg1, reg2, t);
  }

  lemma {:induction false} CheckSteps(reg: Registry, reg1: Registry, reg2: Registry, ctor: Ctor)
    requires TreeOk(reg) && NodesNumbered(reg) && ctor.scope < |reg.parents|
    requires Grown(Snapshot(reg, ctor.scope), reg1, ctor.scope) && Grown(reg1, reg2, ctor.scope)
    ensures var t := ctor.scope;
            var reg3 := List(reg2, t, KeysOfCtor(ctor), |reg1.ctors|);
            && TreeOk(reg) && Sized(reg3) && NodesNumbered(reg3)
            && (forall c :: c in Subscopes(reg, t) ==> c < |reg3.parents|)
            && (var (rejected, reg4) := CheckScopes(reg3, Subscopes(reg, t));
                && |reg4.verified| == |reg2.verified| && reg4 == reg3.(verified := reg4.verified)
                && Check(reg, reg1, reg2, ctor)
                   == if rejected.None? then (Provided, reg4)
                      else (CycleIn(rejected.value),
                            Rollback(Restore(reg4, rejected.value, KeysOfCtor(ctor), reg, t), t)))
  {
    hide Grown, Restore, Rollback, GraphOf;
    var t := ctor.scope;
    ListedSized(reg, reg1, reg2, List(reg2, t, KeysOfCtor(ctor), |reg1.ctors|), t);
    forall c | c in Subscopes(reg, t) ensures c < |reg.parents| { SubscopesMembers(reg, t, c); }
  }

  lemma {:induction false} SnapshotKeepsTree(reg: Registry, t: nat)
    requires TreeOk(reg) && t < |reg.parents|
    ensures TreeOk(Snapshot(reg, t)) && Subscopes(Snapshot(reg, t), t) == Subscopes(reg, t)
    ensures Snapshot(reg, t).parents == reg.parents
  {
    SameSubscopes(reg, Snapshot(reg, t), t);
  }

  lemma {:induction false} ParamsGrown(reg: Registry, t: nat, specs: seq<ParamSpec>)
    requires TreeOk(reg) && t < |reg.parents|
    ensures var reg1 := NewParams(Snapshot(reg, t), t, specs).1;
            && Grown(Snapshot(reg, t), reg1, t) && reg1.ctors == reg.ctors && reg1.providers == reg.providers
            && reg1.parents == reg.parents && TreeOk(reg1) && Rollable(reg1, t, Subscopes(reg, t))
  {
    hide Grown, Rollable;
    NewParamsGrow(Snapshot(reg, t), t, specs);
    RollableGrown(reg, NewParams(Snapshot(reg, t), t, specs).1, t);
    GrownFields(Snapshot(reg, t), NewParams(Snapshot(reg, t), t, specs).1, t);
    RollableTree(NewParams(Snapshot(reg, t), t, specs).1, t, Subscopes(reg, t));
  }

  lemma RollableTree(reg: Registry, t: nat, cs: seq<nat>)
    requires Rollable(reg, t, cs)
    ensures TreeOk(reg)
  {}

  lemma {:induction false} CtorGrown(reg: Registry, reg1: Registry, t: nat, ctor: Ctor)
    requires TreeOk(reg) && t < |reg.parents| && Grown(Snapshot(reg, t), reg1, t) && TreeOk(reg1)
    ensures var reg2 := NewCtor(reg1, t, ctor);
            && Grown(reg1, reg2, t) && Rollable(reg2, t, Subscopes(reg, t))
            && reg2.providers == reg1.providers && TreeOk(reg1.(ctors := reg1.ctors + [ctor]))
            && reg1.parents == reg.parents
  {
    NewCtorGrows(reg1, t, ctor);
    GrownFromSnapshot(reg, reg1, NewCtor(reg1, t, ctor), t);
    RollableGrown(reg, NewCtor(reg1, t, ctor), t);
  }

  lemma NewCtorIs(reg1: Registry, t: nat, ctor: Ctor)
    requires |reg1.nodes| == |reg1.parents|
    ensures NewCtor(reg1, t, ctor) == AddNode(reg1.(ctors := reg1.ctors + [ctor]), t, CtorNode(|reg1.ctors|))
  {}

  /** The second half of Provide */
  ghost function Entered(reg: Registry, reg1: Registry, ctor: Ctor): (ProvideOutcome, Registry)
    requires TreeOk(reg) && NodesNumbered(reg) && ctor.scope < |reg.parents| && TreeOk(reg1)
    requires Grown(Snapshot(reg, ctor.scope), reg1, ctor.scope)
  {
    var reg2 := NewCtor(reg1, ctor.scope, ctor);
    NewCtorGrows(reg1, ctor.scope, ctor);
    if !Acceptable(reg, ctor.scope, ListEntries(ctor.results.results)) then (Conflict, Rollback(reg2, ctor.scope))
    else if KeysOfCtor(ctor) == {} then (NoKeys, Rollback(reg2, ctor.scope))
    else Check(reg, reg1, reg2, ctor)
  }

  lemma {:induction false} ProvideIs(reg: Registry, s: nat, exported: bool, specs: seq<ParamSpec>, ds: seq<Declared>)
    requires TreeOk(reg) && NodesNumbered(reg) && s < |reg.parents| && ProvideInRange(reg, s, exported, specs, ds)
    ensures var t := Target(reg, s, exported);
            && TreeOk(reg) && t < |reg.parents|
            && (var (ps, reg1) := NewParams(Snapshot(reg, t), t, specs);
                && TreeOk(reg1) && Grown(Snapshot(reg, t), reg1, t) && reg1.ctors == reg.ctors
                && RegistrationSteps.Provide(reg, s, exported, specs, ds)
                   == (if ps.None? then (BadParam, Rollback(reg1, t))
                       else if ListOf(ds).None? then (BadResult, Rollback(reg1, t))
                       else Entered(reg, reg1, Ctor(ps.value, ListOf(ds).value, t, s)))
                && (ps.Some? && ListOf(ds).Some? ==> CheckInRange(reg, reg1, Ctor(ps.value, ListOf(ds).value, t, s))))
  {
    hide Grown, Rollable, Check, Acceptable, ListEntries, NewParams, Snapshot, Rollback, CheckInRange;
    TargetExists(reg, s, exported);
    ParamsGrown(reg, Target(reg, s, exported), specs);
  }

  /** The orders of the constructors among `xs` are copied from scope `p` to the scope that is being made. */
  ghost predicate OrdersCopied(reg: Registry, orders: map<Place, nat>, p: nat, xs: seq<Node>) {
    forall place: Place ::
      if place.scope == |reg.parents| && place.node.CtorNode? && place.node in xs
      then place in orders && orders[place] == reg.Order(place.node, p)
      else (place in orders <==> place in reg.orders) && (place in reg.orders ==> orders[place] == reg.orders[place])
  }

  lemma CopyNothing(reg: Registry, p: nat)
    ensures OrdersCopied(reg, reg.orders, p, [])
  {}

  lemma CopyOne(reg: Registry, orders: map<Place, nat>, p: nat, xs: seq<Node>, x: Node)
    requires OrdersCopied(reg, orders, p, xs) && p < |reg.parents|
    ensures (if Place(x, p) in orders then orders[Place(x, p)] else 0) == reg.Order(x, p)
    ensures OrdersCopied(reg, if x.CtorNode? then orders[Place(x, |reg.parents|) := reg.Order(x, p)]
                         else orders, p, xs + [x])
  {}

  lemma NewScopeIs(reg: Registry, p: nat)
    requires p < |reg.parents| == |reg.children| == |reg.deferred| == |reg.nodes|
    ensures RegistrationSteps.NewScope(reg, p)
         == reg.(parents := reg.parents + [Some(p)],
                 children := reg.children[p := reg.children[p] + [|reg.parents|]] + [[]],
                 deferred := reg.deferred + [reg.deferred[p]],
                 verified := reg.verified + [false],
                 nodes := reg.nodes + [reg.nodes[p]],
                 snaps := reg.snaps + [-1],
                 orders := RegistrationSteps.NewScope(reg, p).orders)
  {}

  lemma OrdersCopiedAll(reg: Registry, orders: map<Place, nat>, p: nat)
    requires p < |reg.parents| == |reg.children| == |reg.deferred| == |reg.nodes|
    requires OrdersCopied(reg, orders, p, reg.nodes[p])
    ensures orders == RegistrationSteps.NewScope(reg, p).orders
  {
    var orders' := RegistrationSteps.NewScope(reg, p).orders;
    forall place: Place ensures place in orders <==> place in orders' {
      assert place == Place(place.node, place.scope);
    }
    forall place: Place | place in orders ensures orders[place] == orders'[place] {
      assert place == Place(place.node, place.scope);
    }
  }

  /** `reg'` is `reg` with the graphs of the scopes `done` rolled back */
  ghost predicate RolledSoFar(reg: Registry, reg': Registry, done: set<nat>) {
    && reg' == reg.(nodes := reg'.nodes, snaps := reg'.snaps)
    && |reg'.nodes| == |reg'.snaps| == |reg.nodes| == |reg.snaps|
    && (forall c: nat :: c < |reg.nodes| ==>
          reg'.nodes[c] == if c in done then RolledBack(reg.nodes[c], reg.snaps[c]) else reg.nodes[c])
    && (forall c: nat :: c < |reg.nodes| ==> reg'.snaps[c] == if c in done then -1 else reg.snaps[c])
  }

  lemma RolledNothing(reg: Registry)
    requires TreeOk(reg)
    ensures RolledSoFar(reg, reg, {})
  {}

  lemma RolledSafely(reg: Registry, a: Registry, done: set<nat>, c: nat)
    requires RolledSoFar(reg, a, done) && c < |reg.nodes| && 0 <= reg.snaps[c] <= |reg.nodes[c]|
    ensures a.snaps[c] <= |a.nodes[c]|
  {}

  lemma RolledOneMore(reg: Registry, a: Registry, b: Registry, done: set<nat>, c: nat)
    requires RolledSoFar(reg, a, done) && c < |reg.nodes| && 0 <= reg.snaps[c] <= |reg.nodes[c]|
    requires b == a.(nodes := b.nodes, snaps := b.snaps)
    requires b.nodes == a.nodes[c := RolledBack(a.nodes[c], a.snaps[c])]
    requires b.snaps == a.snaps[c := if a.snaps[c] < 0 then a.snaps[c] else -1]
    ensures RolledSoFar(reg, b, done + {c})
  {}

  lemma RolledBackAll(reg: Registry, reg': Registry, done: set<nat>, t: nat)
    requires Sized(reg) && RolledSoFar(reg, reg', done) && forall c: nat :: c in done <==> Within(reg, t, c)
    ensures reg' == Rollback(reg, t)
  {
    hide Registry.PathToRoot;
    assert reg'.nodes == Rollback(reg, t).nodes;
    assert reg'.snaps == Rollback(reg, t).snaps;
  }

  lemma {:induction false} MembersWithin(reg: Registry, t: nat)
    requires TreeOk(reg) && t < |reg.parents|
    ensures forall c :: c in Subscopes(reg, t) <==> Within(reg, t, c)
    ensures forall i :: 0 <= i < |Subscopes(reg, t)| ==> Within(reg, t, Subscopes(reg, t)[i])
  {
    forall c ensures c in Subscopes(reg, t) <==> Within(reg, t, c) { SubscopesMembers(reg, t, c); }
    forall i | 0 <= i < |Subscopes(reg, t)| ensures Within(reg, t, Subscopes(reg, t)[i]) {
      assert Subscopes(reg, t)[i] in Subscopes(reg, t);
    }
  }

  lemma {:induction false} NoSubscopes(reg: Registry, s: nat)
    requires TreeOk(reg) && s < |reg.parents|
    ensures SetOf([s] + SubscopesOf(reg, s, reg.children[s][..0])) == {s}
  {}

  lemma {:induction false} AllSubscopes(reg: Registry, s: nat)
    requires TreeOk(reg) && s < |reg.parents|
    ensures Subscopes(reg, s) == [s] + SubscopesOf(reg, s, reg.children[s][..|reg.children[s]|])
  {
    assert reg.children[s][..|reg.children[s]|] == reg.children[s];
  }

  /** The subtree of the i-th child is new to the walk. */
  lemma {:induction false} NextSubtree(reg: Registry, s: nat, i: nat)
    requires TreeOk(reg) && s < |reg.parents| && i < |reg.children[s]|
    ensures var kids := reg.children[s];
            && s < kids[i] < |reg.parents|
            && SetOf([s] + SubscopesOf(reg, s, kids[..i])) !! SetOf(Subscopes(reg, kids[i]))
            && SetOf([s] + SubscopesOf(reg, s, kids[..i + 1]))
               == SetOf([s] + SubscopesOf(reg, s, kids[..i])) + SetOf(Subscopes(reg, kids[i]))
  {
    var kids := reg.children[s];
    assert kids[i] in kids;
    SubscopesOfSnoc(reg, s, kids, i);
    forall c | c in Subscopes(reg, kids[i]) ensures c != s && c !in SubscopesOf(reg, s, kids[..i]) {
      SubscopesMembers(reg, kids[i], c);
      ChildrenBelow(reg, s, kids[i]);
      SubscopesOfMembers(reg, s, kids[..i], c);
      if c in SubscopesOf(reg, s, kids[..i]) {
        var a :| a in kids[..i] && Within(reg, a, c);
        SiblingsApart(reg, s, a, kids[i], c);
      }
    }
  }
}
