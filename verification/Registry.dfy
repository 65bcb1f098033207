/** The registration tables of a container: the scope tree, and for every scope its providers, its
    decorators and the nodes of its dependency graph (scope.go, graph.go, param.go). Scopes,
    constructors, decorators and group parameters are named by their position in the tables. */
module Registry {
  import opened Values
  import opened ResultTree

  /** A dependency. A group parameter has a graph node of its own, numbered `id`; `elem` is the key of
      the group's values, `slice` the key of the slice that is asked for. */
  datatype Param =
    | SingleParam(key: Key, optional: bool)
    | GroupParam(id: nat, elem: Key, slice: Key, soft: bool)
    | ObjectParam(fields: seq<ParamField>)
  {
    predicate IsSoftGroup() { GroupParam? && soft }
  }

  datatype ParamField = ParamField(index: nat, param: Param)

  datatype Node = CtorNode(id: nat) | GroupNode(id: nat)

  datatype Slot = Slot(scope: nat, key: Key)

  datatype Place = Place(node: Node, scope: nat)

  /** constructorNode: `scope` receives its results; its arguments are built in `orig`, the scope it was
      provided to, which differs from `scope` only for an exported constructor. */
  datatype Ctor = Ctor(params: seq<Param>, results: ResultList, scope: nat, orig: nat)

  datatype Decorator = Decorator(params: seq<Param>, results: ResultList, scope: nat)

  /** Scopes from `s` up to the root; a scope is created after its parent. */
  function Ancestors(parents: seq<Option<nat>>, s: nat): (path: seq<nat>)
    ensures path != [] && path[0] == s
  {
    if s < |parents| && parents[s].Some? && parents[s].value < s
    then [s] + Ancestors(parents, parents[s].value)
    else [s]
  }

  datatype Registry = Registry(
    parents: seq<Option<nat>>,
    children: seq<seq<nat>>,
    deferred: seq<bool>,
    verified: seq<bool>,
    nodes: seq<seq<Node>>,
    snaps: seq<int>,
    orders: map<Place, nat>,
    providers: map<Slot, seq<nat>>,
    decorators: map<Slot, nat>,
    ctors: seq<Ctor>,
    decos: seq<Decorator>,
    groupKeys: seq<Key>)
  {
    /** storesToRoot */
    function PathToRoot(s: nat): (path: seq<nat>)
      ensures path != [] && path[0] == s
    {
      Ancestors(parents, s)
    }

    /** getProviders */
    function Providers(s: nat, k: Key): seq<nat> {
      Listed(providers, Slot(s, k))
    }

    /** The providers of `k` in the scopes of `path`, in that order. */
    function ProvidersOn(path: seq<nat>, k: Key): seq<nat> {
      if path == [] then [] else Providers(path[0], k) + ProvidersOn(path[1..], k)
    }

    /** getAllProviders */
    function AllProviders(s: nat, k: Key): seq<nat> {
      ProvidersOn(PathToRoot(s), k)
    }

    /** An absent order reads as zero. */
    function Order(n: Node, s: nat): nat {
      if Place(n, s) in orders then orders[Place(n, s)] else 0
    }
  }

  lemma {:induction false} ProvidersOnMember(reg: Registry, path: seq<nat>, k: Key, n: nat)
    ensures n in reg.ProvidersOn(path, k) <==> exists s :: s in path && n in reg.Providers(s, k)
  {
    if path != [] {
      ProvidersOnMember(reg, path[1..], k, n);
      assert forall s :: s in path <==> s == path[0] || s in path[1..];
      if n in reg.Providers(path[0], k) { assert path[0] in path; }
      if s :| s in path[1..] && n in reg.Providers(s, k) { assert s in path; }
    }
  }

  /** The keys that the leaves of a parameter ask for. */
  function Leaves(p: Param): set<Key>
    decreases p, 1
  {
    match p
    case SingleParam(k, _) => {k}
    case GroupParam(_, elem, _, _) => {elem}
    case ObjectParam(fields) => FieldLeaves(fields)
  }

  function FieldLeaves(fields: seq<ParamField>): set<Key>
    decreases fields, 0
  {
    if fields == [] then {} else
      assert (fields[0] decreases to fields[0].param);
      Leaves(fields[0].param) + FieldLeaves(fields[1..])
  }

  function ListLeaves(ps: seq<Param>): set<Key> {
    if ps == [] then {} else Leaves(ps[0]) + ListLeaves(ps[1..])
  }

  /** The number of nodes of a parameter. */
  function Size(p: Param): nat
    decreases p, 1
  {
    match p
    case SingleParam(_, _) => 1
    case GroupParam(_, _, _, _) => 1
    case ObjectParam(fields) => 1 + FieldSize(fields)
  }

  function FieldSize(fields: seq<ParamField>): nat
    decreases fields, 0
  {
    if fields == [] then 0 else
      assert (fields[0] decreases to fields[0].param);
      1 + Size(fields[0].param) + FieldSize(fields[1..])
  }

  function ListSize(ps: seq<Param>): nat {
    if ps == [] then 0 else 1 + Size(ps[0]) + ListSize(ps[1..])
  }

  // ---------------------------------------------------------------------------------------------
  // Soft groups are built after the other fields of a parameter object

  function Soft(fields: seq<ParamField>, soft: bool): (r: seq<ParamField>)
    ensures forall f :: f in r ==> f in fields && f.param.IsSoftGroup() == soft
  {
    if fields == [] then []
    else if fields[0].param.IsSoftGroup() == soft then [fields[0]] + Soft(fields[1..], soft)
    else Soft(fields[1..], soft)
  }

  /** The fields in the order in which paramObject.Build builds them. */
  function BuildOrder(fields: seq<ParamField>): seq<ParamField> {
    Soft(fields, false) + Soft(fields, true)
  }

  lemma {:induction false} FieldConcat(a: seq<ParamField>, b: seq<ParamField>)
    ensures FieldSize(a + b) == FieldSize(a) + FieldSize(b)
    ensures FieldLeaves(a + b) == FieldLeaves(a) + FieldLeaves(b)
  {
    if a == [] {
      assert a + b == b;
    } else {
      FieldConcat(a[1..], b);
      assert (a + b)[1..] == a[1..] + b;
    }
  }

  lemma {:induction false} SoftSplits(fields: seq<ParamField>)
    ensures FieldSize(Soft(fields, false)) + FieldSize(Soft(fields, true)) == FieldSize(fields)
    ensures FieldLeaves(Soft(fields, false)) + FieldLeaves(Soft(fields, true)) == FieldLeaves(fields)
    ensures multiset(Soft(fields, false)) + multiset(Soft(fields, true)) == multiset(fields)
  {
    if fields != [] {
      SoftSplits(fields[1..]);
      assert fields == [fields[0]] + fields[1..];
      var soft := fields[0].param.IsSoftGroup();
      assert Soft(fields, soft)[1..] == Soft(fields[1..], soft);
    }
  }

  /** Reordering loses and invents nothing. */
  lemma {:induction false} BuildOrderKeeps(fields: seq<ParamField>)
    ensures multiset(BuildOrder(fields)) == multiset(fields)
    ensures FieldSize(BuildOrder(fields)) == FieldSize(fields)
    ensures FieldLeaves(BuildOrder(fields)) == FieldLeaves(fields)
  {
    SoftSplits(fields);
    FieldConcat(Soft(fields, false), Soft(fields, true));
  }
}
