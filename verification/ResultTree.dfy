/** Result trees of result.go: which keys a constructor registers, and which it writes. */
module ResultTree {
  import opened Values

  datatype Result =
    | SingleResult(name: string, t: Type, asTypes: seq<Type>)
    | GroupedResult(group: string, t: Type, flatten: bool, asTypes: seq<Type>)
    | ObjectResult(fields: seq<ResultField>)

  datatype ResultField = ResultField(index: nat, result: Result)

  /** All the values returned by a function. `indexes[i]` is the position in `results` of the i-th
      returned value, or -1 if that value is an error. */
  datatype ResultList = ResultList(results: seq<Result>, indexes: seq<int>) {
    ghost predicate Valid() {
      && (forall i :: 0 <= i < |indexes| ==> -1 <= indexes[i] < |results|)
      && (forall j :: 0 <= j < |results| ==> j in indexes)
    }
  }

  // ---------------------------------------------------------------------------------------------
  // Building the list

  /** The i-th declared result of a function: an error, a result, or something newResult refuses. */
  datatype Declared = DeclaredError | DeclaredResult(result: Result) | Refused

  function Accepted(ds: seq<Declared>): seq<Result> {
    if ds == [] then []
    else if ds[|ds| - 1].DeclaredResult? then Accepted(ds[..|ds| - 1]) + [ds[|ds| - 1].result]
    else Accepted(ds[..|ds| - 1])
  }

  /** Where each declared result goes: errors to none */
  function Positions(ds: seq<Declared>): (ps: seq<int>)
    ensures |ps| == |ds|
  {
    if ds == [] then []
    else if ds[|ds| - 1].DeclaredResult? then Positions(ds[..|ds| - 1]) + [|Accepted(ds[..|ds| - 1])|]
    else Positions(ds[..|ds| - 1]) + [-1]
  }

  /** The result list of a function's declared results, unless newResult refuses one of them */
  function ListOf(ds: seq<Declared>): Option<ResultList> {
    if Refused in ds then None else Some(ResultList(Accepted(ds), Positions(ds)))
  }

  /** Each returned value is sent to the result it was declared as, errors to none. */
  lemma {:induction false} PositionsMatch(ds: seq<Declared>)
    ensures forall i :: 0 <= i < |ds| ==>
              if ds[i].DeclaredResult?
              then 0 <= Positions(ds)[i] < |Accepted(ds)| && Accepted(ds)[Positions(ds)[i]] == ds[i].result
              else Positions(ds)[i] == -1
  {
    if ds != [] {
      var init := ds[..|ds| - 1];
      PositionsMatch(init);
      assert forall i :: 0 <= i < |init| ==> ds[i] == init[i] && Positions(ds)[i] == Positions(init)[i];
    }
  }

  /** No two returned values are sent to the same result. */
  lemma {:induction false} PositionsIncrease(ds: seq<Declared>)
    ensures forall i, j :: 0 <= i < j < |ds| && Positions(ds)[i] >= 0 && Positions(ds)[j] >= 0 ==>
            Positions(ds)[i] < Positions(ds)[j]
  {
    if ds != [] {
      var init := ds[..|ds| - 1];
      PositionsIncrease(init);
      PositionsMatch(init);
      assert forall i :: 0 <= i < |init| ==> Positions(ds)[i] == Positions(init)[i] < |Accepted(init)|;
    }
  }

  /** Every result is sent a value. */
  lemma {:induction false} PositionsCover(ds: seq<Declared>)
    ensures ResultList(Accepted(ds), Positions(ds)).Valid()
  {
    PositionsMatch(ds);
    if ds != [] {
      var init := ds[..|ds| - 1];
      PositionsCover(init);
      assert forall j :: j in Positions(init) ==> j in Positions(ds);
      assert Positions(ds)[|init|] in Positions(ds);
    }
  }

  /** newResultList */
  method NewResultList(ds: seq<Declared>) returns (r: Option<ResultList>)
    ensures r == ListOf(ds)
    ensures r.Some? ==> r.value.Valid()
  {
    var results: seq<Result> := [];
    var indexes: seq<int> := [];
    for i := 0 to |ds|
      invariant results == Accepted(ds[..i]) && indexes == Positions(ds[..i])
      invariant Refused !in ds[..i]
    {
      assert ds[..i + 1][..i] == ds[..i];
      match ds[i]
      case DeclaredError =>
        indexes := indexes + [-1];
      case Refused =>
        return None;
      case DeclaredResult(res) =>
        indexes := indexes + [|results|];
        results := results + [res];
    }
    assert ds[..|ds|] == ds;
    PositionsCover(ds);
    r := Some(ResultList(results, indexes));
  }

  // ---------------------------------------------------------------------------------------------
  // Registered keys: walkResult with a connectionVisitor

  /** A key met by the visitor, and whether it stands for a single value. */
  datatype Entry = Entry(key: Key, single: bool)

  function AsKeys(ts: seq<Type>, name: string, group: string): (ks: seq<Key>)
    ensures |ks| == |ts| && forall i :: 0 <= i < |ts| ==> ks[i] == Key(ts[i], name, group)
  {
    seq(|ts|, i requires 0 <= i < |ts| => Key(ts[i], name, group))
  }

  function MarkAll(ks: seq<Key>, single: bool): (es: seq<Entry>)
    ensures |es| == |ks| && forall i :: 0 <= i < |ks| ==> es[i] == Entry(ks[i], single)
  {
    seq(|ks|, i requires 0 <= i < |ks| => Entry(ks[i], single))
  }

  /** The keys of a result in the order in which the visitor meets them. */
  function Entries(r: Result): seq<Entry>
    decreases r, 1
  {
    match r
    case SingleResult(name, t, ts) => MarkAll(AsKeys([t] + ts, name, ""), true)
    case GroupedResult(group, t, _, ts) => MarkAll(AsKeys([t] + ts, "", group), false)
    case ObjectResult(fields) => FieldEntries(fields)
  }

  function FieldEntries(fields: seq<ResultField>): seq<Entry>
    decreases fields, 0
  {
    if fields == [] then [] else
      assert (fields[0] decreases to fields[0].result);
      Entries(fields[0].result) + FieldEntries(fields[1..])
  }

  function ListEntries(rs: seq<Result>): seq<Entry> {
    if rs == [] then [] else Entries(rs[0]) + ListEntries(rs[1..])
  }

  function KeysOf(es: seq<Entry>): set<Key> {
    set e | e in es :: e.key
  }

  /** The keys of single values among `es`. */
  function SingleKeysOf(es: seq<Entry>): set<Key> {
    set e | e in es && e.single :: e.key
  }

  /** No single key is provided already, or met twice, or met after a group with the same key. */
  ghost predicate NoConflict(es: seq<Entry>, provided: set<Key>) {
    forall i :: 0 <= i < |es| && es[i].single ==> es[i].key !in provided && es[i].key !in KeysOf(es[..i])
  }

  lemma KeysOfConcat(a: seq<Entry>, b: seq<Entry>)
    ensures KeysOf(a + b) == KeysOf(a) + KeysOf(b)
    ensures SingleKeysOf(a + b) == SingleKeysOf(a) + SingleKeysOf(b)
  {
    assert forall e :: e in a + b <==> e in a || e in b;
  }

  /** connectionVisitor: collects the keys of a result tree until it meets a conflict. */
  class ConnectionVisitor {
    const provided: set<Key>
    var keys: set<Key>
    var failed: bool
    ghost var walked: seq<Entry>

    ghost predicate Valid()
      reads this
    {
      && (failed <==> !NoConflict(walked, provided))
      && (!failed ==> keys == KeysOf(walked))
    }

    constructor (provided: set<Key>)
      ensures Valid() && this.provided == provided && walked == []
    {
      this.provided := provided;
      keys, failed, walked := {}, false, [];
    }

    /** Visit on a single or grouped result; checkKey is applied to the keys of single results only. */
    method VisitKeys(ks: seq<Key>, single: bool)
      requires Valid()
      modifies this
      ensures Valid() && walked == old(walked) + MarkAll(ks, single)
    {
      for i := 0 to |ks|
        invariant Valid() && walked == old(walked) + MarkAll(ks, single)[..i]
      {
        ghost var e := Entry(ks[i], single);
        ExtendConflict(walked, e, provided);
        KeysOfConcat(walked, [e]);
        if !failed {
          failed := single && (ks[i] in keys || ks[i] in provided);
          keys := keys + {ks[i]};
        }
        walked := walked + [e];
      }
    }

    /** walkResult: the outcome is that of all the entries of the tree, although a conflict stops the walk. */
    method Walk(r: Result)
      requires Valid()
      modifies this
      ensures Valid() && walked == old(walked) + Entries(r)
      decreases r
    {
      match r
      case SingleResult(name, t, ts) => VisitKeys(AsKeys([t] + ts, name, ""), true);
      case GroupedResult(group, t, _, ts) => VisitKeys(AsKeys([t] + ts, "", group), false);
      case ObjectResult(fields) =>
        for i := 0 to |fields|
          invariant Valid() && walked == old(walked) + FieldEntries(fields[..i])
        {
          FieldEntriesSnoc(fields, i);
          Walk(fields[i].result);
        }
        assert fields[..|fields|] == fields;
    }
  }

  lemma ExtendConflict(es: seq<Entry>, e: Entry, provided: set<Key>)
    ensures NoConflict(es + [e], provided) <==>
              NoConflict(es, provided) && (e.single ==> e.key !in provided && e.key !in KeysOf(es))
  {
    var es' := es + [e];
    forall i | 0 <= i <= |es| ensures es'[..i] == es[..i] {}
    assert es[..|es|] == es;
    if NoConflict(es', provided) {
      forall i | 0 <= i < |es| && es[i].single ensures es[i].key !in provided && es[i].key !in KeysOf(es[..i]) {
        assert es'[i] == es[i];
      }
      assert es'[|es|] == e;
    }
  }

  lemma FieldEntriesSnoc(fields: seq<ResultField>, i: nat)
    requires i < |fields|
    ensures FieldEntries(fields[..i + 1]) == FieldEntries(fields[..i]) + Entries(fields[i].result)
  {
    if i > 0 {
      FieldEntriesSnoc(fields[1..], i - 1);
      assert fields[..i + 1][1..] == fields[1..][..i];
      assert fields[..i][1..] == fields[1..][..i - 1];
    }
  }

  lemma ListEntriesSnoc(rs: seq<Result>, i: nat)
    requires i < |rs|
    ensures ListEntries(rs[..i + 1]) == ListEntries(rs[..i]) + Entries(rs[i])
  {
    if i > 0 {
      ListEntriesSnoc(rs[1..], i - 1);
      assert rs[..i + 1][1..] == rs[1..][..i];
      assert rs[..i][1..] == rs[1..][..i - 1];
    }
  }

  /** findAndValidateResults: the registered keys, or None on a conflict. */
  method FindAndValidateResults(rs: seq<Result>, provided: set<Key>) returns (keys: Option<set<Key>>)
    ensures keys.Some? <==> NoConflict(ListEntries(rs), provided)
    ensures keys.Some? ==> keys.value == KeysOf(ListEntries(rs))
  {
    var v := new ConnectionVisitor(provided);
    for i := 0 to |rs|
      invariant v.Valid() && fresh(v) && v.walked == ListEntries(rs[..i])
    {
      ListEntriesSnoc(rs, i);
      v.Walk(rs[i]);
    }
    assert rs[..|rs|] == rs;
    keys := if v.failed then None else Some(v.keys);
  }

  // ---------------------------------------------------------------------------------------------
  // Decorated keys: findResultKeys

  function ResultSize(r: Result): nat
    decreases r, 1
  {
    match r
    case SingleResult(_, _, _) => 1
    case GroupedResult(_, _, _, _) => 1
    case ObjectResult(fields) => 1 + FieldsSize(fields)
  }

  function FieldsSize(fields: seq<ResultField>): nat
    decreases fields, 0
  {
    if fields == [] then 0 else
      assert (fields[0] decreases to fields[0].result);
      ResultSize(fields[0].result) + FieldsSize(fields[1..])
  }

  function QueueSize(q: seq<Result>): nat {
    if q == [] then 0 else ResultSize(q[0]) + QueueSize(q[1..])
  }

  function ResultsOf(fields: seq<ResultField>): (rs: seq<Result>)
    ensures |rs| == |fields| && forall i :: 0 <= i < |fields| ==> rs[i] == fields[i].result
  {
    seq(|fields|, i requires 0 <= i < |fields| => fields[i].result)
  }

  lemma {:induction false} QueueSizeConcat(a: seq<Result>, b: seq<Result>)
    ensures QueueSize(a + b) == QueueSize(a) + QueueSize(b)
  {
    if a == [] {
      assert a + b == b;
    } else {
      QueueSizeConcat(a[1..], b);
      assert (a + b)[1..] == a[1..] + b;
    }
  }

  lemma {:induction false} FieldsQueueSize(fields: seq<ResultField>)
    ensures QueueSize(ResultsOf(fields)) == FieldsSize(fields)
  {
    if fields != [] {
      FieldsQueueSize(fields[1..]);
      assert ResultsOf(fields)[1..] == ResultsOf(fields[1..]);
    }
  }

  /** The keys found by a breadth-first search from the queue `q`, or None if a group is decorated by something
      that is not a slice */
  function SearchKeys(q: seq<Result>): Option<seq<Key>>
    decreases QueueSize(q)
  {
    if q == [] then Some([]) else
      match q[0]
      case SingleResult(name, t, _) => Prepend(Key(t, name, ""), SearchKeys(q[1..]))
      case GroupedResult(group, t, _, _) =>
        if t.SliceOf? then Prepend(Key(t.elem, "", group), SearchKeys(q[1..])) else None
      case ObjectResult(fields) =>
        QueueSizeConcat(q[1..], ResultsOf(fields));
        FieldsQueueSize(fields);
        SearchKeys(q[1..] + ResultsOf(fields))
  }

  function Prepend(k: Key, ks: Option<seq<Key>>): Option<seq<Key>> {
    if ks.Some? then Some([k] + ks.value) else None
  }

  /** All decorated groups are slices. */
  predicate Decorating(r: Result)
    decreases r, 1
  {
    match r
    case SingleResult(_, _, _) => true
    case GroupedResult(_, t, _, _) => t.SliceOf?
    case ObjectResult(fields) => FieldsDecorating(fields)
  }

  predicate FieldsDecorating(fields: seq<ResultField>)
    decreases fields, 0
  {
    fields == [] ||
    (assert (fields[0] decreases to fields[0].result);
     Decorating(fields[0].result) && FieldsDecorating(fields[1..]))
  }

  predicate AllDecorating(q: seq<Result>) {
    q == [] || (Decorating(q[0]) && AllDecorating(q[1..]))
  }

  /** The keys of the leaves of a result, as a decorator is registered for them */
  function LeafKeys(r: Result): multiset<Key>
    decreases r, 1
  {
    match r
    case SingleResult(name, t, _) => multiset{Key(t, name, "")}
    case GroupedResult(group, t, _, _) => if t.SliceOf? then multiset{Key(t.elem, "", group)} else multiset{}
    case ObjectResult(fields) => FieldsLeafKeys(fields)
  }

  function FieldsLeafKeys(fields: seq<ResultField>): multiset<Key>
    decreases fields, 0
  {
    if fields == [] then multiset{} else
      assert (fields[0] decreases to fields[0].result);
      LeafKeys(fields[0].result) + FieldsLeafKeys(fields[1..])
  }

  function AllLeafKeys(q: seq<Result>): multiset<Key> {
    if q == [] then multiset{} else LeafKeys(q[0]) + AllLeafKeys(q[1..])
  }

  lemma {:induction false} QueueConcat(a: seq<Result>, b: seq<Result>)
    ensures AllDecorating(a + b) <==> AllDecorating(a) && AllDecorating(b)
    ensures AllLeafKeys(a + b) == AllLeafKeys(a) + AllLeafKeys(b)
  {
    hide Decorating, LeafKeys;
    if a == [] {
      assert a + b == b;
    } else {
      QueueConcat(a[1..], b);
      assert (a + b)[1..] == a[1..] + b;
    }
  }

  lemma {:induction false} QueueOfFields(fields: seq<ResultField>)
    ensures AllDecorating(ResultsOf(fields)) <==> FieldsDecorating(fields)
    ensures AllLeafKeys(ResultsOf(fields)) == FieldsLeafKeys(fields)
  {
    if fields != [] {
      QueueOfFields(fields[1..]);
      assert ResultsOf(fields)[1..] == ResultsOf(fields[1..]);
    }
  }

  /** The search finds the key of every leaf, as often as it occurs, and fails only on a group that is not a slice. */
  lemma {:induction false} SearchFindsLeaves(q: seq<Result>)
    ensures SearchKeys(q).Some? <==> AllDecorating(q)
    ensures SearchKeys(q).Some? ==> multiset(SearchKeys(q).value) == AllLeafKeys(q)
    decreases QueueSize(q)
  {
    if q != [] {
      match q[0]
      case SingleResult(_, _, _) => SearchFindsLeaves(q[1..]);
      case GroupedResult(_, _, _, _) => SearchFindsLeaves(q[1..]);
      case ObjectResult(fields) =>
        QueueSizeConcat(q[1..], ResultsOf(fields));
        FieldsQueueSize(fields);
        SearchFindsLeaves(q[1..] + ResultsOf(fields));
        QueueConcat(q[1..], ResultsOf(fields));
        QueueOfFields(fields);
    }
  }

  lemma SearchNothing()
    ensures SearchKeys([]) == Some([])
  {}

  /** One turn of the search */
  lemma {:induction false} SearchStep(q: seq<Result>)
    requires q != []
    ensures QueueSize(q[1..]) < QueueSize(q)
    ensures match q[0]
            case SingleResult(name, t, _) => SearchKeys(q) == Prepend(Key(t, name, ""), SearchKeys(q[1..]))
            case GroupedResult(group, t, _, _) =>
              SearchKeys(q) == if t.SliceOf? then Prepend(Key(t.elem, "", group), SearchKeys(q[1..])) else None
            case ObjectResult(fields) =>
              && SearchKeys(q) == SearchKeys(q[1..] + ResultsOf(fields))
              && QueueSize(q[1..] + ResultsOf(fields)) < QueueSize(q)
  {
    if q[0].ObjectResult? {
      QueueSizeConcat(q[1..], ResultsOf(q[0].fields));
      FieldsQueueSize(q[0].fields);
    }
  }

  /** findResultKeys */
  method FindResultKeys(rs: seq<Result>) returns (keys: Option<seq<Key>>)
    ensures keys == SearchKeys(rs)
    ensures keys.Some? <==> AllDecorating(rs)
    ensures keys.Some? ==> multiset(keys.value) == AllLeafKeys(rs)
  {
    hide AllDecorating, AllLeafKeys, SearchKeys, QueueSize;
    SearchFindsLeaves(rs);
    assert SearchKeys([]) == Some([]) by { SearchNothing(); }
    var q := rs;
    var found: seq<Key> := [];
    assert SearchKeys(q).Some? ==> found + SearchKeys(q).value == SearchKeys(q).value;
    while |q| > 0
      invariant SearchKeys(rs).Some? == SearchKeys(q).Some?
      invariant SearchKeys(q).Some? ==> SearchKeys(rs).value == found + SearchKeys(q).value
      decreases QueueSize(q)
    {
      var res := q[0];
      SearchStep(q);
      match res
      case SingleResult(name, t, _) =>
        found := found + [Key(t, name, "")];
        q := q[1..];
      case GroupedResult(group, t, _, _) =>
        if !t.SliceOf? {
          return None;
        }
        found := found + [Key(t.elem, "", group)];
        q := q[1..];
      case ObjectResult(fields) =>
        q := q[1..] + ResultsOf(fields);
    }
    assert found + [] == found;
    return Some(found);
  }
}
