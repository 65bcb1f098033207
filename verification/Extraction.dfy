/** Extraction of the values returned by a user function: Extract and ExtractList of result.go, and
    the stagingContainerWriter of constructor.go. */
module Extraction {
  import opened Values
  import opened ResultTree

  /** A call to a containerWriter: setValue or submitGroupedValue, or their decorated versions. */
  datatype Write = Set(key: Key, value: Value) | Submit(key: Key, value: Value)

  function SetAll(ks: seq<Key>, v: Value): (ws: seq<Write>)
    ensures |ws| == |ks| && forall i :: 0 <= i < |ks| ==> ws[i] == Set(ks[i], v)
  {
    seq(|ks|, i requires 0 <= i < |ks| => Set(ks[i], v))
  }

  function SubmitAll(ks: seq<Key>, v: Value): (ws: seq<Write>)
    ensures |ws| == |ks| && forall i :: 0 <= i < |ks| ==> ws[i] == Submit(ks[i], v)
  {
    seq(|ks|, i requires 0 <= i < |ks| => Submit(ks[i], v))
  }

  function SubmitItems(k: Key, vs: seq<Value>): (ws: seq<Write>)
    ensures |ws| == |vs| && forall i :: 0 <= i < |vs| ==> ws[i] == Submit(k, vs[i])
  {
    seq(|vs|, i requires 0 <= i < |vs| => Submit(k, vs[i]))
  }

  /** `r.Extract(cw, decorated, v)` as the sequence of its writes. A decorated value is written whole,
      under its own key only. */
  function Writes(r: Result, decorated: bool, v: Value): seq<Write>
    decreases r, 1
  {
    match r
    case SingleResult(name, t, ts) =>
      if decorated then [Set(Key(t, name, ""), v)] else SetAll(AsKeys([t] + ts, name, ""), v)
    case GroupedResult(group, t, flatten, ts) =>
      if decorated then [Submit(Key(t, "", group), v)]
      else if flatten then SubmitItems(Key(t, "", group), v.Items())
      else SubmitAll(AsKeys([t] + ts, "", group), v)
    case ObjectResult(fields) => FieldWrites(fields, decorated, v)
  }

  function FieldWrites(fields: seq<ResultField>, decorated: bool, v: Value): seq<Write>
    decreases fields, 0
  {
    if fields == [] then [] else
      assert (fields[0] decreases to fields[0].result);
      Writes(fields[0].result, decorated, v.Field(fields[0].index)) + FieldWrites(fields[1..], decorated, v)
  }

  /** The writes of ExtractList from the i-th returned value on, and the error that stopped it. */
  datatype Extracted = Extracted(writes: seq<Write>, error: Option<UserError>)

  function ExtractFrom(rl: ResultList, decorated: bool, vals: seq<Value>, i: nat): Extracted
    requires rl.Valid() && |vals| == |rl.indexes| && i <= |vals|
    decreases |vals| - i
  {
    if i == |vals| then Extracted([], None)
    else if rl.indexes[i] >= 0 then
      var rest := ExtractFrom(rl, decorated, vals, i + 1);
      rest.(writes := Writes(rl.results[rl.indexes[i]], decorated, vals[i]) + rest.writes)
    else if vals[i].AsError().Some? then Extracted([], vals[i].AsError())
    else ExtractFrom(rl, decorated, vals, i + 1)
  }

  /** One turn of ExtractList, after the writes `ws` */
  lemma ExtractStep(rl: ResultList, decorated: bool, vals: seq<Value>, i: nat, ws: seq<Write>)
    requires rl.Valid() && |vals| == |rl.indexes| && i < |vals|
    ensures var x, next := ExtractFrom(rl, decorated, vals, i), ExtractFrom(rl, decorated, vals, i + 1);
            if rl.indexes[i] >= 0 then
              && x.error == next.error
              && ws + x.writes == (ws + Writes(rl.results[rl.indexes[i]], decorated, vals[i])) + next.writes
            else if vals[i].AsError().Some? then x == Extracted([], vals[i].AsError())
            else x == next
  {
    hide Writes;
    if rl.indexes[i] >= 0 {
      var w, next := Writes(rl.results[rl.indexes[i]], decorated, vals[i]), ExtractFrom(rl, decorated, vals, i + 1);
      assert ws + (w + next.writes) == (ws + w) + next.writes;
    }
  }

  lemma {:induction false} ExtractNothing(rl: ResultList, decorated: bool, vals: seq<Value>)
    requires rl.Valid() && |vals| == |rl.indexes|
    ensures ExtractFrom(rl, decorated, vals, |vals|) == Extracted([], None)
  {}

  // ---------------------------------------------------------------------------------------------
  // The staging writer

  datatype Written = Written(values: map<Key, Value>, groups: map<Key, seq<Value>>) {
    function Add(w: Write): Written {
      match w
      case Set(k, v) => this.(values := values[k := v])
      case Submit(k, v) => this.(groups := groups[k := Listed(groups, k) + [v]])
    }

    function AddAll(ws: seq<Write>): Written {
      if ws == [] then this else AddAll(ws[..|ws| - 1]).Add(ws[|ws| - 1])
    }
  }

  const Nothing := Written(map[], map[])

  lemma {:induction false} AddAllConcat(st: Written, a: seq<Write>, b: seq<Write>)
    ensures st.AddAll(a + b) == st.AddAll(a).AddAll(b)
  {
    if b == [] {
      assert a + b == a;
    } else {
      AddAllConcat(st, a, b[..|b| - 1]);
      assert (a + b)[..|a + b| - 1] == a + b[..|b| - 1];
    }
  }

  lemma {:induction false} AddNothing(st: Written)
    ensures st.AddAll([]) == st
  {}

  lemma {:induction false} AddNoFields(st: Written, v: Value)
    ensures st.AddAll(FieldWrites([], false, v)) == st
  {}

  lemma {:induction false} WritesOfFields(fields: seq<ResultField>, decorated: bool, v: Value)
    ensures Writes(ObjectResult(fields), decorated, v) == FieldWrites(fields, decorated, v)
  {}

  lemma {:induction false} FieldWritesSnoc(fields: seq<ResultField>, decorated: bool, v: Value, i: nat)
    requires i < |fields|
    ensures FieldWrites(fields[..i + 1], decorated, v)
         == FieldWrites(fields[..i], decorated, v) + Writes(fields[i].result, decorated, v.Field(fields[i].index))
  {
    if i > 0 {
      FieldWritesSnoc(fields[1..], decorated, v, i - 1);
      assert fields[..i + 1][1..] == fields[1..][..i];
      assert fields[..i][1..] == fields[1..][..i - 1];
    }
  }

  /** stagingContainerWriter */
  class StagingWriter {
    var values: map<Key, Value>
    var groups: map<Key, seq<Value>>

    function Staged(): Written
      reads this
    {
      Written(values, groups)
    }

    constructor ()
      ensures Staged() == Nothing
    {
      values, groups := map[], map[];
    }

    method SetValue(k: Key, v: Value)
      modifies this
      ensures Staged() == old(Staged()).Add(Set(k, v))
    {
      values := values[k := v];
    }

    method SubmitGroupedValue(k: Key, v: Value)
      modifies this
      ensures Staged() == old(Staged()).Add(Submit(k, v))
    {
      groups := groups[k := Listed(groups, k) + [v]];
    }

    method Extract(r: Result, v: Value)
      modifies this
      ensures Staged() == old(Staged()).AddAll(Writes(r, false, v))
      decreases r
    {
      match r
      case SingleResult(name, t, ts) =>
        SetValues(AsKeys([t] + ts, name, ""), v);
      case GroupedResult(group, t, flatten, ts) =>
        if !flatten {
          SubmitForAll(AsKeys([t] + ts, "", group), v);
        } else {
          SubmitFlattened(Key(t, "", group), v.Items());
        }
      case ObjectResult(fields) =>
        hide Written.AddAll, Writes, FieldWrites;
        AddNoFields(Staged(), v);
        for i := 0 to |fields|
          invariant Staged() == old(Staged()).AddAll(FieldWrites(fields[..i], false, v))
        {
          FieldWritesSnoc(fields, false, v, i);
          AddAllConcat(old(Staged()), FieldWrites(fields[..i], false, v),
                       Writes(fields[i].result, false, v.Field(fields[i].index)));
          Extract(fields[i].result, v.Field(fields[i].index));
        }
        assert fields[..|fields|] == fields;
        WritesOfFields(fields, false, v);
    }

    /** The loop over the types of a single result */
    method SetValues(ks: seq<Key>, v: Value)
      modifies this
      ensures Staged() == old(Staged()).AddAll(SetAll(ks, v))
    {
      ghost var ws := SetAll(ks, v);
      for i := 0 to |ks|
        invariant Staged() == old(Staged()).AddAll(ws[..i])
      {
        assert ws[..i + 1][..i] == ws[..i];
        SetValue(ks[i], v);
      }
      assert ws[..|ks|] == ws;
    }

    /** The loop over the types of a grouped result */
    method SubmitForAll(ks: seq<Key>, v: Value)
      modifies this
      ensures Staged() == old(Staged()).AddAll(SubmitAll(ks, v))
    {
      ghost var ws := SubmitAll(ks, v);
      for i := 0 to |ks|
        invariant Staged() == old(Staged()).AddAll(ws[..i])
      {
        assert ws[..i + 1][..i] == ws[..i];
        SubmitGroupedValue(ks[i], v);
      }
      assert ws[..|ks|] == ws;
    }

    /** The loop over the items of a flattened grouped result */
    method SubmitFlattened(k: Key, items: seq<Value>)
      modifies this
      ensures Staged() == old(Staged()).AddAll(SubmitItems(k, items))
    {
      ghost var ws := SubmitItems(k, items);
      for i := 0 to |items|
        invariant Staged() == old(Staged()).AddAll(ws[..i])
      {
        assert ws[..i + 1][..i] == ws[..i];
        SubmitGroupedValue(k, items[i]);
      }
      assert ws[..|items|] == ws;
    }

    method ExtractList(rl: ResultList, vals: seq<Value>) returns (err: Option<UserError>)
      requires rl.Valid() && |vals| == |rl.indexes|
      modifies this
      ensures err == ExtractFrom(rl, false, vals, 0).error
      ensures Staged() == old(Staged()).AddAll(ExtractFrom(rl, false, vals, 0).writes)
    {
      hide ExtractFrom, Writes, Written.AddAll;
      ghost var ws: seq<Write> := [];
      AddNothing(Staged());
      for i := 0 to |vals|
        invariant Staged() == old(Staged()).AddAll(ws)
        invariant ExtractFrom(rl, false, vals, 0).error == ExtractFrom(rl, false, vals, i).error
        invariant ExtractFrom(rl, false, vals, 0).writes == ws + ExtractFrom(rl, false, vals, i).writes
      {
        ExtractStep(rl, false, vals, i, ws);
        if rl.indexes[i] >= 0 {
          var r := rl.results[rl.indexes[i]];
          AddAllConcat(old(Staged()), ws, Writes(r, false, vals[i]));
          Extract(r, vals[i]);
          ws := ws + Writes(r, false, vals[i]);
        } else if vals[i].AsError().Some? {
          assert ws + [] == ws;
          return vals[i].AsError();
        }
      }
      ExtractNothing(rl, false, vals);
      assert ws + [] == ws;
      return None;
    }
  }

  // ---------------------------------------------------------------------------------------------
  // What is written is what was registered

  /** A constructor's returned values either are all staged, or hold an error. */
  datatype Production = Produced(written: Written) | Rejected(error: UserError)

  function Produce(rl: ResultList, vals: seq<Value>): Production
    requires rl.Valid() && |vals| == |rl.indexes|
  {
    var x := ExtractFrom(rl, false, vals, 0);
    if x.error.Some? then Rejected(x.error.value) else Produced(Nothing.AddAll(x.writes))
  }

  function SetKeys(ws: seq<Write>): set<Key> {
    set w | w in ws && w.Set? :: w.key
  }

  function SubmitKeys(ws: seq<Write>): set<Key> {
    set w | w in ws && w.Submit? :: w.key
  }

  /** The i-th field of a struct */
  function Part(v: Value, i: nat): Value {
    match v
    case Struct(fields) => if i in fields then fields[i] else NoValue
    case _ => NoValue
  }

  /** The single value `x` stands, in the value `v` returned for the result `r`, where `r` declares key `k`. */
  ghost predicate Declares(r: Result, v: Value, k: Key, x: Value)
    decreases r
  {
    match r
    case SingleResult(name, t, ts) => x == v && (k == Key(t, name, "") || exists a :: a in ts && k == Key(a, name, ""))
    case GroupedResult(_, _, _, _) => false
    case ObjectResult(fields) =>
      exists i :: 0 <= i < |fields| && Declares(fields[i].result, Part(v, fields[i].index), k, x)
  }

  ghost predicate ListDeclares(rl: ResultList, vals: seq<Value>, k: Key, x: Value)
    requires rl.Valid() && |vals| == |rl.indexes|
  {
    exists i :: 0 <= i < |vals| && rl.indexes[i] >= 0 && Declares(rl.results[rl.indexes[i]], vals[i], k, x)
  }

  lemma SetKeysConcat(a: seq<Write>, b: seq<Write>)
    ensures SetKeys(a + b) == SetKeys(a) + SetKeys(b)
    ensures SubmitKeys(a + b) == SubmitKeys(a) + SubmitKeys(b)
  {
    assert forall w :: w in a + b <==> w in a || w in b;
  }

  function GroupKeysOf(es: seq<Entry>): set<Key> {
    set e | e in es && !e.single :: e.key
  }

  lemma GroupKeysOfConcat(a: seq<Entry>, b: seq<Entry>)
    ensures GroupKeysOf(a + b) == GroupKeysOf(a) + GroupKeysOf(b)
  {
    assert forall e :: e in a + b <==> e in a || e in b;
  }

  /** Whatever is returned, Extract writes exactly the single keys met by the visitor, and no other group. */
  lemma {:induction false} ResultWritesKeys(r: Result, v: Value)
    ensures SetKeys(Writes(r, false, v)) == SingleKeysOf(Entries(r))
    ensures SubmitKeys(Writes(r, false, v)) <= GroupKeysOf(Entries(r))
    decreases r, 1
  {
    var ws, es := Writes(r, false, v), Entries(r);
    match r
    case SingleResult(name, t, ts) =>
      assert forall i :: 0 <= i < |es| ==> ws[i].key == es[i].key && ws[i] in ws && es[i] in es;
    case GroupedResult(group, t, flatten, ts) =>
      if flatten {
        assert es[0] in es && es[0].key == Key(t, "", group);
      } else {
        assert forall i :: 0 <= i < |es| ==> ws[i].key == es[i].key && es[i] in es;
      }
    case ObjectResult(fields) => FieldsWriteKeys(fields, v);
  }

  lemma {:induction false} FieldsWriteKeys(fields: seq<ResultField>, v: Value)
    ensures SetKeys(FieldWrites(fields, false, v)) == SingleKeysOf(FieldEntries(fields))
    ensures SubmitKeys(FieldWrites(fields, false, v)) <= GroupKeysOf(FieldEntries(fields))
    decreases fields, 0
  {
    if fields != [] {
      assert (fields[0] decreases to fields[0].result);
      var v0 := v.Field(fields[0].index);
      ResultWritesKeys(fields[0].result, v0);
      FieldsWriteKeys(fields[1..], v);
      SetKeysConcat(Writes(fields[0].result, false, v0), FieldWrites(fields[1..], false, v));
      KeysOfConcat(Entries(fields[0].result), FieldEntries(fields[1..]));
      GroupKeysOfConcat(Entries(fields[0].result), FieldEntries(fields[1..]));
    }
  }

  /** The keys staged by a run of writes are the keys written, and the last value written stands. */
  lemma {:induction false} AddAllKeys(ws: seq<Write>)
    ensures Nothing.AddAll(ws).values.Keys == SetKeys(ws)
    ensures Nothing.AddAll(ws).groups.Keys == SubmitKeys(ws)
    ensures forall k :: k in Nothing.AddAll(ws).values ==> Set(k, Nothing.AddAll(ws).values[k]) in ws
  {
    if ws != [] {
      var init, last := ws[..|ws| - 1], ws[|ws| - 1];
      AddAllKeys(init);
      SetKeysConcat(init, [last]);
      assert ws == init + [last];
    }
  }

  lemma {:induction false} WriteIsDeclared(r: Result, v: Value, k: Key, x: Value)
    requires Set(k, x) in Writes(r, false, v)
    ensures Declares(r, v, k, x)
    decreases r, 1
  {
    match r
    case SingleResult(name, t, ts) =>
      var i :| 0 <= i < |ts| + 1 && Writes(r, false, v)[i] == Set(k, x);
      if i > 0 { assert ([t] + ts)[i] in ts; }
    case GroupedResult(_, _, _, _) =>
    case ObjectResult(fields) =>
      var i := FieldWriteIsDeclared(fields, v, k, x);
  }

  lemma FieldWriteIsDeclared(fields: seq<ResultField>, v: Value, k: Key, x: Value) returns (i: nat)
    requires Set(k, x) in FieldWrites(fields, false, v)
    ensures i < |fields| && Declares(fields[i].result, Part(v, fields[i].index), k, x)
    decreases fields, 0
  {
    assert (fields[0] decreases to fields[0].result);
    if Set(k, x) in Writes(fields[0].result, false, v.Field(fields[0].index)) {
      WriteIsDeclared(fields[0].result, v.Field(fields[0].index), k, x);
      i := 0;
    } else {
      i := FieldWriteIsDeclared(fields[1..], v, k, x);
      i := i + 1;
    }
  }

  lemma {:induction false} DeclaredIsWritten(r: Result, v: Value, k: Key, x: Value)
    requires Declares(r, v, k, x)
    ensures Set(k, x) in Writes(r, false, v)
    decreases r, 1
  {
    match r
    case SingleResult(name, t, ts) =>
      var ws := Writes(r, false, v);
      if k == Key(t, name, "") {
        assert ws[0] == Set(k, x);
      } else {
        var a :| a in ts && k == Key(a, name, "");
        var i :| 0 <= i < |ts| && ts[i] == a;
        assert ws[i + 1] == Set(k, x);
      }
    case ObjectResult(fields) =>
      var i :| 0 <= i < |fields| && Declares(fields[i].result, Part(v, fields[i].index), k, x);
      DeclaredFieldIsWritten(fields, v, k, x, i);
  }

  lemma {:induction false} DeclaredFieldIsWritten(fields: seq<ResultField>, v: Value, k: Key, x: Value, i: nat)
    requires i < |fields| && Declares(fields[i].result, Part(v, fields[i].index), k, x)
    ensures Set(k, x) in FieldWrites(fields, false, v)
    decreases fields, 0
  {
    assert (fields[0] decreases to fields[0].result);
    if i == 0 {
      DeclaredIsWritten(fields[0].result, Part(v, fields[0].index), k, x);
    } else {
      DeclaredFieldIsWritten(fields[1..], v, k, x, i - 1);
    }
  }

  lemma {:induction false} DeclaredIsExtracted(rl: ResultList, vals: seq<Value>, i: nat, j: nat, k: Key, x: Value)
    requires rl.Valid() && |vals| == |rl.indexes| && i <= j < |vals| && ExtractFrom(rl, false, vals, i).error.None?
    requires rl.indexes[j] >= 0 && Declares(rl.results[rl.indexes[j]], vals[j], k, x)
    ensures Set(k, x) in ExtractFrom(rl, false, vals, i).writes
    decreases |vals| - i
  {
    hide Writes, Declares;
    if i == j {
      DeclaredIsWritten(rl.results[rl.indexes[j]], vals[j], k, x);
    } else {
      DeclaredIsExtracted(rl, vals, i + 1, j, k, x);
    }
  }

  /** The keys of the results that the returned values from `i` on are sent to. */
  ghost function SentFrom(rl: ResultList, i: nat): seq<Result>
    requires rl.Valid() && i <= |rl.indexes|
    decreases |rl.indexes| - i
  {
    if i == |rl.indexes| then []
    else if rl.indexes[i] >= 0 then [rl.results[rl.indexes[i]]] + SentFrom(rl, i + 1)
    else SentFrom(rl, i + 1)
  }

  lemma {:induction false} ExtractWritesKeys(rl: ResultList, vals: seq<Value>, i: nat)
    requires rl.Valid() && |vals| == |rl.indexes| && i <= |vals|
    requires ExtractFrom(rl, false, vals, i).error.None?
    ensures SetKeys(ExtractFrom(rl, false, vals, i).writes) == SingleKeysOf(ListEntries(SentFrom(rl, i)))
    ensures SubmitKeys(ExtractFrom(rl, false, vals, i).writes) <= GroupKeysOf(ListEntries(SentFrom(rl, i)))
    decreases |vals| - i
  {
    if i < |vals| {
      ExtractWritesKeys(rl, vals, i + 1);
      if rl.indexes[i] >= 0 {
        var r := rl.results[rl.indexes[i]];
        ResultWritesKeys(r, vals[i]);
        SetKeysConcat(Writes(r, false, vals[i]), ExtractFrom(rl, false, vals, i + 1).writes);
        assert SentFrom(rl, i)[1..] == SentFrom(rl, i + 1);
        KeysOfConcat(Entries(r), ListEntries(SentFrom(rl, i + 1)));
        GroupKeysOfConcat(Entries(r), ListEntries(SentFrom(rl, i + 1)));
      }
    }
  }

  lemma {:induction false} EntryOfList(rs: seq<Result>, e: Entry)
    ensures e in ListEntries(rs) <==> exists r :: r in rs && e in Entries(r)
  {
    if rs != [] {
      EntryOfList(rs[1..], e);
      assert forall r :: r in rs <==> r == rs[0] || r in rs[1..];
      if e in Entries(rs[0]) { assert rs[0] in rs; }
      if r :| r in rs[1..] && e in Entries(r) { assert r in rs; }
    }
  }

  lemma {:induction false} SentContains(rl: ResultList, i: nat, j: nat)
    requires rl.Valid() && i <= j < |rl.indexes| && rl.indexes[j] >= 0
    ensures rl.results[rl.indexes[j]] in SentFrom(rl, i)
    decreases j - i
  {
    if i < j { SentContains(rl, i + 1, j); }
  }

  lemma {:induction false} SentWithin(rl: ResultList, i: nat)
    requires rl.Valid() && i <= |rl.indexes|
    ensures forall r :: r in SentFrom(rl, i) ==> r in rl.results
    decreases |rl.indexes| - i
  {
    if i < |rl.indexes| { SentWithin(rl, i + 1); }
  }

  lemma {:induction false} SentToAll(rl: ResultList)
    requires rl.Valid()
    ensures forall r :: r in SentFrom(rl, 0) <==> r in rl.results
    ensures SingleKeysOf(ListEntries(SentFrom(rl, 0))) == SingleKeysOf(ListEntries(rl.results))
    ensures GroupKeysOf(ListEntries(SentFrom(rl, 0))) == GroupKeysOf(ListEntries(rl.results))
  {
    SentWithin(rl, 0);
    forall r | r in rl.results ensures r in SentFrom(rl, 0) {
      var n :| 0 <= n < |rl.results| && rl.results[n] == r;
      assert n in rl.indexes;
      var j :| 0 <= j < |rl.indexes| && rl.indexes[j] == n;
      SentContains(rl, 0, j);
    }
    forall e ensures e in ListEntries(SentFrom(rl, 0)) <==> e in ListEntries(rl.results) {
      EntryOfList(SentFrom(rl, 0), e);
      EntryOfList(rl.results, e);
    }
  }

  lemma {:induction false} ExtractIsDeclared(rl: ResultList, vals: seq<Value>, i: nat, k: Key, x: Value)
    requires rl.Valid() && |vals| == |rl.indexes| && i <= |vals|
    requires Set(k, x) in ExtractFrom(rl, false, vals, i).writes
    ensures ListDeclares(rl, vals, k, x)
    decreases |vals| - i
  {
    if rl.indexes[i] >= 0 && Set(k, x) in Writes(rl.results[rl.indexes[i]], false, vals[i]) {
      WriteIsDeclared(rl.results[rl.indexes[i]], vals[i], k, x);
    } else {
      ExtractIsDeclared(rl, vals, i + 1, k, x);
    }
  }

  /** When a constructor returns no error, the single keys staged for the container are exactly the single
      keys registered for it, each with the value returned where it was declared; only registered groups
      receive values. */
  lemma RegisteredKeysAreWritten(rl: ResultList, vals: seq<Value>)
    requires rl.Valid() && |vals| == |rl.indexes| && Produce(rl, vals).Produced?
    ensures Produce(rl, vals).written.values.Keys == SingleKeysOf(ListEntries(rl.results))
    ensures forall k :: k in Produce(rl, vals).written.values ==>
              ListDeclares(rl, vals, k, Produce(rl, vals).written.values[k])
    ensures forall k, x :: ListDeclares(rl, vals, k, x) ==> k in Produce(rl, vals).written.values
    ensures Produce(rl, vals).written.groups.Keys <= GroupKeysOf(ListEntries(rl.results))
  {
    var x := ExtractFrom(rl, false, vals, 0);
    ExtractWritesKeys(rl, vals, 0);
    SentToAll(rl);
    AddAllKeys(x.writes);
    var values := Nothing.AddAll(x.writes).values;
    forall k | k in values ensures ListDeclares(rl, vals, k, values[k]) {
      ExtractIsDeclared(rl, vals, 0, k, values[k]);
    }
    forall k, v | ListDeclares(rl, vals, k, v) ensures k in values {
      var j :| 0 <= j < |vals| && rl.indexes[j] >= 0 && Declares(rl.results[rl.indexes[j]], vals[j], k, v);
      DeclaredIsExtracted(rl, vals, 0, j, k, v);
    }
  }

  // ---------------------------------------------------------------------------------------------
  // What a decorator writes

  /** The keys of the single leaves of a result, without the types that it may also be provided as */
  function SingleLeaves(r: Result): set<Key>
    decreases r, 1
  {
    match r
    case SingleResult(name, t, _) => {Key(t, name, "")}
    case GroupedResult(_, _, _, _) => {}
    case ObjectResult(fields) => SingleFieldLeaves(fields)
  }

  function SingleFieldLeaves(fields: seq<ResultField>): set<Key>
    decreases fields, 0
  {
    if fields == [] then {} else
      assert (fields[0] decreases to fields[0].result);
      SingleLeaves(fields[0].result) + SingleFieldLeaves(fields[1..])
  }

  function SinglesOf(rs: seq<Result>): set<Key> {
    if rs == [] then {} else SingleLeaves(rs[0]) + SinglesOf(rs[1..])
  }

  /** The keys of the slices that a result declares for groups */
  function SliceLeaves(r: Result): set<Key>
    decreases r, 1
  {
    match r
    case SingleResult(_, _, _) => {}
    case GroupedResult(group, t, _, _) => {Key(t, "", group)}
    case ObjectResult(fields) => SliceFieldLeaves(fields)
  }

  function SliceFieldLeaves(fields: seq<ResultField>): set<Key>
    decreases fields, 0
  {
    if fields == [] then {} else
      assert (fields[0] decreases to fields[0].result);
      SliceLeaves(fields[0].result) + SliceFieldLeaves(fields[1..])
  }

  function SlicesOf(rs: seq<Result>): set<Key> {
    if rs == [] then {} else SliceLeaves(rs[0]) + SlicesOf(rs[1..])
  }

  lemma {:induction false} LeavesAreWritten(r: Result, v: Value)
    ensures SetKeys(Writes(r, true, v)) == SingleLeaves(r)
    ensures SubmitKeys(Writes(r, true, v)) == SliceLeaves(r)
    decreases r, 1
  {
    match r
    case SingleResult(name, t, ts) => assert Writes(r, true, v) == [Set(Key(t, name, ""), v)];
    case GroupedResult(group, t, flatten, ts) => assert Writes(r, true, v) == [Submit(Key(t, "", group), v)];
    case ObjectResult(fields) => FieldLeavesAreWritten(fields, v);
  }

  lemma {:induction false} FieldLeavesAreWritten(fields: seq<ResultField>, v: Value)
    ensures SetKeys(FieldWrites(fields, true, v)) == SingleFieldLeaves(fields)
    ensures SubmitKeys(FieldWrites(fields, true, v)) == SliceFieldLeaves(fields)
    decreases fields, 0
  {
    if fields != [] {
      assert (fields[0] decreases to fields[0].result);
      var v0 := v.Field(fields[0].index);
      LeavesAreWritten(fields[0].result, v0);
      FieldLeavesAreWritten(fields[1..], v);
      SetKeysConcat(Writes(fields[0].result, true, v0), FieldWrites(fields[1..], true, v));
    }
  }

  lemma {:induction false} LeavesOfList(rs: seq<Result>, k: Key)
    ensures k in SinglesOf(rs) <==> exists r :: r in rs && k in SingleLeaves(r)
    ensures k in SlicesOf(rs) <==> exists r :: r in rs && k in SliceLeaves(r)
  {
    if rs != [] {
      LeavesOfList(rs[1..], k);
      assert forall r :: r in rs <==> r == rs[0] || r in rs[1..];
      if k in SingleLeaves(rs[0]) || k in SliceLeaves(rs[0]) { assert rs[0] in rs; }
      if r :| r in rs[1..] && k in SingleLeaves(r) { assert r in rs; }
      if r :| r in rs[1..] && k in SliceLeaves(r) { assert r in rs; }
    }
  }

  lemma {:induction false} SentLeavesAreWritten(rl: ResultList, vals: seq<Value>, i: nat)
    requires rl.Valid() && |vals| == |rl.indexes| && i <= |vals|
    requires ExtractFrom(rl, true, vals, i).error.None?
    ensures SetKeys(ExtractFrom(rl, true, vals, i).writes) == SinglesOf(SentFrom(rl, i))
    ensures SubmitKeys(ExtractFrom(rl, true, vals, i).writes) == SlicesOf(SentFrom(rl, i))
    decreases |vals| - i
  {
    if i < |vals| {
      SentLeavesAreWritten(rl, vals, i + 1);
      if rl.indexes[i] >= 0 {
        var r := rl.results[rl.indexes[i]];
        LeavesAreWritten(r, vals[i]);
        SetKeysConcat(Writes(r, true, vals[i]), ExtractFrom(rl, true, vals, i + 1).writes);
        assert SentFrom(rl, i)[1..] == SentFrom(rl, i + 1);
      }
    }
  }

  /** When a decorator returns no error, it writes exactly the leaves that it declares: single values as they are,
      groups as whole slices. */
  lemma {:induction false} DeclaredLeavesAreWritten(rl: ResultList, vals: seq<Value>)
    requires rl.Valid() && |vals| == |rl.indexes| && ExtractFrom(rl, true, vals, 0).error.None?
    ensures SetKeys(ExtractFrom(rl, true, vals, 0).writes) == SinglesOf(rl.results)
    ensures SubmitKeys(ExtractFrom(rl, true, vals, 0).writes) == SlicesOf(rl.results)
  {
    hide ExtractFrom, SetKeys, SubmitKeys, SinglesOf, SlicesOf;
    SentLeavesAreWritten(rl, vals, 0);
    SentToAll(rl);
    forall k ensures k in SinglesOf(SentFrom(rl, 0)) <==> k in SinglesOf(rl.results)
             ensures k in SlicesOf(SentFrom(rl, 0)) <==> k in SlicesOf(rl.results) {
      LeavesOfList(SentFrom(rl, 0), k);
      LeavesOfList(rl.results, k);
    }
  }
}
