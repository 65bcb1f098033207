/** Arguments: each parameter is given its own value, and each field of a parameter object its own (param.go). */
module Arguments {
  import opened Values
  import opened Registry
  import opened Resolver
  import opened Evaluator

  /** A function is given one argument for each parameter, in order, if all of them can be built, and only then. */
  lemma {:induction false} ArgumentsInOrder(reg: Registry, m: Meaning, ps: seq<Param>, c: nat, self: Option<nat>)
    ensures var args := EvalList(reg, m, ps, c, self);
            && (args.Ok? <==> forall i :: 0 <= i < |ps| ==> Eval(reg, m, ps[i], c, self).Ok?)
            && (args.Ok? ==>
                  && |args.value| == |ps|
                  && forall i :: 0 <= i < |ps| ==> Eval(reg, m, ps[i], c, self) == Ok(args.value[i]))
  {
    hide Eval;
    if ps != [] {
      ArgumentsInOrder(reg, m, ps[1..], c, self);
      assert forall i :: 1 <= i < |ps| ==> ps[i] == ps[1..][i - 1];
    }
  }

  /** No two fields stand at the same place of the struct. */
  ghost predicate Apart(fields: seq<ParamField>) {
    forall i, j :: 0 <= i < j < |fields| ==> fields[i].index != fields[j].index
  }

  ghost predicate AllBuilt(reg: Registry, m: Meaning, fields: seq<ParamField>, c: nat, self: Option<nat>) {
    forall f :: f in fields ==> Eval(reg, m, f.param, c, self).Ok?
  }

  /** `vs` has the value of each of `fields` at its place, and nothing else. */
  ghost predicate Holds(reg: Registry, m: Meaning, fields: seq<ParamField>, c: nat, self: Option<nat>,
          vs: map<nat, Value>)
  {
    && (forall f :: f in fields ==> f.index in vs && Eval(reg, m, f.param, c, self) == Ok(vs[f.index]))
    && (forall x :: x in vs ==> exists f :: f in fields && f.index == x)
  }

  lemma {:induction false} FieldsInPlace(reg: Registry, m: Meaning, fields: seq<ParamField>, c: nat, self: Option<nat>)
    requires Apart(fields)
    ensures var vs := EvalFields(reg, m, fields, c, self);
            && (vs.Ok? <==> AllBuilt(reg, m, fields, c, self))
            && (vs.Ok? ==> Holds(reg, m, fields, c, self, vs.value))
  {
    hide Eval;
    if fields != [] {
      var init, last := fields[..|fields| - 1], fields[|fields| - 1];
      FieldsInPlace(reg, m, init, c, self);
      assert forall f :: f in fields <==> f in init || f == last;
      LastIsApart(fields);
    }
  }

  lemma LastIsApart(fields: seq<ParamField>)
    requires fields != [] && Apart(fields)
    ensures Apart(fields[..|fields| - 1])
    ensures forall f :: f in fields[..|fields| - 1] ==> f.index != fields[|fields| - 1].index
  {
    var init := fields[..|fields| - 1];
    forall f | f in init ensures f.index != fields[|fields| - 1].index {
      var i :| 0 <= i < |init| && init[i] == f;
      assert fields[i] == f;
    }
  }

  lemma {:induction false} ApartInAnyOrder(a: seq<ParamField>, b: seq<ParamField>)
    requires multiset(a) == multiset(b) && Apart(a)
    ensures Apart(b)
  {
    forall i, j | 0 <= i < j < |b| ensures b[i].index != b[j].index {
      assert b[i] in multiset(b) && b[j] in multiset(b);
      var x :| 0 <= x < |a| && a[x] == b[i];
      var y :| 0 <= y < |a| && a[y] == b[j];
      if b[i].index == b[j].index {
        assert x == y;
        TwiceIn(b, i, j);
        OnceIn(a, x);
      }
    }
  }

  lemma TwiceIn(fields: seq<ParamField>, i: nat, j: nat)
    requires i < j < |fields| && fields[i] == fields[j]
    ensures multiset(fields)[fields[i]] >= 2
  {
    assert fields == fields[..j] + [fields[j]] + fields[j + 1..];
    assert fields[..j][i] == fields[i] && fields[i] in fields[..j];
  }

  lemma OnceIn(fields: seq<ParamField>, i: nat)
    requires Apart(fields) && i < |fields|
    ensures multiset(fields)[fields[i]] == 1
  {
    var a, b := fields[..i], fields[i + 1..];
    assert fields == a + [fields[i]] + b;
    forall x | x in a ensures x != fields[i] { var j :| 0 <= j < i && a[j] == x && fields[j] == x; }
    forall x | x in b ensures x != fields[i] { var j :| 0 <= j < |b| && b[j] == x && fields[i + 1 + j] == x; }
  }

  lemma SameMembers(a: seq<ParamField>, b: seq<ParamField>)
    requires multiset(a) == multiset(b)
    ensures forall f :: f in a <==> f in b
  {
    assert forall f :: (f in a <==> f in multiset(a)) && (f in b <==> f in multiset(b));
  }

  lemma {:induction false} ObjectIsFields(reg: Registry, m: Meaning, fields: seq<ParamField>, c: nat, self: Option<nat>)
    ensures var vs := EvalFields(reg, m, BuildOrder(fields), c, self);
            Eval(reg, m, ObjectParam(fields), c, self) == if vs.Ok? then Ok(Struct(vs.value)) else Fail(vs.error)
  {}

  lemma BuiltInAnyOrder(reg: Registry, m: Meaning, a: seq<ParamField>, b: seq<ParamField>, c: nat, self: Option<nat>)
    requires multiset(a) == multiset(b)
    ensures AllBuilt(reg, m, a, c, self) <==> AllBuilt(reg, m, b, c, self)
  {
    hide Eval;
    SameMembers(a, b);
  }

  lemma HoldsInAnyOrder(reg: Registry, m: Meaning, a: seq<ParamField>, b: seq<ParamField>, c: nat, self: Option<nat>,
          vs: map<nat, Value>)
    requires multiset(a) == multiset(b) && Holds(reg, m, a, c, self, vs)
    ensures Holds(reg, m, b, c, self, vs)
  {
    hide Eval;
    SameMembers(a, b);
  }

  /** A parameter object is a struct that has the value of each field at the place of this field, if all of them can be
      built, and only then; in whatever order they are built. */
  lemma {:induction false} ObjectHoldsFields(reg: Registry, m: Meaning, fields: seq<ParamField>, c: nat,
          self: Option<nat>)
    requires Apart(fields)
    ensures var v := Eval(reg, m, ObjectParam(fields), c, self);
            && (v.Ok? <==> AllBuilt(reg, m, fields, c, self))
            && (v.Ok? ==> v.value.Struct? && Holds(reg, m, fields, c, self, v.value.fields))
  {
    hide Eval, EvalFields, BuildOrder, Apart, Holds, AllBuilt;
    var order := BuildOrder(fields);
    BuildOrderKeeps(fields);
    ApartInAnyOrder(fields, order);
    FieldsInPlace(reg, m, order, c, self);
    ObjectIsFields(reg, m, fields, c, self);
    BuiltInAnyOrder(reg, m, order, fields, c, self);
    var vs := EvalFields(reg, m, order, c, self);
    if vs.Ok? { HoldsInAnyOrder(reg, m, order, fields, c, self, vs.value); }
  }

}
