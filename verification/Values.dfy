/** Keys, values and errors: what container.go, group.go and error.go work with. */
module Values {

  datatype Option<+T> = None | Some(value: T)

  /** A Go type. Two slice types with the same element type may differ: `id` tells them apart. */
  datatype Type = Plain(id: nat) | SliceOf(id: nat, elem: Type)

  /** `key`: the identity of an object in the graph. Only one of `name` and `group` is set. */
  datatype Key = Key(t: Type, name: string, group: string) {
    predicate IsGroup() { group != "" }
  }

  /** An error made by user code; `missing` tells whether its chain holds an errMissingDependencies. */
  datatype UserError = UserError(id: nat, missing: bool)

  /** What a parameter is built to, and what a user function returns.
      `Bag` is the slice handed to a consumer of a value group, whose order is undefined. */
  datatype Value =
    | NoValue
    | Opaque(id: nat)
    | Zero(t: Type)
    | Struct(fields: map<nat, Value>)
    | Slice(elems: seq<Value>)
    | Bag(bag: multiset<Value>)
    | ErrorValue(error: Option<UserError>)
  {
    /** `v.Field(i)` */
    function Field(i: nat): Value {
      if Struct? && i in fields then fields[i] else NoValue
    }

    /** The items `v.Index(0)`, ..., `v.Index(v.Len() - 1)` */
    function Items(): seq<Value> {
      if Slice? then elems else []
    }

    /** `v.Interface().(error)`, which is nil for anything but a non-nil error */
    function AsError(): Option<UserError> {
      if ErrorValue? then error else None
    }
  }

  /** Who is to blame in a failed parameter (the CtorID of the error). */
  datatype Culprit = ByCtor(ctor: nat) | ByDecorator(deco: nat) | Unnamed

  datatype Error =
    | MissingTypes(keys: seq<Key>)
    | MissingDependencies(reason: Error)
    | ArgumentsFailed(reason: Error)
    | ConstructorFailed(user: UserError)
    | DecoratorFailed(user: UserError)
    | ParamSingleFailed(key: Key, culprit: Culprit, reason: Error)
    | ParamGroupFailed(key: Key, culprit: Culprit, reason: Error)
  {
    /** `errors.As(err, new(errMissingDependencies))` */
    predicate HasMissing() {
      match this
      case MissingDependencies(_) => true
      case MissingTypes(_) => false
      case ConstructorFailed(u) => u.missing
      case DecoratorFailed(u) => u.missing
      case ArgumentsFailed(e) => e.HasMissing()
      case ParamSingleFailed(_, _, e) => e.HasMissing()
      case ParamGroupFailed(_, _, e) => e.HasMissing()
    }
  }

  datatype Try<+T> = Ok(value: T) | Fail(error: Error)

  /** Looks up a Go map of slices: an absent key reads as the nil slice. */
  function Listed<K, V>(m: map<K, seq<V>>, k: K): seq<V> {
    if k in m then m[k] else []
  }

  lemma HeadIsMember<T>(s: seq<T>)
    ensures s == [] || s[0] in s
  {}

  ghost function MaxValue(m: map<nat, nat>, ks: set<nat>): (top: nat)
    requires ks <= m.Keys
    ensures forall k :: k in ks ==> m[k] <= top
  {
    if ks == {} then 0 else
      var k :| k in ks;
      var top := MaxValue(m, ks - {k});
      if m[k] <= top then top else m[k]
  }
}
