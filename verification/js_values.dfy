/**
 The JavaScript values the reconciliation engine looks at, the prop records it
 diffs, and the state objects it publishes.
 */
module JsValues {

  /** Identity of an rxjs `Observable` instance. */
  type StreamId = nat

  /**
   A prop value as seen by the classifiers. Two values are `!==` exactly when
   they differ as datatype values: the numbers inside stand for object identity
   (or for the primitive itself).
   */
  datatype Value =
    | Obs(stream: StreamId)                   // an instance of rxjs Observable
    | Fn(fn: nat)                             // a function
    | Observer(obj: nat, next: bool, error: bool, complete: bool)
                                              // a non-Observable object; each flag says whether
                                              // the object OWNS a function-valued member of that name
    | Plain(v: int)                           // any other non-null value
    | Null
    | Undef

  predicate Distinct(xs: seq<string>)
  {
    forall i, j | 0 <= i < j < |xs| :: xs[i] != xs[j]
  }

  function Elems(xs: seq<string>): set<string>
  {
    set x | x in xs
  }

  /** A JavaScript object used as a props record: `keys` is `Object.keys` order. */
  datatype Props = Props(keys: seq<string>, vals: map<string, Value>)

  predicate WellFormed(p: Props)
  {
    Distinct(p.keys) && p.vals.Keys == Elems(p.keys)
  }

  type Record = p: Props | WellFormed(p) witness Props([], map[])

  const Empty: Record := Props([], map[])

  /**
   `obj[key]` for a key naming no inherited member: an own property's value,
   or `undefined`. Keys such as `toString` or `constructor`, which a plain
   object inherits from `Object.prototype`, are outside this model.
   */
  function Get(p: Props, key: string): Value
  {
    if key in p.vals then p.vals[key] else Undef
  }

  predicate NoNull(p: Props)
  {
    forall k | k in p.vals :: p.vals[k] != Null
  }

  /**
   The object `keys.forEach(key => obj[key] = props[key])` fills in, starting
   from `{}`: the listed keys at their values in `props`.
   */
  function Pick(keys: seq<string>, props: Props): (m: map<string, Value>)
    ensures m.Keys == Elems(keys)
    ensures forall k | k in m :: m[k] == Get(props, k)
  {
    map k | k in Elems(keys) :: Get(props, k)
  }

  /** A plain state object with its reference identity (`===` compares `ref`). */
  datatype Obj = Obj(ref: nat, fields: map<string, Value>)

  /** Object spread `{...low, ...high}`: keys of both, `high` wins on a collision. */
  function Spread(low: map<string, Value>, high: map<string, Value>): (r: map<string, Value>)
    ensures r.Keys == low.Keys + high.Keys
    ensures forall k | k in high :: r[k] == high[k]
    ensures forall k | k in low && k !in high :: r[k] == low[k]
  {
    low + high
  }
}
