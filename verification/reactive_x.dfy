/**
 The reconciliation engine of `src/reactive-x-component.tsx`: the component
 class returned by `ReactiveXComponent(staticProps, defaultState)(Wrapped)`,
 as a state machine driven by lifecycle, delivery and flush events.
 */
module ReactiveX {
  import opened Wrappers
  import opened JsValues
  import opened Differences
  import opened Subscriptions

  datatype Phase = Unmounted | Mounted | Detached

  /** The `logger.warning` calls this variant makes. */
  datatype Warning =
    | NoSubscriptionFound(key: string)       // removePropSubscription on a key with no entry
    | NothingToSubscribeTo(key: string)      // subscriber prop, but the instance member is no Observable
    | NotSubscriberType(key: string)         // instance has the member, prop is not a subscriber
    | NoObservableKey(key: string)           // removeObservableKeys on a key obsValues lacks

  /** `after` is `before` with warnings appended, each about a key of `keys`. */
  ghost predicate WarnsOnlyAbout(before: seq<Warning>, after: seq<Warning>, keys: set<string>)
  {
    && |before| <= |after| && after[..|before|] == before
    && forall i | |before| <= i < |after| :: after[i].key in keys
  }

  lemma WarnsOnlyAboutTrans(a: seq<Warning>, b: seq<Warning>, c: seq<Warning>, k1: set<string>, k2: set<string>)
    requires WarnsOnlyAbout(a, b, k1) && WarnsOnlyAbout(b, c, k2)
    ensures WarnsOnlyAbout(a, c, k1 + k2)
  {
  }

  /** The value `stateSubject` holds. */
  datatype Snapshot = Snapshot(obsValues: Obj, basicProps: Obj, prevProps: Record)

  /** The React state `this.state`, which the wrapped component is rendered from. */
  datatype View = View(obsValues: Obj, basicProps: Obj)

  /** The arguments of `ReactiveXComponent(staticProps, defaultState)`, in key order. */
  datatype Config = Config(staticProps: seq<(string, StreamId)>, defaultState: map<string, Value>)

  /** `this.reference.current`: the wrapped instance's own members by name, or null. */
  type Instance = Option<map<string, Value>>

  datatype State = State(
    config: Config,
    phase: Phase,
    subject: Snapshot,          // stateSubject.value
    view: View,                 // this.state
    lastEmitted: Option<View>,  // what distinctUntilChanged last let through
    pending: bool,              // debounceTime(0) holds a value to emit
    listening: bool,            // the listenToStateUpdates subscription is open
    ledger: Ledger,             // propSubscriptions and the open subscriptions
    composite: set<SubId>,      // this.subscriptions
    nextRef: nat,               // next fresh object identity
    renders: nat,               // number of setState calls so far
    warnings: seq<Warning>)

  /** The freshly constructed component: `DEFAULT_STATE(defaultState)` is both the React state and the subject's. */
  function Init(cfg: Config): (s: State)
    ensures s.subject.obsValues.fields == cfg.defaultState && s.subject.basicProps.fields == map[]
    ensures s.view == View(s.subject.obsValues, s.subject.basicProps)
    ensures s.subject.prevProps == Empty && s.phase == Unmounted
    ensures Inv(s)
  {
    var obs := Obj(0, cfg.defaultState);
    var basic := Obj(1, map[]);
    State(cfg, Unmounted, Snapshot(obs, basic, Empty), View(obs, basic), None,
          false, false, Fresh, {}, 2, 0, [])
  }

  // ---------------------------------------------------------------------------
  // Classification

  /**
   `isSubscriberType`: a function, or an object owning a function-valued
   `next`, `complete` or `error`. On `null` the source throws (it calls
   `null.hasOwnProperty`), hence the precondition.
   */
  predicate IsSubscriberType(v: Value)
    requires v != Null
  {
    v.Fn? || (v.Observer? && (v.next || v.complete || v.error))
  }

  /** The test inside `filterKeys`: an Observable or a subscriber. */
  predicate IsRxjsCompat(v: Value)
    requires v != Null
  {
    v.Obs? || IsSubscriberType(v)
  }

  /** `Object.keys(obj).filter(this.filterKeys(obj, isObservable))`. */
  function FilterKeys(p: Record, isObservable: bool): (r: seq<string>)
    requires NoNull(p)
    ensures forall k :: k in r <==> k in p.keys && IsRxjsCompat(Get(p, k)) == isObservable
    ensures Distinct(r)
  {
    DistinctKeep(p.keys, set k | k in p.vals && IsRxjsCompat(p.vals[k]) == isObservable);
    Keep(p.keys, set k | k in p.vals && IsRxjsCompat(p.vals[k]) == isObservable)
  }

  /** `calculateDifferences(prevProps, currProps, withRxjsItems, leftovers)`. */
  function CalculateDifferences(prev: Record, curr: Record, withRxjsItems: bool, leftovers: seq<string>): Delta
    requires NoNull(prev) && NoNull(curr)
  {
    Scan(FilterKeys(prev, withRxjsItems), FilterKeys(curr, withRxjsItems) + leftovers, prev, curr)
  }

  /**
   What `calculateDifferences` reports, when the leftovers are duplicate-free
   and none of them is already a selected current key (as in every call the
   component makes): `added` are the selected current keys and leftovers that
   are not selected previous keys; `different` the selected previous keys
   among those whose values are `!==`; `removed` the selected previous keys
   among neither that read `undefined` now; the lists are pairwise disjoint;
   `changes` holds iff some list is non-empty.
   */
  lemma DifferencesMeaning(prev: Record, curr: Record, w: bool, leftovers: seq<string>)
    requires NoNull(prev) && NoNull(curr)
    requires Distinct(leftovers) && forall k | k in leftovers :: k !in FilterKeys(curr, w)
    ensures var d := CalculateDifferences(prev, curr, w, leftovers);
      var pk := FilterKeys(prev, w);
      var ck := FilterKeys(curr, w) + leftovers;
      && (forall k :: k in d.added <==> k in ck && k !in pk)
      && (forall k :: k in d.different <==> k in pk && k in ck && Get(curr, k) != Get(prev, k))
      && (forall k :: k in d.removed <==> k in pk && k !in ck && Get(curr, k) == Undef)
      && (forall k | k in d.added :: k !in d.different && k !in d.removed)
      && (forall k | k in d.different :: k !in d.removed)
      && (Changes(d) <==> exists k :: k in d.added || k in d.different || k in d.removed)
  {
    DistinctConcat(FilterKeys(curr, w), leftovers);
    DiffMembership(FilterKeys(prev, w), FilterKeys(curr, w) + leftovers, prev, curr);
  }

  /** A record diffed against itself, with no leftovers, reports nothing. */
  lemma DiffAgainstItself(p: Record, w: bool)
    requires NoNull(p)
    ensures CalculateDifferences(p, p, w, []) == Delta([], [], [])
  {
    assert FilterKeys(p, w) + [] == FilterKeys(p, w);
    DiffSelf(FilterKeys(p, w), p);
  }

  /** A selected previous key that is absent now is `removed`. */
  lemma AbsentIsRemoved(prev: Record, curr: Record, w: bool, k: string)
    requires NoNull(prev) && NoNull(curr)
    requires k in FilterKeys(prev, w) && k !in curr.vals
    ensures var d := CalculateDifferences(prev, curr, w, []);
      k in d.removed && k !in d.added && k !in d.different
  {
    assert FilterKeys(curr, w) + [] == FilterKeys(curr, w);
    DiffMembership(FilterKeys(prev, w), FilterKeys(curr, w), prev, curr);
  }

  /** A selected current key that was not selected before is `added`. */
  lemma NewIsAdded(prev: Record, curr: Record, w: bool, k: string)
    requires NoNull(prev) && NoNull(curr)
    requires k in FilterKeys(curr, w) && k !in FilterKeys(prev, w)
    ensures k in CalculateDifferences(prev, curr, w, []).added
  {
    assert FilterKeys(curr, w) + [] == FilterKeys(curr, w);
    DiffMembership(FilterKeys(prev, w), FilterKeys(curr, w), prev, curr);
  }

  /**
   A key that held an Observable or subscriber and now holds a defined plain
   value is in none of the lists of the Observable pass, so that pass neither
   cancels nor replaces its subscription.
   */
  lemma StreamTurnedPlainIsIgnored(prev: Record, curr: Record, k: string)
    requires NoNull(prev) && NoNull(curr)
    requires k in prev.vals && IsRxjsCompat(prev.vals[k])
    requires k in curr.vals && !IsRxjsCompat(curr.vals[k]) && curr.vals[k] != Undef
    ensures var d := CalculateDifferences(prev, curr, true, []);
      k !in d.added && k !in d.different && k !in d.removed
  {
    assert FilterKeys(curr, true) + [] == FilterKeys(curr, true);
    DiffMembership(FilterKeys(prev, true), FilterKeys(curr, true), prev, curr);
  }

  // ---------------------------------------------------------------------------
  // The state subject

  /** Every object the subject holds or the listener last let through was allocated below `nextRef`. */
  predicate RefsFresh(s: State)
  {
    && s.subject.obsValues.ref < s.nextRef
    && s.subject.basicProps.ref < s.nextRef
    && (s.lastEmitted.Some? ==>
          s.lastEmitted.value.obsValues.ref < s.nextRef && s.lastEmitted.value.basicProps.ref < s.nextRef)
  }

  /** The argument of `update`: the fields it names. */
  datatype Patch = Patch(obsValues: Option<Obj>, basicProps: Option<Obj>, prevProps: Option<Record>)

  /**
   `update(state)`: `stateSubject.next({...stateSubject.value, ...state})`. The
   named fields are replaced, the others keep their value, and the debounced
   listener, when subscribed, now has a value to emit.
   */
  function Update(s: State, patch: Patch): (r: State)
    ensures r.subject.obsValues == patch.obsValues.GetOr(s.subject.obsValues)
    ensures r.subject.basicProps == patch.basicProps.GetOr(s.subject.basicProps)
    ensures r.subject.prevProps == patch.prevProps.GetOr(s.subject.prevProps)
    ensures r.pending == (s.pending || s.listening)
    ensures r == s.(subject := r.subject, pending := r.pending)
  {
    var next := Snapshot(patch.obsValues.GetOr(s.subject.obsValues),
                         patch.basicProps.GetOr(s.subject.basicProps),
                         patch.prevProps.GetOr(s.subject.prevProps));
    s.(subject := next, pending := s.pending || s.listening)
  }

  /**
   `updateObservableValue({[key]: value})`: a fresh copy of `obsValues` in which
   only `key` changed.
   */
  function UpdateObservableValue(s: State, key: string, value: Value): (r: State)
    ensures r.subject.obsValues.fields == s.subject.obsValues.fields[key := value]
    ensures r.subject.obsValues.ref == s.nextRef && r.nextRef == s.nextRef + 1
    ensures r.subject.basicProps == s.subject.basicProps && r.subject.prevProps == s.subject.prevProps
    ensures r.pending == (s.pending || s.listening)
    ensures r == s.(subject := r.subject, pending := r.pending, nextRef := r.nextRef)
    ensures RefsFresh(s) ==> RefsFresh(r)
  {
    var obs := Obj(s.nextRef, s.subject.obsValues.fields[key := value]);
    Update(s.(nextRef := s.nextRef + 1), Patch(Some(obs), None, None))
  }

  // ---------------------------------------------------------------------------
  // The subscription ledger

  /** What `addPropSubscription` does with one key. */
  datatype Decision = Subscribe(sub: Sub) | Skip(warning: Option<Warning>)

  function Decide(prop: string, props: Record, ref: Instance): Decision
    requires NoNull(props)
  {
    var v := Get(props, prop);
    if v.Obs? then Subscribe(Sub(v.stream, Forward(prop)))
    else if ref.Some? && prop in ref.value then
      if IsSubscriberType(v) then
        if ref.value[prop].Obs? then Subscribe(Sub(ref.value[prop].stream, Attach(v)))
        else Skip(Some(NothingToSubscribeTo(prop)))
      else Skip(Some(NotSubscriberType(prop)))
    else Skip(None)
  }

  /**
   `addPropSubscription(prop, props)`. It subscribes exactly when the prop is an
   Observable (delivering into `obsValues[prop]`), or when the instance owns a
   member `prop` that is an Observable and the prop is a subscriber (which is
   then attached to it). In that case it records a fresh open subscription under
   `prop`, adds it to `this.subscriptions` and returns null; otherwise it returns
   `prop` as a leftover and leaves the ledger as it was.
   */
  function AddPropSubscription(s: State, prop: string, props: Record, ref: Instance): (r: (State, Option<string>))
    requires NoNull(props)
    ensures var v := Get(props, prop);
      r.1.None? <==> (v.Obs? || (ref.Some? && prop in ref.value && IsSubscriberType(v) && ref.value[prop].Obs?))
    ensures r.1.None? ==>
      && prop in r.0.ledger.entries && r.0.ledger.entries[prop] == s.ledger.next
      && s.ledger.next in r.0.ledger.live && s.ledger.next in r.0.composite
      && r.0.ledger.live[s.ledger.next].target == (if Get(props, prop).Obs? then Forward(prop) else Attach(Get(props, prop)))
    ensures Get(props, prop).Obs? ==> r.0.ledger.live[s.ledger.next] == Sub(Get(props, prop).stream, Forward(prop))
    ensures r.1.None? && !Get(props, prop).Obs? ==>
      && ref.Some? && prop in ref.value && ref.value[prop].Obs?
      && r.0.ledger.live[s.ledger.next] == Sub(ref.value[prop].stream, Attach(Get(props, prop)))
    ensures r.0.warnings == s.warnings +
      (if r.1.None? || ref.None? || prop !in ref.value then []
       else if IsSubscriberType(Get(props, prop)) then [NothingToSubscribeTo(prop)]
       else [NotSubscriberType(prop)])
    ensures r.1.Some? ==> r.1 == Some(prop) && r.0.ledger == s.ledger && r.0.composite == s.composite
    ensures r.0 == s.(ledger := r.0.ledger, composite := r.0.composite, warnings := r.0.warnings)
  {
    match Decide(prop, props, ref)
    case Subscribe(sub) =>
      (s.(ledger := Store(s.ledger, prop, sub), composite := s.composite + {s.ledger.next}), None)
    case Skip(w) =>
      (s.(warnings := s.warnings + (if w.Some? then [w.value] else [])), Some(prop))
  }

  /**
   `removePropSubscription(prop)`: with no entry for `prop` it only logs a
   warning; otherwise it unsubscribes that one subscription and deletes that one
   entry. Other entries are never touched.
   */
  function RemovePropSubscription(s: State, prop: string): (r: State)
    ensures prop !in s.ledger.entries ==> r == s.(warnings := s.warnings + [NoSubscriptionFound(prop)])
    ensures prop in s.ledger.entries ==>
      && r.ledger.entries == s.ledger.entries - {prop}
      && r.ledger.live == s.ledger.live - {s.ledger.entries[prop]}
      && r == s.(ledger := r.ledger)
  {
    if prop !in s.ledger.entries then s.(warnings := s.warnings + [NoSubscriptionFound(prop)])
    else s.(ledger := Cancel(s.ledger, prop))
  }

  /**
   `keys.forEach(prop => this.removePropSubscription(prop))`: afterwards no key
   of `keys` has an entry and the subscriptions they named are closed; other
   entries, and the subscriptions they name, are as before.
   */
  function RemoveEach(s: State, keys: seq<string>): (r: State)
    ensures r == s.(ledger := r.ledger, warnings := r.warnings)
    ensures r.ledger.next == s.ledger.next
    ensures forall k | k in keys :: k !in r.ledger.entries
    ensures forall k | k in keys && k in s.ledger.entries :: s.ledger.entries[k] !in r.ledger.live
    ensures forall k | k in r.ledger.entries :: k in s.ledger.entries && r.ledger.entries[k] == s.ledger.entries[k]
    ensures forall k | k in s.ledger.entries && k !in keys :: k in r.ledger.entries
    ensures forall id | id in r.ledger.live :: id in s.ledger.live && r.ledger.live[id] == s.ledger.live[id]
    ensures forall id | id in s.ledger.live && (forall k | k in keys && k in s.ledger.entries :: s.ledger.entries[k] != id) ::
      id in r.ledger.live
    ensures Valid(s.ledger) ==> Valid(r.ledger)
    ensures Valid(s.ledger) ==>
      forall k | k in s.ledger.entries && k !in keys && s.ledger.entries[k] in s.ledger.live ::
        s.ledger.entries[k] in r.ledger.live
    ensures WarnsOnlyAbout(s.warnings, r.warnings, Elems(keys))
    decreases |keys|
  {
    if keys == [] then s
    else
      var init := keys[..|keys| - 1];
      var last := keys[|keys| - 1];
      assert keys == init + [last];
      assert Elems(keys) == Elems(init) + {last};
      var s1 := RemoveEach(s, init);
      var r := RemovePropSubscription(s1, last);
      assert WarnsOnlyAbout(s1.warnings, r.warnings, {last}) by {
        if last !in s1.ledger.entries {
          assert r.warnings[..|s1.warnings|] == s1.warnings;
        }
      }
      WarnsOnlyAboutTrans(s.warnings, s1.warnings, r.warnings, Elems(init), {last});
      r
  }

  /**
   `keys.map(prop => this.addPropSubscription(prop, props)).filter(Boolean)`:
   nothing is unsubscribed, entries of keys outside `keys` stay, and every new
   subscription is fresh and in `this.subscriptions`. A declined key comes back
   as a leftover unless it is `""`, which `.filter(Boolean)` drops.
   */
  function AddEach(s: State, keys: seq<string>, props: Record, ref: Instance): (r: (State, seq<string>))
    requires NoNull(props)
    ensures r.0 == s.(ledger := r.0.ledger, composite := r.0.composite, warnings := r.0.warnings)
    ensures r.0.ledger.next >= s.ledger.next
    ensures forall k | k in s.ledger.entries && k !in keys :: k in r.0.ledger.entries && r.0.ledger.entries[k] == s.ledger.entries[k]
    ensures forall k | k in r.0.ledger.entries && k !in keys :: k in s.ledger.entries
    ensures forall id | id in r.0.ledger.live && id !in s.ledger.live :: id >= s.ledger.next && id in r.0.composite
    ensures s.composite <= r.0.composite
    ensures Valid(s.ledger) ==> Valid(r.0.ledger) && LiveGrows(s.ledger, r.0.ledger)
    ensures ref.None? ==> r.0.warnings == s.warnings
    decreases |keys|
  {
    if keys == [] then (s, [])
    else
      var init := keys[..|keys| - 1];
      var last := keys[|keys| - 1];
      assert keys == init + [last];
      var (s1, lo) := AddEach(s, init, props, ref);
      var (s2, o) := AddPropSubscription(s1, last, props, ref);
      (s2, lo + (if o.Some? && last != "" then [last] else []))
  }

  /** After `AddEach`, every key of `keys` holding an Observable names an open subscription to it. */
  lemma {:induction false} AddEachSubscribesObservables(s: State, keys: seq<string>, props: Record, ref: Instance)
    requires NoNull(props) && Valid(s.ledger)
    ensures var r := AddEach(s, keys, props, ref);
      forall k | k in keys && Get(props, k).Obs? ::
        && k in r.0.ledger.entries && r.0.ledger.entries[k] in r.0.ledger.live
        && r.0.ledger.live[r.0.ledger.entries[k]] == Sub(Get(props, k).stream, Forward(k))
    decreases |keys|
  {
    if keys != [] {
      var init := keys[..|keys| - 1];
      var last := keys[|keys| - 1];
      assert keys == init + [last];
      AddEachSubscribesObservables(s, init, props, ref);
      var s1 := AddEach(s, init, props, ref).0;
      var s2 := AddPropSubscription(s1, last, props, ref).0;
      assert AddEach(s, keys, props, ref).0 == s2;
      assert Valid(s1.ledger) && LiveGrows(s1.ledger, s2.ledger);
      forall k | k in keys && Get(props, k).Obs?
        ensures && k in s2.ledger.entries && s2.ledger.entries[k] in s2.ledger.live
                && s2.ledger.live[s2.ledger.entries[k]] == Sub(Get(props, k).stream, Forward(k))
      {
        if k != last {
          assert k in init;
        }
      }
    }
  }

  /** A key `addPropSubscription` declines keeps whatever entry it had, or none. */
  lemma {:induction false} AddEachSkips(s: State, keys: seq<string>, props: Record, ref: Instance)
    requires NoNull(props)
    ensures var r := AddEach(s, keys, props, ref);
      forall k | Decide(k, props, ref).Skip? ::
        (k in r.0.ledger.entries <==> k in s.ledger.entries)
        && (k in s.ledger.entries ==> r.0.ledger.entries[k] == s.ledger.entries[k])
    decreases |keys|
  {
    if keys != [] {
      var init := keys[..|keys| - 1];
      assert keys == init + [keys[|keys| - 1]];
      AddEachSkips(s, init, props, ref);
    }
  }

  /** The subscription an Observable key names after `AddEach` was opened by it. */
  lemma {:induction false} AddEachFresh(s: State, keys: seq<string>, props: Record, ref: Instance)
    requires NoNull(props)
    ensures var r := AddEach(s, keys, props, ref);
      forall k | k in keys && Get(props, k).Obs? :: k in r.0.ledger.entries && r.0.ledger.entries[k] >= s.ledger.next
    decreases |keys|
  {
    if keys != [] {
      var init := keys[..|keys| - 1];
      assert keys == init + [keys[|keys| - 1]];
      AddEachFresh(s, init, props, ref);
    }
  }

  /** The leftovers are exactly the keys `addPropSubscription` declined, other than `""`, each once. */
  lemma {:induction false} AddEachLeftovers(s: State, keys: seq<string>, props: Record, ref: Instance)
    requires NoNull(props)
    ensures var r := AddEach(s, keys, props, ref);
      && (forall k :: k in r.1 <==> k in keys && k != "" && Decide(k, props, ref).Skip?)
      && (Distinct(keys) ==> Distinct(r.1))
  {
    AddEachLeftoverKeys(s, keys, props, ref);
    if Distinct(keys) {
      AddEachLeftoversDistinct(s, keys, props, ref);
    }
  }

  /** One step of `AddEach`: the leftover list grows by the last key iff it is declined and not `""`. */
  lemma AddEachStep(s: State, keys: seq<string>, props: Record, ref: Instance)
    requires NoNull(props) && keys != []
    ensures var last := keys[|keys| - 1];
      var lo := AddEach(s, keys[..|keys| - 1], props, ref).1;
      AddEach(s, keys, props, ref).1 ==
        lo + (if Decide(last, props, ref).Skip? && last != "" then [last] else [])
  {
  }

  lemma {:induction false} AddEachLeftoverKeys(s: State, keys: seq<string>, props: Record, ref: Instance)
    requires NoNull(props)
    ensures forall k :: k in AddEach(s, keys, props, ref).1 <==> k in keys && k != "" && Decide(k, props, ref).Skip?
    decreases |keys|
  {
    if keys != [] {
      var init := keys[..|keys| - 1];
      assert keys == init + [keys[|keys| - 1]];
      AddEachLeftoverKeys(s, init, props, ref);
      AddEachStep(s, keys, props, ref);
    }
  }

  lemma {:induction false} AddEachLeftoversDistinct(s: State, keys: seq<string>, props: Record, ref: Instance)
    requires NoNull(props) && Distinct(keys)
    ensures Distinct(AddEach(s, keys, props, ref).1)
    decreases |keys|
  {
    if keys != [] {
      var init := keys[..|keys| - 1];
      var last := keys[|keys| - 1];
      forall i, j | 0 <= i < j < |init| ensures init[i] != init[j] {
        assert init[i] == keys[i] && init[j] == keys[j];
      }
      forall j | 0 <= j < |init| ensures init[j] != last {
        assert init[j] == keys[j];
      }
      AddEachLeftoversDistinct(s, init, props, ref);
      AddEachLeftoverKeys(s, init, props, ref);
      AddEachStep(s, keys, props, ref);
      var lo := AddEach(s, init, props, ref).1;
      DistinctConcat(lo, if Decide(last, props, ref).Skip? && last != "" then [last] else []);
    }
  }

  // ---------------------------------------------------------------------------
  // removeObservableKeys

  /** The `keys.forEach` loop of `removeObservableKeys` over a copy of `obsValues`. */
  function DeleteEach(fields: map<string, Value>, keys: seq<string>): (r: (map<string, Value>, bool, seq<Warning>))
    ensures r.0 == fields - Elems(keys)
    ensures r.1 <==> exists k :: k in keys && k in fields
    ensures forall w | w in r.2 :: w.NoObservableKey? && w.key in keys
    ensures Distinct(keys) ==> forall w | w in r.2 :: w.key !in fields
    ensures Distinct(keys) ==> forall k | k in keys && k !in fields :: NoObservableKey(k) in r.2
    decreases |keys|
  {
    if keys == [] then (fields, false, [])
    else
      var init := keys[..|keys| - 1];
      var k := keys[|keys| - 1];
      assert keys == init + [k];
      assert Elems(keys) == Elems(init) + {k};
      var (f, changed, ws) := DeleteEach(fields, init);
      assert Distinct(keys) ==> k !in init by {
        if Distinct(keys) {
          forall j | 0 <= j < |init| ensures init[j] != k {
            assert init[j] == keys[j];
          }
        }
      }
      assert Distinct(keys) ==> Distinct(init) by {
        if Distinct(keys) {
          forall i, j | 0 <= i < j < |init| ensures init[i] != init[j] {
            assert init[i] == keys[i] && init[j] == keys[j];
          }
        }
      }
      if k in f then (f - {k}, true, ws)
      else (f, changed, ws + [NoObservableKey(k)])
  }

  /**
   `removeObservableKeys(keys)`: `obsValues` loses exactly the requested keys it
   holds and keeps all others; it is replaced by a new object, and the state
   published, only if something was deleted. A missing key is a warning.
   */
  function RemoveObservableKeys(s: State, keys: seq<string>): (r: State)
    ensures r.subject.obsValues.fields == s.subject.obsValues.fields - Elems(keys)
    ensures r.subject.basicProps == s.subject.basicProps && r.subject.prevProps == s.subject.prevProps
    ensures (exists k :: k in keys && k in s.subject.obsValues.fields) ==>
      r.subject.obsValues.ref == s.nextRef && r.pending == (s.pending || s.listening)
    ensures !(exists k :: k in keys && k in s.subject.obsValues.fields) ==>
      r.subject == s.subject && r.pending == s.pending
    ensures r == s.(subject := r.subject, pending := r.pending, nextRef := r.nextRef, warnings := r.warnings)
    ensures r.nextRef >= s.nextRef
    ensures RefsFresh(s) ==> RefsFresh(r)
    ensures WarnsOnlyAbout(s.warnings, r.warnings, Elems(keys))
  {
    var (fields, changes, ws) := DeleteEach(s.subject.obsValues.fields, keys);
    var s1 := s.(warnings := s.warnings + ws);
    assert WarnsOnlyAbout(s.warnings, s1.warnings, Elems(keys)) by {
      assert s1.warnings[..|s.warnings|] == s.warnings;
      forall i | |s.warnings| <= i < |s1.warnings| ensures s1.warnings[i].key in Elems(keys) {
        assert s1.warnings[i] == ws[i - |s.warnings|];
      }
    }
    if changes then Update(s1.(nextRef := s.nextRef + 1), Patch(Some(Obj(s.nextRef, fields)), None, None))
    else s1
  }

  // ---------------------------------------------------------------------------
  // The two passes

  /**
   `updateObservableProps(prevProps, props)`: cancel every `different` and
   `removed` key, then subscribe every `added` and `different` key, then delete
   the `removed` keys from `obsValues`. Returns the leftovers.
   */
  function UpdateObservableProps(s: State, prev: Record, props: Record, ref: Instance): (r: (State, seq<string>))
    requires NoNull(prev) && NoNull(props)
    ensures forall k | k in r.1 :: k in props.vals && IsRxjsCompat(props.vals[k]) && !props.vals[k].Obs?
    ensures Distinct(r.1)
    ensures r.0.subject.basicProps == s.subject.basicProps && r.0.subject.prevProps == s.subject.prevProps
    ensures r.0.config == s.config && r.0.phase == s.phase && r.0.view == s.view
    ensures r.0.lastEmitted == s.lastEmitted && r.0.listening == s.listening && r.0.renders == s.renders
    ensures r.0.nextRef >= s.nextRef && (r.0.pending ==> s.pending || s.listening)
    ensures RefsFresh(s) ==> RefsFresh(r.0)
    ensures s.ledger.live.Keys <= s.composite ==> r.0.ledger.live.Keys <= r.0.composite
    ensures Valid(s.ledger) && FollowsObservables(prev, s.ledger) ==>
      Valid(r.0.ledger) && FollowsObservables(props, r.0.ledger)
    ensures r.0.subject.obsValues.fields ==
      s.subject.obsValues.fields - Elems(CalculateDifferences(prev, props, true, []).removed)
    ensures var d := CalculateDifferences(prev, props, true, []);
      ref.None? ==> WarnsOnlyAbout(s.warnings, r.0.warnings, Elems(d.different + d.removed))
  {
    var d := CalculateDifferences(prev, props, true, []);
    var s1 := RemoveEach(s, d.different + d.removed);
    var (s2, leftovers) := AddEach(s1, d.added + d.different, props, ref);
    ObservablePassFacts(s, prev, props, ref);
    var s3 := RemoveObservableKeys(s2, d.removed);
    if ref.None? then
      WarnsOnlyAboutTrans(s.warnings, s2.warnings, s3.warnings, Elems(d.different + d.removed), Elems(d.removed));
      assert Elems(d.different + d.removed) + Elems(d.removed) == Elems(d.different + d.removed);
      (s3, leftovers)
    else (s3, leftovers)
  }

  /** The reasoning behind the contract of `UpdateObservableProps`. */
  lemma ObservablePassFacts(s: State, prev: Record, props: Record, ref: Instance)
    requires NoNull(prev) && NoNull(props)
    ensures var d := CalculateDifferences(prev, props, true, []);
      var s1 := RemoveEach(s, d.different + d.removed);
      var r := AddEach(s1, d.added + d.different, props, ref);
      && (forall k | k in r.1 :: k in props.vals && IsRxjsCompat(props.vals[k]) && !props.vals[k].Obs?)
      && Distinct(r.1)
      && (s.ledger.live.Keys <= s.composite ==> r.0.ledger.live.Keys <= r.0.composite)
      && (Valid(s.ledger) && FollowsObservables(prev, s.ledger) ==>
            Valid(r.0.ledger) && FollowsObservables(props, r.0.ledger))
  {
    var d := CalculateDifferences(prev, props, true, []);
    var pk := FilterKeys(prev, true);
    var ck := FilterKeys(props, true);
    assert ck + [] == ck;
    DiffMembership(pk, ck, prev, props);
    var s1 := RemoveEach(s, d.different + d.removed);
    var adds := d.added + d.different;
    DistinctConcat(d.added, d.different);
    var r := AddEach(s1, adds, props, ref);
    AddEachLeftovers(s1, adds, props, ref);
    if Valid(s.ledger) && FollowsObservables(prev, s.ledger) {
      forall k | k in props.vals && props.vals[k].Obs?
        ensures && k in r.0.ledger.entries && r.0.ledger.entries[k] in r.0.ledger.live
                && r.0.ledger.live[r.0.ledger.entries[k]] == Sub(props.vals[k].stream, Forward(k))
      {
        AddEachSubscribesObservables(s1, adds, props, ref);
        assert k in ck;
        if k !in adds {
          assert k in pk && Get(props, k) == Get(prev, k);
          assert k !in d.different + d.removed;
        }
      }
    }
  }

  /** The leftovers are the `added` and `different` keys `addPropSubscription` declined. */
  lemma ObservablePassLeftovers(s: State, prev: Record, props: Record, ref: Instance)
    requires NoNull(prev) && NoNull(props)
    ensures var d := CalculateDifferences(prev, props, true, []);
      var r := UpdateObservableProps(s, prev, props, ref);
      forall k :: k in r.1 <==> (k in d.added || k in d.different) && k != "" && Decide(k, props, ref).Skip?
  {
    var d := CalculateDifferences(prev, props, true, []);
    var s1 := RemoveEach(s, d.different + d.removed);
    AddEachLeftovers(s1, d.added + d.different, props, ref);
  }

  /** A selected previous key that is absent now loses its entry, its subscription and its `obsValues` value. */
  lemma ObservablePassForgets(s: State, prev: Record, props: Record, ref: Instance, k: string)
    requires NoNull(prev) && NoNull(props) && Valid(s.ledger)
    requires k in prev.vals && IsRxjsCompat(prev.vals[k]) && k !in props.vals
    ensures var r := UpdateObservableProps(s, prev, props, ref).0;
      && k !in r.ledger.entries
      && (k in s.ledger.entries ==> s.ledger.entries[k] !in r.ledger.live)
      && k !in r.subject.obsValues.fields
  {
    var d := CalculateDifferences(prev, props, true, []);
    AbsentIsRemoved(prev, props, true, k);
    var s1 := RemoveEach(s, d.different + d.removed);
    var (s2, lo) := AddEach(s1, d.added + d.different, props, ref);
    assert k !in s1.ledger.entries;
    assert k !in s2.ledger.entries;
    if k in s.ledger.entries {
      var id := s.ledger.entries[k];
      assert id < s.ledger.next;
      assert id !in s1.ledger.live;
      assert id !in s2.ledger.live;
    }
    var r := RemoveObservableKeys(s2, d.removed);
    assert k in Elems(d.removed);
    assert r == UpdateObservableProps(s, prev, props, ref).0;
  }

  /**
   `updateOtherProps(prevProps, props, leftovers)`: with changes, `basicProps`
   is REPLACED by a new object holding exactly the `added` and `different` keys
   at their current values; without changes nothing happens.
   */
  function UpdateOtherProps(s: State, prev: Record, props: Record, leftovers: seq<string>): (r: State)
    requires NoNull(prev) && NoNull(props)
    ensures var d := CalculateDifferences(prev, props, false, leftovers);
      && (Changes(d) ==>
           && r.subject.basicProps == Obj(s.nextRef, Pick(d.added + d.different, props))
           && r == s.(subject := r.subject, nextRef := s.nextRef + 1, pending := s.pending || s.listening))
      && (!Changes(d) ==> r == s)
    ensures r.subject.obsValues == s.subject.obsValues && r.subject.prevProps == s.subject.prevProps
    ensures r.ledger == s.ledger
    ensures RefsFresh(s) ==> RefsFresh(r)
  {
    var d := CalculateDifferences(prev, props, false, leftovers);
    if Changes(d) then
      Update(s.(nextRef := s.nextRef + 1), Patch(None, Some(Obj(s.nextRef, Pick(d.added + d.different, props))), None))
    else s
  }

  /**
   What the plain pass leaves in `basicProps` when the leftovers come from the
   Observable pass: after a change, exactly the plain current keys and the
   leftovers that were not plain before or whose value is `!==` the previous
   one. A plain key whose value did not change is dropped from `basicProps`
   whenever some other plain key changed.
   */
  lemma PlainPassContents(s: State, prev: Record, props: Record, leftovers: seq<string>)
    requires NoNull(prev) && NoNull(props)
    requires Distinct(leftovers) && forall k | k in leftovers :: k in props.vals && IsRxjsCompat(props.vals[k])
    ensures var r := UpdateOtherProps(s, prev, props, leftovers);
      var pk := FilterKeys(prev, false);
      r != s ==>
        forall k :: k in r.subject.basicProps.fields <==>
          (k in FilterKeys(props, false) || k in leftovers) && (k !in pk || Get(props, k) != Get(prev, k))
  {
    assert forall k | k in leftovers :: k !in FilterKeys(props, false);
    DifferencesMeaning(prev, props, false, leftovers);
  }

  /**
   `detectChanges(props)`: remember `props` as `prevProps`, run the Observable
   pass against the previous props, then the plain pass with its leftovers.
   */
  function DetectChanges(s: State, props: Record, ref: Instance): (r: State)
    requires NoNull(s.subject.prevProps) && NoNull(props)
    ensures r.subject.prevProps == props
    ensures r.config == s.config && r.phase == s.phase && r.view == s.view
    ensures r.lastEmitted == s.lastEmitted && r.listening == s.listening && r.renders == s.renders
    ensures r.nextRef >= s.nextRef && (r.pending ==> s.pending || s.listening)
    ensures RefsFresh(s) ==> RefsFresh(r)
    ensures s.ledger.live.Keys <= s.composite ==> r.ledger.live.Keys <= r.composite
    ensures Valid(s.ledger) && FollowsObservables(s.subject.prevProps, s.ledger) ==>
      Valid(r.ledger) && FollowsObservables(props, r.ledger)
    ensures r.subject.obsValues.fields ==
      s.subject.obsValues.fields - Elems(CalculateDifferences(s.subject.prevProps, props, true, []).removed)
    ensures var d := CalculateDifferences(s.subject.prevProps, props, true, []);
      ref.None? ==> WarnsOnlyAbout(s.warnings, r.warnings, Elems(d.different + d.removed))
  {
    var prev := s.subject.prevProps;
    var s1 := Update(s, Patch(None, None, Some(props)));
    var (s2, leftovers) := UpdateObservableProps(s1, prev, props, ref);
    UpdateOtherProps(s2, prev, props, leftovers)
  }

  // ---------------------------------------------------------------------------
  // Lifecycle

  /** `subscribeToStaticProps(staticProps || {})`: each static Observable delivers into `obsValues`. */
  function SubscribeStatics(s: State, statics: seq<(string, StreamId)>): (r: State)
    ensures r == s.(ledger := r.ledger, composite := r.composite)
    ensures r.ledger.entries == s.ledger.entries && r.ledger.next == s.ledger.next + |statics|
    ensures forall id | id in r.ledger.live && id !in s.ledger.live :: id >= s.ledger.next && id in r.composite
    ensures s.composite <= r.composite
    ensures Valid(s.ledger) ==> Valid(r.ledger) && LiveGrows(s.ledger, r.ledger)
    ensures forall id | s.ledger.next <= id < r.ledger.next ::
      id in r.ledger.live && r.ledger.live[id] == Sub(statics[id - s.ledger.next].1, Forward(statics[id - s.ledger.next].0))
    decreases |statics|
  {
    if statics == [] then s
    else
      var init := statics[..|statics| - 1];
      var (key, stream) := statics[|statics| - 1];
      var s1 := SubscribeStatics(s, init);
      var r := s1.(ledger := Open(s1.ledger, Sub(stream, Forward(key))), composite := s1.composite + {s1.ledger.next});
      assert forall i | 0 <= i < |init| :: init[i] == statics[i];
      r
  }

  /**
   `componentDidMount`: listen to the state subject (whose current value it
   replays, so a first emission is pending), subscribe the static props, then
   reconcile the initial props.
   */
  function Mount(s: State, props: Record, ref: Instance): (r: State)
    requires NoNull(s.subject.prevProps) && NoNull(props)
    ensures r.phase == Mounted && r.listening && r.pending && r.subject.prevProps == props
    ensures r.view == s.view && r.renders == s.renders && r.lastEmitted == s.lastEmitted
  {
    var s1 := s.(listening := true, pending := true);
    var s2 := SubscribeStatics(s1, s.config.staticProps);
    DetectChanges(s2, props, ref).(phase := Mounted)
  }

  /**
   `componentWillUnmount`: `this.subscriptions.unsubscribe()` closes the state
   listener (dropping any pending emission), the static subscriptions and every
   prop subscription ever added. `propSubscriptions` itself is not cleared.
   */
  function Unmount(s: State): (r: State)
    ensures r.phase == Detached && !r.listening && !r.pending
    ensures r.ledger.entries == s.ledger.entries
    ensures r.ledger.live.Keys == s.ledger.live.Keys - s.composite
    ensures r.subject == s.subject && r.view == s.view && r.renders == s.renders
  {
    s.(phase := Detached, listening := false, pending := false, ledger := CloseAll(s.ledger, s.composite))
  }

  /**
   A value arriving on an open subscription: one delivering into the state
   overwrites only its own key of `obsValues`; one attached to a user observer
   leaves the component's state alone. A closed subscription delivers nothing.
   */
  function Deliver(s: State, id: SubId, value: Value): (r: State)
    ensures id in s.ledger.live && s.ledger.live[id].target.Forward? ==>
      r == UpdateObservableValue(s, s.ledger.live[id].target.key, value)
    ensures !(id in s.ledger.live && s.ledger.live[id].target.Forward?) ==> r == s
  {
    if id in s.ledger.live then
      match s.ledger.live[id].target
      case Forward(key) => UpdateObservableValue(s, key, value)
      case Attach(_) => s
    else s
  }

  /**
   The debounced emission reaching the listener: `distinctUntilChanged` drops
   it when both partitions are the very objects it last let through;
   otherwise `setState` copies them into the React state.
   */
  function Flush(s: State): (r: State)
    ensures !(s.listening && s.pending) ==> r == s
    ensures s.listening && s.pending ==> !r.pending
    ensures s.listening && s.pending && r.renders != s.renders ==>
      && r.view == View(s.subject.obsValues, s.subject.basicProps)
      && r.renders == s.renders + 1 && r.lastEmitted == Some(r.view)
    ensures r.renders == s.renders ==> r.view == s.view
    ensures s.listening && s.pending && s.lastEmitted.Some? ==>
      (r.renders == s.renders <==>
         s.lastEmitted.value.obsValues.ref == s.subject.obsValues.ref
         && s.lastEmitted.value.basicProps.ref == s.subject.basicProps.ref)
    ensures s.listening && s.pending && s.lastEmitted.None? ==> r.renders == s.renders + 1
    ensures r == s.(pending := r.pending, view := r.view, lastEmitted := r.lastEmitted, renders := r.renders)
  {
    if !(s.listening && s.pending) then s
    else
      var e := View(s.subject.obsValues, s.subject.basicProps);
      if s.lastEmitted.Some?
         && s.lastEmitted.value.basicProps.ref == e.basicProps.ref
         && s.lastEmitted.value.obsValues.ref == e.obsValues.ref
      then s.(pending := false)
      else s.(pending := false, view := e, lastEmitted := Some(e), renders := s.renders + 1)
  }

  /** The props `render` hands to the wrapped component: `{...basicProps, ...obsValues}`. */
  function Rendered(s: State): (r: map<string, Value>)
    ensures r.Keys == s.view.basicProps.fields.Keys + s.view.obsValues.fields.Keys
    ensures forall k | k in s.view.obsValues.fields :: r[k] == s.view.obsValues.fields[k]
    ensures forall k | k in s.view.basicProps.fields && k !in s.view.obsValues.fields ::
      r[k] == s.view.basicProps.fields[k]
  {
    Spread(s.view.basicProps.fields, s.view.obsValues.fields)
  }

  // ---------------------------------------------------------------------------
  // Events

  datatype Event =
    | MountEv(props: Record, ref: Instance)
    | UpdateEv(props: Record, ref: Instance)
    | UnmountEv
    | DeliverEv(id: SubId, value: Value)
    | FlushEv

  /** Props containing `null` make the component throw; the host never sends them here. */
  predicate Admissible(e: Event)
  {
    (e.MountEv? || e.UpdateEv?) ==> NoNull(e.props)
  }

  ghost predicate Inv(s: State)
  {
    && Valid(s.ledger)
    && RefsFresh(s)
    && NoNull(s.subject.prevProps)
    && s.ledger.live.Keys <= s.composite
    && (s.pending ==> s.listening)
    && (s.phase == Unmounted ==> s.subject.prevProps == Empty && !s.listening)
    && (s.phase == Mounted ==> s.listening && FollowsObservables(s.subject.prevProps, s.ledger))
    && (s.phase == Detached ==> !s.listening && s.ledger.live == map[])
  }

  /** One event. The host mounts once, updates while mounted, unmounts once. */
  function Step(s: State, e: Event): State
    requires Inv(s) && Admissible(e)
  {
    match e
    case MountEv(props, ref) => if s.phase == Unmounted then Mount(s, props, ref) else s
    case UpdateEv(props, ref) => if s.phase == Mounted then DetectChanges(s, props, ref) else s
    case UnmountEv => if s.phase == Mounted then Unmount(s) else s
    case DeliverEv(id, value) => Deliver(s, id, value)
    case FlushEv => Flush(s)
  }

  /**
   Every event keeps the invariant: ids stay fresh and unshared, every open
   subscription is tracked by `this.subscriptions`, and while mounted every
   Observable-valued prop has an open subscription to exactly that Observable.
   */
  lemma StepInv(s: State, e: Event)
    requires Inv(s) && Admissible(e)
    ensures Inv(Step(s, e))
  {
    match e
    case MountEv(props, ref) =>
      if s.phase == Unmounted {
        var s1 := s.(listening := true, pending := true);
        var s2 := SubscribeStatics(s1, s.config.staticProps);
        assert FollowsObservables(s2.subject.prevProps, s2.ledger);
      }
    case UpdateEv(props, ref) =>
    case UnmountEv =>
    case DeliverEv(id, value) =>
    case FlushEv =>
  }

  // ---------------------------------------------------------------------------
  // Runs of events

  function AllAdmissible(evs: seq<Event>): bool
  {
    forall i | 0 <= i < |evs| :: Admissible(evs[i])
  }

  /** A run of events; the invariant holds after every prefix. */
  function Run(s: State, evs: seq<Event>): (r: State)
    requires Inv(s) && AllAdmissible(evs)
    ensures Inv(r)
    decreases |evs|
  {
    if evs == [] then s
    else
      StepInv(s, evs[0]);
      Run(Step(s, evs[0]), evs[1..])
  }

  /**
   Unmounting leaves no subscription open, however many were: the state
   listener, the static ones and every prop subscription are all closed.
   */
  lemma UnmountClosesEverything(s: State)
    requires Inv(s) && s.phase == Mounted
    ensures var r := Step(s, UnmountEv);
      r.ledger.live == map[] && !r.listening && !r.pending && r.phase == Detached
  {
    var r := Step(s, UnmountEv);
    assert r.ledger.live.Keys == {};
  }

  /** After unmounting, no event changes anything: no delivery, no render. */
  lemma {:induction false} DetachedIsSilent(s: State, evs: seq<Event>)
    requires Inv(s) && s.phase == Detached && AllAdmissible(evs)
    ensures Run(s, evs) == s
    decreases |evs|
  {
    if evs != [] {
      assert Step(s, evs[0]) == s;
      DetachedIsSilent(s, evs[1..]);
    }
  }

  /**
   `defaultState` is the subject's initial `obsValues`, and mounting deletes
   nothing from it (no previous key can be removed), so the first render shows
   the default values.
   */
  lemma DefaultStateIsKept(cfg: Config, props: Record, ref: Instance)
    requires NoNull(props)
    ensures var u := Flush(Step(Init(cfg), MountEv(props, ref)));
      u.view.obsValues.fields == cfg.defaultState && u.renders == 1
  {
    var s := Init(cfg);
    var s1 := s.(listening := true, pending := true);
    var s2 := SubscribeStatics(s1, s.config.staticProps);
    var s3 := Update(s2, Patch(None, None, Some(props)));
    var d := CalculateDifferences(Empty, props, true, []);
    assert FilterKeys(Empty, true) == [];
    assert d.removed == [];
    assert UpdateObservableProps(s3, Empty, props, ref).0.subject.obsValues == s.subject.obsValues;
  }

  /** Without a flush nothing is rendered: lifecycle events and deliveries only change the pending value. */
  lemma {:induction false} NoRenderWithoutFlush(s: State, evs: seq<Event>)
    requires Inv(s) && AllAdmissible(evs)
    requires forall i | 0 <= i < |evs| :: !evs[i].FlushEv?
    ensures var t := Run(s, evs);
      t.view == s.view && t.renders == s.renders && t.lastEmitted == s.lastEmitted
    decreases |evs|
  {
    if evs != [] {
      StepInv(s, evs[0]);
      NoRenderWithoutFlush(Step(s, evs[0]), evs[1..]);
    }
  }

  /**
   Coalescing: any number of updates and deliveries in one turn, followed by
   the debounced flush, give at most one `setState`, which carries the last
   value of both partitions; a second flush does nothing.
   */
  lemma Coalescing(s: State, evs: seq<Event>)
    requires Inv(s) && AllAdmissible(evs)
    requires forall i | 0 <= i < |evs| :: !evs[i].FlushEv?
    ensures var t := Run(s, evs);
      var u := Flush(t);
      && u.renders <= s.renders + 1
      && (u.renders == s.renders + 1 ==> u.view == View(t.subject.obsValues, t.subject.basicProps))
      && (u.renders == s.renders ==> u.view == s.view)
      && Flush(u) == u
  {
    NoRenderWithoutFlush(s, evs);
  }

  /**
   A value delivered into the state while mounted reaches the rendered props at
   the next flush, under its key, and nothing else in `obsValues` changes.
   */
  lemma DeliveryIsRendered(s: State, id: SubId, v: Value)
    requires Inv(s) && s.phase == Mounted
    requires id in s.ledger.live && s.ledger.live[id].target.Forward?
    ensures var k := s.ledger.live[id].target.key;
      var u := Flush(Step(s, DeliverEv(id, v)));
      && u.renders == s.renders + 1
      && k in Rendered(u) && Rendered(u)[k] == v
      && u.view.obsValues.fields == s.subject.obsValues.fields[k := v]
      && u.view.basicProps == s.subject.basicProps
  {
  }

  /**
   The re-render that `setState` causes calls `componentDidUpdate` with the same
   props: that pass opens and closes nothing and writes no partition, so the
   flush after it is dropped by `distinctUntilChanged` and no render loop arises.
   */
  lemma SamePropsAreQuiet(s: State, ref: Instance)
    requires Inv(s) && s.phase == Mounted
    ensures var r := DetectChanges(s, s.subject.prevProps, ref);
      && r == s.(pending := true)
      && (s.lastEmitted == Some(View(s.subject.obsValues, s.subject.basicProps)) ==> Flush(r).renders == s.renders)
  {
    var props := s.subject.prevProps;
    DiffAgainstItself(props, true);
    DiffAgainstItself(props, false);
    var s1 := Update(s, Patch(None, None, Some(props)));
    assert s1 == s.(pending := true);
    assert s1.warnings + [] == s1.warnings;
  }

  /**
   Cancellation precedes re-subscription in the Observable pass: every
   `different` and `removed` key's subscription is closed before the first new
   one is opened, and none of them is open afterwards.
   */
  lemma CancelBeforeResubscribe(s: State, prev: Record, props: Record, ref: Instance)
    requires NoNull(prev) && NoNull(props) && Valid(s.ledger)
    ensures var d := CalculateDifferences(prev, props, true, []);
      var s1 := RemoveEach(s, d.different + d.removed);
      var r := UpdateObservableProps(s, prev, props, ref).0;
      && s1.ledger.next == s.ledger.next
      && (forall k | k in d.different + d.removed && k in s.ledger.entries ::
            s.ledger.entries[k] !in s1.ledger.live && s.ledger.entries[k] !in r.ledger.live)
      && (forall id | id in r.ledger.live && id !in s1.ledger.live :: id >= s.ledger.next)
  {
    var d := CalculateDifferences(prev, props, true, []);
    var s1 := RemoveEach(s, d.different + d.removed);
    var (s2, lo) := AddEach(s1, d.added + d.different, props, ref);
    forall k | k in d.different + d.removed && k in s.ledger.entries
      ensures s.ledger.entries[k] !in s2.ledger.live
    {
      assert s.ledger.entries[k] < s.ledger.next;
    }
  }

  /**
   The Observable pass only closes subscriptions that an entry of a previous
   Observable-or-subscriber key names; every other open subscription survives
   `detectChanges` unchanged.
   */
  lemma PassClosesOnlyPreviousStreamEntries(s: State, props: Record, ref: Instance, id: SubId)
    requires NoNull(s.subject.prevProps) && NoNull(props) && Valid(s.ledger)
    requires id in s.ledger.live
    requires forall k | k in s.ledger.entries && s.ledger.entries[k] == id :: k !in FilterKeys(s.subject.prevProps, true)
    ensures var r := DetectChanges(s, props, ref);
      id in r.ledger.live && r.ledger.live[id] == s.ledger.live[id]
  {
    var prev := s.subject.prevProps;
    var s0 := Update(s, Patch(None, None, Some(props)));
    var d := CalculateDifferences(prev, props, true, []);
    assert FilterKeys(props, true) + [] == FilterKeys(props, true);
    DiffMembership(FilterKeys(prev, true), FilterKeys(props, true), prev, props);
    var s1 := RemoveEach(s0, d.different + d.removed);
    assert id in s1.ledger.live;
  }

  /**
   A key that held an Observable or subscriber and now holds a defined plain
   value keeps its entry and its open subscription through `detectChanges`:
   values keep arriving in `obsValues` and override the plain prop.
   */
  lemma StreamTurnedPlainKeepsSubscription(s: State, props: Record, ref: Instance, k: string)
    requires NoNull(s.subject.prevProps) && NoNull(props) && Valid(s.ledger)
    requires k in s.subject.prevProps.vals && IsRxjsCompat(s.subject.prevProps.vals[k])
    requires k in props.vals && !IsRxjsCompat(props.vals[k]) && props.vals[k] != Undef
    requires k in s.ledger.entries && s.ledger.entries[k] in s.ledger.live
    ensures var r := DetectChanges(s, props, ref);
      && k in r.ledger.entries && r.ledger.entries[k] == s.ledger.entries[k]
      && s.ledger.entries[k] in r.ledger.live
      && r.ledger.live[s.ledger.entries[k]] == s.ledger.live[s.ledger.entries[k]]
  {
    var prev := s.subject.prevProps;
    StreamTurnedPlainIsIgnored(prev, props, k);
    var s0 := Update(s, Patch(None, None, Some(props)));
    var d := CalculateDifferences(prev, props, true, []);
    var s1 := RemoveEach(s0, d.different + d.removed);
    assert k in s1.ledger.entries && s1.ledger.entries[k] == s.ledger.entries[k];
  }

  /**
   A key that now holds an Observable and held nothing selected before gets a
   subscription opened by this very pass.
   */
  lemma NewStreamIsSubscribed(s: State, props: Record, ref: Instance, k: string)
    requires NoNull(s.subject.prevProps) && NoNull(props) && Valid(s.ledger)
    requires k in props.vals && props.vals[k].Obs? && k !in FilterKeys(s.subject.prevProps, true)
    ensures var r := DetectChanges(s, props, ref);
      && k in r.ledger.entries && r.ledger.entries[k] >= s.ledger.next
      && r.ledger.entries[k] in r.ledger.live
      && r.ledger.live[r.ledger.entries[k]] == Sub(props.vals[k].stream, Forward(k))
  {
    var prev := s.subject.prevProps;
    var s0 := Update(s, Patch(None, None, Some(props)));
    NewIsAdded(prev, props, true, k);
    var d := CalculateDifferences(prev, props, true, []);
    var s1 := RemoveEach(s0, d.different + d.removed);
    AddEachSubscribesObservables(s1, d.added + d.different, props, ref);
    AddEachFresh(s1, d.added + d.different, props, ref);
    var r := UpdateObservableProps(s0, prev, props, ref).0;
    assert r.ledger == AddEach(s1, d.added + d.different, props, ref).0.ledger;
  }

  /** A run starting with `e` is `e`'s step, then the rest of the run. */
  lemma RunCons(s: State, e: Event, evs: seq<Event>)
    requires Inv(s) && Admissible(e) && AllAdmissible(evs)
    ensures Inv(Step(s, e)) && AllAdmissible([e] + evs)
    ensures Run(s, [e] + evs) == Run(Step(s, e), evs)
  {
    StepInv(s, e);
    var l := [e] + evs;
    assert l[0] == e && l[1..] == evs;
  }

  /** A run of three events is the three steps in turn. */
  lemma RunThree(s: State, e0: Event, e1: Event, e2: Event)
    requires Inv(s) && Admissible(e0) && Admissible(e1) && Admissible(e2)
    ensures && Inv(Step(s, e0)) && Inv(Step(Step(s, e0), e1))
            && AllAdmissible([e0, e1, e2])
            && Run(s, [e0, e1, e2]) == Step(Step(Step(s, e0), e1), e2)
  {
    StepInv(s, e0);
    var s1 := Step(s, e0);
    StepInv(s1, e1);
    var s2 := Step(s1, e1);
    StepInv(s2, e2);
    RunCons(s2, e2, []);
    RunCons(s1, e1, [e2]);
    RunCons(s, e0, [e1, e2]);
    assert [e2] + [] == [e2] && [e1] + [e2] == [e1, e2] && [e0] + [e1, e2] == [e0, e1, e2];
  }

  /** Mounting with an Observable prop subscribes to it. */
  lemma MountSubscribes(s: State, p: Record, ref: Instance, k: string)
    requires Inv(s) && s.phase == Unmounted && NoNull(p)
    requires k in p.vals && p.vals[k].Obs?
    ensures var r := Step(s, MountEv(p, ref));
      && Inv(r) && r.phase == Mounted && r.subject.prevProps == p
      && k in r.ledger.entries && r.ledger.entries[k] in r.ledger.live
      && r.ledger.live[r.ledger.entries[k]] == Sub(p.vals[k].stream, Forward(k))
  {
    StepInv(s, MountEv(p, ref));
  }

  /** An update while mounted is `detectChanges`. */
  lemma UpdateIsDetectChanges(s: State, p: Record, ref: Instance)
    requires Inv(s) && s.phase == Mounted && NoNull(p)
    ensures var r := Step(s, UpdateEv(p, ref));
      && r == DetectChanges(s, p, ref)
      && Inv(r) && r.phase == Mounted && r.subject.prevProps == p
  {
    StepInv(s, UpdateEv(p, ref));
  }

  /**
   Stream, then defined plain value, then a stream again under the same key leaves TWO
   open subscriptions delivering into that key: the one the plain value never
   cancelled, and the new one.
   */
  lemma DoubleSubscription(s0: State, p1: Record, p2: Record, p3: Record, r1: Instance, r2: Instance, r3: Instance, k: string)
    requires Inv(s0) && s0.phase == Unmounted && NoNull(p1) && NoNull(p2) && NoNull(p3)
    requires k in p1.vals && p1.vals[k].Obs?
    requires k in p2.vals && p2.vals[k] != Undef && !IsRxjsCompat(p2.vals[k])
    requires k in p3.vals && p3.vals[k].Obs?
    ensures var s3 := Run(s0, [MountEv(p1, r1), UpdateEv(p2, r2), UpdateEv(p3, r3)]);
      exists a, b | a in s3.ledger.live && b in s3.ledger.live ::
        && a != b
        && s3.ledger.live[a] == Sub(p1.vals[k].stream, Forward(k))
        && s3.ledger.live[b] == Sub(p3.vals[k].stream, Forward(k))
  {
    MountSubscribes(s0, p1, r1, k);
    var s1 := Step(s0, MountEv(p1, r1));
    var a: SubId := s1.ledger.entries[k];
    UpdateIsDetectChanges(s1, p2, r2);
    var s2 := Step(s1, UpdateEv(p2, r2));
    StreamTurnedPlainKeepsSubscription(s1, p2, r2, k);
    UpdateIsDetectChanges(s2, p3, r3);
    var s3 := Step(s2, UpdateEv(p3, r3));
    assert k !in FilterKeys(p2, true);
    PassClosesOnlyPreviousStreamEntries(s2, p3, r3, a);
    NewStreamIsSubscribed(s2, p3, r3, k);
    var b: SubId := s3.ledger.entries[k];
    assert a < s2.ledger.next <= b;
    RunThree(s0, MountEv(p1, r1), UpdateEv(p2, r2), UpdateEv(p3, r3));
  }

  /**
   A key that held an Observable or subscriber and is gone from the new props
   loses its entry, its subscription and its `obsValues` value.
   */
  lemma RemovedKeyIsForgotten(s: State, props: Record, ref: Instance, k: string)
    requires NoNull(s.subject.prevProps) && NoNull(props) && Valid(s.ledger)
    requires k in s.subject.prevProps.vals && IsRxjsCompat(s.subject.prevProps.vals[k])
    requires k !in props.vals
    ensures var r := DetectChanges(s, props, ref);
      && k !in r.ledger.entries
      && (k in s.ledger.entries ==> s.ledger.entries[k] !in r.ledger.live)
      && k !in r.subject.obsValues.fields
  {
    var s1 := Update(s, Patch(None, None, Some(props)));
    ObservablePassForgets(s1, s.subject.prevProps, props, ref, k);
  }

  /**
   A function prop with no counterpart on the instance is neither subscribed
   nor warned about: it comes back as a leftover and the plain pass passes it
   to the wrapped component as an ordinary prop. Under the key `""` the
   leftover is dropped by `.filter(Boolean)`, so the function never reaches
   `basicProps` and an old value there stays as it was.
   */
  lemma UnconnectedFunctionIsPassedThrough(s: State, props: Record, k: string, n: nat)
    requires NoNull(s.subject.prevProps) && NoNull(props)
    requires k in props.vals && props.vals[k] == Fn(n)
    requires !IsRxjsCompat(Get(s.subject.prevProps, k))
    requires k !in s.ledger.entries
    ensures var r := DetectChanges(s, props, None);
      && (k != "" ==> k in r.subject.basicProps.fields && r.subject.basicProps.fields[k] == Fn(n))
      && (k == "" && k in r.subject.basicProps.fields ==>
            k in s.subject.basicProps.fields && r.subject.basicProps.fields[k] == s.subject.basicProps.fields[k])
      && k !in r.ledger.entries
      && |s.warnings| <= |r.warnings| && r.warnings[..|s.warnings|] == s.warnings
      && forall i | |s.warnings| <= i < |r.warnings| :: r.warnings[i].key != k
  {
    UnconnectedFunctionIsQuiet(s, props, k);
    UnconnectedFunctionReachesPlainPass(s, props, k, n);
  }

  /**
   A function prop replaced by another function, with no instance, is
   `different`: `removePropSubscription` finds no entry for it and logs "no
   subscription found" for it.
   */
  lemma ReplacedFunctionWarns(s: State, props: Record, k: string)
    requires NoNull(s.subject.prevProps) && NoNull(props)
    requires k in s.subject.prevProps.vals && s.subject.prevProps.vals[k].Fn?
    requires k in props.vals && props.vals[k].Fn? && props.vals[k] != s.subject.prevProps.vals[k]
    requires k !in s.ledger.entries
    ensures NoSubscriptionFound(k) in DetectChanges(s, props, None).warnings
  {
    var prev := s.subject.prevProps;
    var d := CalculateDifferences(prev, props, true, []);
    assert k in d.different by {
      DifferencesMeaning(prev, props, true, []);
    }
    var s1 := Update(s, Patch(None, None, Some(props)));
    var t1 := RemoveEach(s1, d.different + d.removed);
    assert NoSubscriptionFound(k) in t1.warnings by {
      RemoveEachWarnsMissing(s1, d.different + d.removed, k);
    }
    var s2 := AddEach(t1, d.added + d.different, props, None).0;
    var s3 := RemoveObservableKeys(s2, d.removed);
    assert NoSubscriptionFound(k) in s3.warnings by {
      assert s3.warnings[..|s2.warnings|] == s2.warnings;
      assert NoSubscriptionFound(k) in s3.warnings[..|s2.warnings|];
    }
    assert UpdateObservableProps(s1, prev, props, None).0 == s3;
  }

  /** `removePropSubscription` on a listed key with no entry logs "no subscription found" for it. */
  lemma {:induction false} RemoveEachWarnsMissing(s: State, keys: seq<string>, k: string)
    requires k in keys && k !in s.ledger.entries
    ensures NoSubscriptionFound(k) in RemoveEach(s, keys).warnings
    decreases |keys|
  {
    var init := keys[..|keys| - 1];
    var last := keys[|keys| - 1];
    assert keys == init + [last];
    var s1 := RemoveEach(s, init);
    if last != k {
      assert k in init;
      RemoveEachWarnsMissing(s, init, k);
    }
  }

  /** The warnings half: only `different` or `removed` keys are warned about, and `k` is neither. */
  lemma UnconnectedFunctionIsQuiet(s: State, props: Record, k: string)
    requires NoNull(s.subject.prevProps) && NoNull(props)
    requires !IsRxjsCompat(Get(s.subject.prevProps, k))
    ensures var r := DetectChanges(s, props, None);
      && |s.warnings| <= |r.warnings| && r.warnings[..|s.warnings|] == s.warnings
      && forall i | |s.warnings| <= i < |r.warnings| :: r.warnings[i].key != k
  {
    var d := CalculateDifferences(s.subject.prevProps, props, true, []);
    assert k !in Elems(d.different + d.removed) by {
      DifferencesMeaning(s.subject.prevProps, props, true, []);
    }
  }

  /** The props half: the function gets no entry and reaches `basicProps` unless its key is `""`. */
  lemma UnconnectedFunctionReachesPlainPass(s: State, props: Record, k: string, n: nat)
    requires NoNull(s.subject.prevProps) && NoNull(props)
    requires k in props.vals && props.vals[k] == Fn(n)
    requires !IsRxjsCompat(Get(s.subject.prevProps, k))
    requires k !in s.ledger.entries
    ensures var r := DetectChanges(s, props, None);
      && (k != "" ==> k in r.subject.basicProps.fields && r.subject.basicProps.fields[k] == Fn(n))
      && (k == "" && k in r.subject.basicProps.fields ==>
            k in s.subject.basicProps.fields && r.subject.basicProps.fields[k] == s.subject.basicProps.fields[k])
      && k !in r.ledger.entries
  {
    var prev := s.subject.prevProps;
    var s1 := Update(s, Patch(None, None, Some(props)));
    var (s2, lo) := UpdateObservableProps(s1, prev, props, None);
    var r := UpdateOtherProps(s2, prev, props, lo);
    assert r == DetectChanges(s, props, None);
    assert (k in lo <==> k != "") && k !in s2.ledger.entries by {
      UnconnectedFunctionIsLeftover(s1, prev, props, k);
    }
    assert s2.subject.basicProps == s.subject.basicProps;
    if k != "" {
      LeftoversArePassedOn(s2, prev, props, lo, k);
    } else {
      StreamKeyIsNotPassedOn(s2, prev, props, lo, k);
    }
  }

  /** The Observable-pass half: the function prop is declined, so it has no entry, and it is a leftover unless its key is `""`. */
  lemma UnconnectedFunctionIsLeftover(s: State, prev: Record, props: Record, k: string)
    requires NoNull(prev) && NoNull(props)
    requires k in props.vals && props.vals[k].Fn?
    requires !IsRxjsCompat(Get(prev, k)) && k !in s.ledger.entries
    ensures var r := UpdateObservableProps(s, prev, props, None);
      (k in r.1 <==> k != "") && k !in r.0.ledger.entries
  {
    var d := CalculateDifferences(prev, props, true, []);
    var r := UpdateObservableProps(s, prev, props, None);
    assert k in d.added by {
      NewIsAdded(prev, props, true, k);
    }
    assert Decide(k, props, None).Skip?;
    assert k in r.1 <==> k != "" by {
      ObservablePassLeftovers(s, prev, props, None);
    }
    assert k !in r.0.ledger.entries by {
      var t1 := RemoveEach(s, d.different + d.removed);
      AddEachSkips(t1, d.added + d.different, props, None);
    }
  }

  /** A stream-class key that is not a leftover never enters `basicProps`; an old value there is kept. */
  lemma StreamKeyIsNotPassedOn(s: State, prev: Record, props: Record, leftovers: seq<string>, k: string)
    requires NoNull(prev) && NoNull(props)
    requires Distinct(leftovers) && forall j | j in leftovers :: j in props.vals && IsRxjsCompat(props.vals[j])
    requires k in props.vals && IsRxjsCompat(props.vals[k]) && k !in leftovers
    ensures var r := UpdateOtherProps(s, prev, props, leftovers);
      k in r.subject.basicProps.fields ==>
        k in s.subject.basicProps.fields && r.subject.basicProps.fields[k] == s.subject.basicProps.fields[k]
  {
    PlainPassContents(s, prev, props, leftovers);
  }

  /**
   Every leftover of the Observable pass ends up in `basicProps` at its
   current value: it was not a plain key before, or its value changed.
   */
  lemma LeftoversArePassedOn(s: State, prev: Record, props: Record, leftovers: seq<string>, k: string)
    requires NoNull(prev) && NoNull(props)
    requires Distinct(leftovers) && forall j | j in leftovers :: j in props.vals && IsRxjsCompat(props.vals[j])
    requires k in leftovers
    ensures var r := UpdateOtherProps(s, prev, props, leftovers);
      k in r.subject.basicProps.fields && r.subject.basicProps.fields[k] == props.vals[k]
  {
    assert forall j | j in leftovers :: j !in FilterKeys(props, false);
    DifferencesMeaning(prev, props, false, leftovers);
    var dp := CalculateDifferences(prev, props, false, leftovers);
    assert k in dp.added || k in dp.different;
    assert Changes(dp);
    assert k in Elems(dp.added + dp.different);
  }
}
