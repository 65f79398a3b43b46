/**
 The reconciliation engine of `src/rx-component.tsx`: the component class
 returned by that file's `ReactiveXComponent(staticProps, defaultState)(Wrapped)`. It differs from
 `ReactiveX` in its classification (only Observables and functions are
 stream-class), in having no leftovers and no warnings, in never deleting
 stream values, and in keeping prop subscriptions out of the subscription it
 closes at unmount.
 */
module RxComponent {
  import opened Wrappers
  import opened JsValues
  import opened Differences
  import opened Subscriptions

  datatype Phase = Unmounted | Mounted | Detached

  /** The value `stateSubject` holds: `{data, props, prevProps}`. */
  datatype Snapshot = Snapshot(data: Obj, props: Obj, prevProps: Record)

  /** The React state `this.state`: `{data, props}`. */
  datatype View = View(data: Obj, props: Obj)

  /** The arguments of `ReactiveXComponent(staticProps, defaultState)`, in key order. */
  datatype Config = Config(staticProps: seq<(string, StreamId)>, defaultState: map<string, Value>)

  /** `this.reference.current`: the wrapped instance's own members by name, or null. */
  type Instance = Option<map<string, Value>>

  datatype State = State(
    config: Config,
    phase: Phase,
    subject: Snapshot,          // stateSubject.value
    view: View,                 // this.state
    lastEmitted: Option<View>,  // what distinctUntilChanged last let through
    pending: bool,              // debounceTime(0) holds a value to emit
    listening: bool,            // the listenToStateUpdates subscription is open
    ledger: Ledger,             // propSubscriptions and the open subscriptions
    statics: set<SubId>,        // staticSubscriptions, apart from the listener
    nextRef: nat,               // next fresh object identity
    renders: nat)               // number of setState calls so far

  // ---------------------------------------------------------------------------
  // Classification

  /**
   `isSubscribable`: a function, or a (truthy) object owning a function-valued
   `next`, `complete` or `error`. `null` is falsy, so it is not.
   */
  predicate IsSubscribable(v: Value)
  {
    v.Fn? || (v.Observer? && (v.next || v.complete || v.error))
  }

  /** The test inside `filterKeys`: an Observable or a function. Observer objects are plain here. */
  predicate IsRxjsCompat(v: Value)
  {
    v.Obs? || v.Fn?
  }

  /** `Object.keys(obj).filter(this.filterKeys(obj, isObservable))`. */
  function FilterKeys(p: Record, isObservable: bool): (r: seq<string>)
    ensures forall k :: k in r <==> k in p.keys && IsRxjsCompat(Get(p, k)) == isObservable
    ensures Distinct(r)
  {
    DistinctKeep(p.keys, set k | k in p.vals && IsRxjsCompat(p.vals[k]) == isObservable);
    Keep(p.keys, set k | k in p.vals && IsRxjsCompat(p.vals[k]) == isObservable)
  }

  /** `calculateDifferences(prevProps, currProps, withRxjsItems)`. */
  function CalculateDifferences(prev: Record, curr: Record, withRxjsItems: bool): Delta
  {
    Scan(FilterKeys(prev, withRxjsItems), FilterKeys(curr, withRxjsItems), prev, curr)
  }

  /**
   What `calculateDifferences` reports: `added` are the selected current keys
   that were not selected before, `different` the keys selected in both whose
   values are `!==`, `removed` the previously selected keys that are not
   selected now and read `undefined`; the lists are pairwise disjoint and
   `changes` holds iff some list is non-empty.
   */
  lemma DifferencesMeaning(prev: Record, curr: Record, w: bool)
    ensures var d := CalculateDifferences(prev, curr, w);
      var pk := FilterKeys(prev, w);
      var ck := FilterKeys(curr, w);
      && (forall k :: k in d.added <==> k in ck && k !in pk)
      && (forall k :: k in d.different <==> k in pk && k in ck && Get(curr, k) != Get(prev, k))
      && (forall k :: k in d.removed <==> k in pk && k !in ck && Get(curr, k) == Undef)
      && (forall k | k in d.added :: k !in d.different && k !in d.removed)
      && (forall k | k in d.different :: k !in d.removed)
      && (Changes(d) <==> exists k :: k in d.added || k in d.different || k in d.removed)
  {
    DiffMembership(FilterKeys(prev, w), FilterKeys(curr, w), prev, curr);
  }

  /** A record diffed against itself reports nothing. */
  lemma DiffAgainstItself(p: Record, w: bool)
    ensures CalculateDifferences(p, p, w) == Delta([], [], [])
  {
    DiffSelf(FilterKeys(p, w), p);
  }

  /**
   An observer object, even one `isSubscribable` accepts, is never in the
   stream pass; it is in the plain pass's `added` or `different` exactly when
   it is not the very value the key held as a plain prop before.
   */
  lemma ObserverGoesToPlainPass(prev: Record, curr: Record, k: string)
    requires k in curr.vals && curr.vals[k].Observer?
    ensures var ds := CalculateDifferences(prev, curr, true);
      k !in ds.added && k !in ds.different && k !in ds.removed
    ensures var dp := CalculateDifferences(prev, curr, false);
      (k in dp.added || k in dp.different) <==> (k !in FilterKeys(prev, false) || Get(prev, k) != curr.vals[k])
  {
    DifferencesMeaning(prev, curr, true);
    DifferencesMeaning(prev, curr, false);
  }

  // ---------------------------------------------------------------------------
  // The state subject

  /** Every object the subject holds or the listener last let through was allocated below `nextRef`. */
  predicate RefsFresh(s: State)
  {
    && s.subject.data.ref < s.nextRef
    && s.subject.props.ref < s.nextRef
    && (s.lastEmitted.Some? ==>
          s.lastEmitted.value.data.ref < s.nextRef && s.lastEmitted.value.props.ref < s.nextRef)
  }

  /** The argument of `update`: the fields it names. */
  datatype Patch = Patch(data: Option<Obj>, props: Option<Obj>, prevProps: Option<Record>)

  /**
   `update(state)`: `stateSubject.next({...stateSubject.value, ...state})`. The
   named fields are replaced, the others keep their value, and the debounced
   listener, when subscribed, now has a value to emit.
   */
  function Update(s: State, patch: Patch): (r: State)
    ensures r.subject.data == patch.data.GetOr(s.subject.data)
    ensures r.subject.props == patch.props.GetOr(s.subject.props)
    ensures r.subject.prevProps == patch.prevProps.GetOr(s.subject.prevProps)
    ensures r.pending == (s.pending || s.listening)
    ensures r == s.(subject := r.subject, pending := r.pending)
  {
    var next := Snapshot(patch.data.GetOr(s.subject.data),
                         patch.props.GetOr(s.subject.props),
                         patch.prevProps.GetOr(s.subject.prevProps));
    s.(subject := next, pending := s.pending || s.listening)
  }

  /**
   The delivery callback of a prop or static subscription:
   `update({data: {...stateSubject.value.data, [key]: value}})`, a fresh copy
   of `data` in which only `key` changed.
   */
  function UpdateData(s: State, key: string, value: Value): (r: State)
    ensures r.subject.data.fields == s.subject.data.fields[key := value]
    ensures r.subject.data.ref == s.nextRef && r.nextRef == s.nextRef + 1
    ensures r.subject.props == s.subject.props && r.subject.prevProps == s.subject.prevProps
    ensures r.pending == (s.pending || s.listening)
    ensures r == s.(subject := r.subject, pending := r.pending, nextRef := r.nextRef)
    ensures RefsFresh(s) ==> RefsFresh(r)
  {
    var data := Obj(s.nextRef, s.subject.data.fields[key := value]);
    Update(s.(nextRef := s.nextRef + 1), Patch(Some(data), None, None))
  }

  // ---------------------------------------------------------------------------
  // The subscription ledger

  /** Every entry of `propSubscriptions` names an open subscription. */
  ghost predicate EntriesOpen(l: Ledger)
  {
    forall k | k in l.entries :: l.entries[k] in l.live
  }

  /** The static subscriptions are allocated ids and no entry of `propSubscriptions` names one. */
  ghost predicate StaticsApart(s: State)
  {
    && (forall id | id in s.statics :: id < s.ledger.next)
    && (forall k | k in s.ledger.entries :: s.ledger.entries[k] !in s.statics)
  }

  /** The subscription `addPropSubscription` makes for a key, if any. */
  function PropSubscription(prop: string, props: Record, ref: Instance): Option<Sub>
  {
    var v := Get(props, prop);
    if v.Obs? then Some(Sub(v.stream, Forward(prop)))
    else if IsSubscribable(v) && ref.Some? && prop in ref.value && ref.value[prop].Obs? then
      Some(Sub(ref.value[prop].stream, Attach(v)))
    else None
  }

  /**
   `addPropSubscription(prop, props)`. It subscribes in exactly two cases: the
   prop is an Observable (delivering into `data[prop]`), or the prop is
   subscribable and the instance owns an Observable member `prop` (to which the
   prop is attached). The new subscription is recorded under `prop`, replacing
   any earlier entry without closing it; otherwise nothing changes.
   */
  function AddPropSubscription(s: State, prop: string, props: Record, ref: Instance): (r: State)
    ensures var v := Get(props, prop);
      PropSubscription(prop, props, ref).Some? <==>
        (v.Obs? || (IsSubscribable(v) && ref.Some? && prop in ref.value && ref.value[prop].Obs?))
    ensures PropSubscription(prop, props, ref).None? ==> r == s
    ensures PropSubscription(prop, props, ref).Some? ==>
      && prop in r.ledger.entries && r.ledger.entries[prop] == s.ledger.next
      && s.ledger.next in r.ledger.live && r.ledger.live[s.ledger.next] == PropSubscription(prop, props, ref).value
      && r.ledger.live.Keys == s.ledger.live.Keys + {s.ledger.next}
    ensures Get(props, prop).Obs? ==> r.ledger.live[s.ledger.next] == Sub(Get(props, prop).stream, Forward(prop))
    ensures r == s.(ledger := r.ledger)
  {
    match PropSubscription(prop, props, ref)
    case Some(sub) => s.(ledger := Store(s.ledger, prop, sub))
    case None => s
  }

  /**
   `removePropSubscription(prop)`: silent on a key with no entry; otherwise
   the subscription is closed and only that entry deleted.
   */
  function RemovePropSubscription(s: State, prop: string): (r: State)
    ensures prop !in r.ledger.entries
    ensures prop !in s.ledger.entries ==> r == s
    ensures prop in s.ledger.entries ==>
      && r.ledger.entries == s.ledger.entries - {prop}
      && r.ledger.live == s.ledger.live - {s.ledger.entries[prop]}
      && r.ledger.next == s.ledger.next
    ensures r == s.(ledger := r.ledger)
  {
    s.(ledger := Cancel(s.ledger, prop))
  }

  /**
   `keys.forEach(prop => this.removePropSubscription(prop))`: afterwards no key
   of `keys` has an entry and the subscriptions they named are closed; other
   entries, and the subscriptions they name, are as before.
   */
  function RemoveEach(s: State, keys: seq<string>): (r: State)
    ensures r == s.(ledger := r.ledger)
    ensures r.ledger.next == s.ledger.next
    ensures forall k | k in keys :: k !in r.ledger.entries
    ensures forall k | k in keys && k in s.ledger.entries :: s.ledger.entries[k] !in r.ledger.live
    ensures forall k | k in r.ledger.entries :: k in s.ledger.entries && r.ledger.entries[k] == s.ledger.entries[k]
    ensures forall k | k in s.ledger.entries && k !in keys :: k in r.ledger.entries
    ensures forall id | id in r.ledger.live :: id in s.ledger.live && r.ledger.live[id] == s.ledger.live[id]
    ensures forall id | id in s.ledger.live && (forall k | k in keys && k in s.ledger.entries :: s.ledger.entries[k] != id) ::
      id in r.ledger.live
    ensures Valid(s.ledger) ==> Valid(r.ledger)
    ensures Valid(s.ledger) && EntriesOpen(s.ledger) ==> EntriesOpen(r.ledger)
    decreases |keys|
  {
    if keys == [] then s
    else
      var init := keys[..|keys| - 1];
      assert keys == init + [keys[|keys| - 1]];
      RemovePropSubscription(RemoveEach(s, init), keys[|keys| - 1])
  }

  /**
   `keys.forEach(prop => this.addPropSubscription(prop, props))`: nothing is
   closed, entries of keys outside `keys` stay, and every new entry and open
   subscription is fresh.
   */
  function AddEach(s: State, keys: seq<string>, props: Record, ref: Instance): (r: State)
    ensures r == s.(ledger := r.ledger)
    ensures r.ledger.next >= s.ledger.next
    ensures forall k | k in s.ledger.entries && k !in keys :: k in r.ledger.entries && r.ledger.entries[k] == s.ledger.entries[k]
    ensures forall k | k in r.ledger.entries ::
      (k in s.ledger.entries && r.ledger.entries[k] == s.ledger.entries[k]) || r.ledger.entries[k] >= s.ledger.next
    ensures forall k | k in r.ledger.entries && k !in keys :: k in s.ledger.entries
    ensures forall id | id in r.ledger.live && id !in s.ledger.live :: id >= s.ledger.next
    ensures Valid(s.ledger) ==> Valid(r.ledger) && LiveGrows(s.ledger, r.ledger)
    ensures Valid(s.ledger) && EntriesOpen(s.ledger) ==> EntriesOpen(r.ledger)
    decreases |keys|
  {
    if keys == [] then s
    else
      var init := keys[..|keys| - 1];
      var last := keys[|keys| - 1];
      assert keys == init + [last];
      AddPropSubscription(AddEach(s, init, props, ref), last, props, ref)
  }

  /** After `AddEach`, every key of `keys` holding an Observable names an open subscription to it. */
  lemma {:induction false} AddEachSubscribesObservables(s: State, keys: seq<string>, props: Record, ref: Instance)
    requires Valid(s.ledger)
    ensures var r := AddEach(s, keys, props, ref);
      forall k | k in keys && Get(props, k).Obs? ::
        && k in r.ledger.entries && r.ledger.entries[k] in r.ledger.live
        && r.ledger.live[r.ledger.entries[k]] == Sub(Get(props, k).stream, Forward(k))
    decreases |keys|
  {
    if keys != [] {
      var init := keys[..|keys| - 1];
      var last := keys[|keys| - 1];
      assert keys == init + [last];
      AddEachSubscribesObservables(s, init, props, ref);
      var s1 := AddEach(s, init, props, ref);
      var s2 := AddPropSubscription(s1, last, props, ref);
      assert AddEach(s, keys, props, ref) == s2;
      assert Valid(s1.ledger) && LiveGrows(s1.ledger, s2.ledger);
      forall k | k in keys && Get(props, k).Obs?
        ensures && k in s2.ledger.entries && s2.ledger.entries[k] in s2.ledger.live
                && s2.ledger.live[s2.ledger.entries[k]] == Sub(Get(props, k).stream, Forward(k))
      {
        if k != last {
          assert k in init;
        }
      }
    }
  }

  /** A key `addPropSubscription` declines keeps whatever entry it had, or none. */
  lemma {:induction false} AddEachSkips(s: State, keys: seq<string>, props: Record, ref: Instance)
    ensures var r := AddEach(s, keys, props, ref);
      forall k | PropSubscription(k, props, ref).None? ::
        (k in r.ledger.entries <==> k in s.ledger.entries)
        && (k in s.ledger.entries ==> r.ledger.entries[k] == s.ledger.entries[k])
    decreases |keys|
  {
    if keys != [] {
      var init := keys[..|keys| - 1];
      assert keys == init + [keys[|keys| - 1]];
      AddEachSkips(s, init, props, ref);
    }
  }

  // ---------------------------------------------------------------------------
  // The two passes

  /**
   `subscribeToProps(prevProps, props)`: cancel every `different` and `removed`
   key, then subscribe every `added` and `different` key.
   */
  function SubscribeToProps(s: State, prev: Record, props: Record, ref: Instance): (r: State)
    ensures r == s.(ledger := r.ledger)
    ensures r.ledger.next >= s.ledger.next
    ensures forall k | k in r.ledger.entries ::
      (k in s.ledger.entries && r.ledger.entries[k] == s.ledger.entries[k]) || r.ledger.entries[k] >= s.ledger.next
    ensures Valid(s.ledger) && EntriesOpen(s.ledger) ==> Valid(r.ledger) && EntriesOpen(r.ledger)
    ensures Valid(s.ledger) && FollowsObservables(prev, s.ledger) ==> FollowsObservables(props, r.ledger)
  {
    var d := CalculateDifferences(prev, props, true);
    var s1 := RemoveEach(s, d.different + d.removed);
    StreamPassFacts(s, prev, props, ref);
    AddEach(s1, d.added + d.different, props, ref)
  }

  /** The reasoning behind the last contract of `SubscribeToProps`. */
  lemma StreamPassFacts(s: State, prev: Record, props: Record, ref: Instance)
    ensures var d := CalculateDifferences(prev, props, true);
      var s1 := RemoveEach(s, d.different + d.removed);
      var r := AddEach(s1, d.added + d.different, props, ref);
      Valid(s.ledger) && FollowsObservables(prev, s.ledger) ==> FollowsObservables(props, r.ledger)
  {
    var d := CalculateDifferences(prev, props, true);
    var pk := FilterKeys(prev, true);
    var ck := FilterKeys(props, true);
    DiffMembership(pk, ck, prev, props);
    var s1 := RemoveEach(s, d.different + d.removed);
    var adds := d.added + d.different;
    var r := AddEach(s1, adds, props, ref);
    if Valid(s.ledger) && FollowsObservables(prev, s.ledger) {
      AddEachSubscribesObservables(s1, adds, props, ref);
      forall k | k in props.vals && props.vals[k].Obs?
        ensures && k in r.ledger.entries && r.ledger.entries[k] in r.ledger.live
                && r.ledger.live[r.ledger.entries[k]] == Sub(props.vals[k].stream, Forward(k))
      {
        assert k in ck;
        if k !in adds {
          assert k in pk && Get(props, k) == Get(prev, k);
          assert k !in d.different + d.removed;
        }
      }
    }
  }

  /**
   `updateOtherProps(prevProps, props)`: with changes, `props` is REPLACED by a
   new object holding exactly the `added` and `different` plain keys at their
   current values; without changes nothing happens.
   */
  function UpdateOtherProps(s: State, prev: Record, props: Record): (r: State)
    ensures var d := CalculateDifferences(prev, props, false);
      && (Changes(d) ==>
           && r.subject.props == Obj(s.nextRef, Pick(d.added + d.different, props))
           && r == s.(subject := r.subject, nextRef := s.nextRef + 1, pending := s.pending || s.listening))
      && (!Changes(d) ==> r == s)
    ensures r.subject.data == s.subject.data && r.subject.prevProps == s.subject.prevProps
    ensures r.ledger == s.ledger
    ensures RefsFresh(s) ==> RefsFresh(r)
  {
    var d := CalculateDifferences(prev, props, false);
    if Changes(d) then
      Update(s.(nextRef := s.nextRef + 1), Patch(None, Some(Obj(s.nextRef, Pick(d.added + d.different, props))), None))
    else s
  }

  /**
   A replaced `props` object holds plain values only, each the current value
   of its key: a function prop never reaches it.
   */
  lemma PlainPropsArePlain(s: State, prev: Record, props: Record)
    ensures var r := UpdateOtherProps(s, prev, props);
      r.subject.props != s.subject.props ==>
        forall k | k in r.subject.props.fields ::
          k in props.vals && !IsRxjsCompat(props.vals[k]) && r.subject.props.fields[k] == props.vals[k]
  {
    DifferencesMeaning(prev, props, false);
  }

  /**
   `triggerUpdate(props)`: remember `props` as `prevProps`, run the stream pass
   against the previous props, then the plain pass. `data` is never touched.
   */
  function TriggerUpdate(s: State, props: Record, ref: Instance): (r: State)
    ensures r.subject.prevProps == props && r.subject.data == s.subject.data
    ensures r.config == s.config && r.phase == s.phase && r.view == s.view && r.statics == s.statics
    ensures r.lastEmitted == s.lastEmitted && r.listening == s.listening && r.renders == s.renders
    ensures r.nextRef >= s.nextRef && (r.pending ==> s.pending || s.listening)
    ensures RefsFresh(s) ==> RefsFresh(r)
    ensures Valid(s.ledger) && EntriesOpen(s.ledger) ==> Valid(r.ledger) && EntriesOpen(r.ledger)
    ensures StaticsApart(s) ==> StaticsApart(r)
    ensures Valid(s.ledger) && FollowsObservables(s.subject.prevProps, s.ledger) ==> FollowsObservables(props, r.ledger)
  {
    var prev := s.subject.prevProps;
    var s1 := Update(s, Patch(None, None, Some(props)));
    var s2 := SubscribeToProps(s1, prev, props, ref);
    UpdateOtherProps(s2, prev, props)
  }

  // ---------------------------------------------------------------------------
  // Lifecycle

  /**
   The freshly constructed component. The React state starts as
   `{props: {}, data: defaultState || {}}`, but the subject starts from
   `DEFAULT_STATE()`, whose `data` is empty.
   */
  function Init(cfg: Config): (s: State)
    ensures s.view.data.fields == cfg.defaultState && s.subject.data.fields == map[]
    ensures s.subject.prevProps == Empty && s.phase == Unmounted
    ensures Inv(s)
  {
    State(cfg, Unmounted, Snapshot(Obj(0, map[]), Obj(1, map[]), Empty),
          View(Obj(2, cfg.defaultState), Obj(3, map[])), None,
          false, false, Fresh, {}, 4, 0)
  }

  /** `subscribeToStaticProps()`: each static Observable delivers into `data` and joins `staticSubscriptions`. */
  function SubscribeStatics(s: State, statics: seq<(string, StreamId)>): (r: State)
    ensures r == s.(ledger := r.ledger, statics := r.statics)
    ensures r.ledger.entries == s.ledger.entries && r.ledger.next == s.ledger.next + |statics|
    ensures forall id :: id in r.statics <==> id in s.statics || s.ledger.next <= id < r.ledger.next
    ensures Valid(s.ledger) ==> Valid(r.ledger) && LiveGrows(s.ledger, r.ledger)
    ensures forall id | s.ledger.next <= id < r.ledger.next ::
      id in r.ledger.live && r.ledger.live[id] == Sub(statics[id - s.ledger.next].1, Forward(statics[id - s.ledger.next].0))
    decreases |statics|
  {
    if statics == [] then s
    else
      var init := statics[..|statics| - 1];
      var (key, stream) := statics[|statics| - 1];
      var s1 := SubscribeStatics(s, init);
      var r := s1.(ledger := Open(s1.ledger, Sub(stream, Forward(key))), statics := s1.statics + {s1.ledger.next});
      assert forall i | 0 <= i < |init| :: init[i] == statics[i];
      r
  }

  /**
   `componentDidMount`: listen to the state subject (whose current value it
   replays, so a first emission is pending), subscribe the static props, then
   `triggerUpdate(this.props)`.
   */
  function Mount(s: State, props: Record, ref: Instance): (r: State)
    ensures r.phase == Mounted && r.listening && r.pending && r.subject.prevProps == props
    ensures r.subject.data == s.subject.data
    ensures r.view == s.view && r.renders == s.renders && r.lastEmitted == s.lastEmitted
  {
    var s1 := s.(listening := true, pending := true);
    var s2 := SubscribeStatics(s1, s.config.staticProps);
    TriggerUpdate(s2, props, ref).(phase := Mounted)
  }

  /**
   `componentWillUnmount`: `triggerUpdate({})`, which cancels the prop
   subscription of every stream-class key of `prevProps`; then
   `staticSubscriptions.unsubscribe()` closes the state listener (dropping any
   pending emission) and the static subscriptions, and a new, empty
   `staticSubscriptions` takes its place.
   */
  function Unmount(s: State): (r: State)
    ensures r.phase == Detached && !r.listening && !r.pending && r.statics == {}
    ensures r.subject.prevProps == Empty && r.view == s.view && r.renders == s.renders && r.lastEmitted == s.lastEmitted
    ensures forall id | id in s.statics :: id !in r.ledger.live
  {
    var s1 := TriggerUpdate(s, Empty, None);
    s1.(phase := Detached, listening := false, pending := false,
        ledger := CloseAll(s1.ledger, s1.statics), statics := {})
  }

  /**
   A value arriving on an open subscription: one delivering into the state
   overwrites only its own key of `data`; one attached to a user subscriber
   leaves the component's state alone. A closed subscription delivers nothing.
   */
  function Deliver(s: State, id: SubId, value: Value): (r: State)
    ensures id in s.ledger.live && s.ledger.live[id].target.Forward? ==>
      r == UpdateData(s, s.ledger.live[id].target.key, value)
    ensures !(id in s.ledger.live && s.ledger.live[id].target.Forward?) ==> r == s
  {
    if id in s.ledger.live then
      match s.ledger.live[id].target
      case Forward(key) => UpdateData(s, key, value)
      case Attach(_) => s
    else s
  }

  /**
   The debounced emission reaching the listener: `distinctUntilChanged` drops
   it when `data` and `props` are the very objects it last let through;
   otherwise `setState({data, props})`.
   */
  function Flush(s: State): (r: State)
    ensures !(s.listening && s.pending) ==> r == s
    ensures s.listening && s.pending ==> !r.pending
    ensures s.listening && s.pending && r.renders != s.renders ==>
      && r.view == View(s.subject.data, s.subject.props)
      && r.renders == s.renders + 1 && r.lastEmitted == Some(r.view)
    ensures r.renders == s.renders ==> r.view == s.view
    ensures s.listening && s.pending && s.lastEmitted.Some? ==>
      (r.renders == s.renders <==>
         s.lastEmitted.value.data.ref == s.subject.data.ref
         && s.lastEmitted.value.props.ref == s.subject.props.ref)
    ensures s.listening && s.pending && s.lastEmitted.None? ==> r.renders == s.renders + 1
    ensures r == s.(pending := r.pending, view := r.view, lastEmitted := r.lastEmitted, renders := r.renders)
  {
    if !(s.listening && s.pending) then s
    else
      var e := View(s.subject.data, s.subject.props);
      if s.lastEmitted.Some?
         && s.lastEmitted.value.data.ref == e.data.ref
         && s.lastEmitted.value.props.ref == e.props.ref
      then s.(pending := false)
      else s.(pending := false, view := e, lastEmitted := Some(e), renders := s.renders + 1)
  }

  /** The props `render` hands to the wrapped component: `{...props, ...data}`. */
  function Rendered(s: State): (r: map<string, Value>)
    ensures r.Keys == s.view.props.fields.Keys + s.view.data.fields.Keys
    ensures forall k | k in s.view.data.fields :: r[k] == s.view.data.fields[k]
    ensures forall k | k in s.view.props.fields && k !in s.view.data.fields :: r[k] == s.view.props.fields[k]
  {
    Spread(s.view.props.fields, s.view.data.fields)
  }

  // ---------------------------------------------------------------------------
  // Events

  datatype Event =
    | MountEv(props: Record, ref: Instance)
    | UpdateEv(props: Record, ref: Instance)
    | UnmountEv
    | DeliverEv(id: SubId, value: Value)
    | FlushEv

  ghost predicate Inv(s: State)
  {
    && Valid(s.ledger)
    && EntriesOpen(s.ledger)
    && StaticsApart(s)
    && RefsFresh(s)
    && (s.pending ==> s.listening)
    && (s.phase == Unmounted ==> s.subject.prevProps == Empty && !s.listening && s.ledger == Fresh && s.statics == {})
    && (s.phase == Mounted ==> s.listening && FollowsObservables(s.subject.prevProps, s.ledger))
    && (s.phase == Detached ==> !s.listening && s.statics == {} && s.subject.prevProps == Empty)
  }

  /**
   One event. The host mounts once, updates while mounted, unmounts once;
   subscriptions that survive unmounting still deliver.
   */
  function Step(s: State, e: Event): State
    requires Inv(s)
  {
    match e
    case MountEv(props, ref) => if s.phase == Unmounted then Mount(s, props, ref) else s
    case UpdateEv(props, ref) => if s.phase == Mounted then TriggerUpdate(s, props, ref) else s
    case UnmountEv => if s.phase == Mounted then Unmount(s) else s
    case DeliverEv(id, value) => Deliver(s, id, value)
    case FlushEv => Flush(s)
  }

  /**
   Every event keeps the invariant: every entry of `propSubscriptions` names an
   open subscription that is not a static one, and while mounted every
   Observable-valued prop has an open subscription to exactly that Observable.
   */
  lemma StepInv(s: State, e: Event)
    requires Inv(s)
    ensures Inv(Step(s, e))
  {
    match e
    case MountEv(props, ref) =>
      if s.phase == Unmounted {
        var s1 := s.(listening := true, pending := true);
        var s2 := SubscribeStatics(s1, s.config.staticProps);
        assert FollowsObservables(s2.subject.prevProps, s2.ledger);
        assert StaticsApart(s2);
      }
    case UpdateEv(props, ref) =>
    case UnmountEv =>
      if s.phase == Mounted {
        var s1 := TriggerUpdate(s, Empty, None);
        assert StaticsApart(s1) && EntriesOpen(s1.ledger);
      }
    case DeliverEv(id, value) =>
    case FlushEv =>
  }

  // ---------------------------------------------------------------------------
  // Runs of events

  /** A run of events; the invariant holds after every prefix. */
  function Run(s: State, evs: seq<Event>): (r: State)
    requires Inv(s)
    ensures Inv(r)
    decreases |evs|
  {
    if evs == [] then s
    else
      StepInv(s, evs[0]);
      Run(Step(s, evs[0]), evs[1..])
  }

  /** A run starting with `e` is `e`'s step, then the rest of the run. */
  lemma RunCons(s: State, e: Event, evs: seq<Event>)
    requires Inv(s)
    ensures Inv(Step(s, e))
    ensures Run(s, [e] + evs) == Run(Step(s, e), evs)
  {
    StepInv(s, e);
    var l := [e] + evs;
    assert l[0] == e && l[1..] == evs;
  }

  /** A run of one event is that event's step. */
  lemma RunOne(s: State, e: Event)
    requires Inv(s)
    ensures Run(s, [e]) == Step(s, e)
  {
    RunCons(s, e, []);
    Literals(e, e, e);
  }

  /** A run of three events is three runs of one event in turn. */
  lemma RunThree(s: State, e0: Event, e1: Event, e2: Event)
    requires Inv(s)
    ensures Run(s, [e0, e1, e2]) == Run(Run(Run(s, [e0]), [e1]), [e2])
  {
    RunOne(s, e0);
    var s1 := Step(s, e0);
    RunOne(s1, e1);
    RunCons(s, e0, [e1, e2]);
    RunCons(s1, e1, [e2]);
    Literals(e0, e1, e2);
  }

  /** The sequence literals the runs above are split into. */
  lemma Literals(e0: Event, e1: Event, e2: Event)
    ensures [e0] + [] == [e0] && [e1] + [e2] == [e1, e2] && [e0] + [e1, e2] == [e0, e1, e2]
  {
  }

  // ---------------------------------------------------------------------------
  // Rendering

  /**
   The React state starts from `defaultState`, but the subject's `data` starts
   empty, and mounting delivers nothing by itself: the first `setState`
   replaces the default values with an empty `data`.
   */
  lemma DefaultStateIsDropped(cfg: Config, props: Record, ref: Instance)
    ensures var u := Flush(Step(Init(cfg), MountEv(props, ref)));
      u.view.data.fields == map[] && u.renders == 1
  {
  }

  /** Without a flush nothing is rendered: lifecycle events and deliveries only change the subject. */
  lemma {:induction false} NoRenderWithoutFlush(s: State, evs: seq<Event>)
    requires Inv(s)
    requires forall i | 0 <= i < |evs| :: !evs[i].FlushEv?
    ensures var t := Run(s, evs);
      t.view == s.view && t.renders == s.renders && t.lastEmitted == s.lastEmitted
    decreases |evs|
  {
    if evs != [] {
      StepInv(s, evs[0]);
      NoRenderWithoutFlush(Step(s, evs[0]), evs[1..]);
    }
  }

  /**
   Coalescing: any number of updates and deliveries in one turn, followed by
   the debounced flush, give at most one `setState`, which carries the last
   `data` and `props`; a second flush does nothing.
   */
  lemma Coalescing(s: State, evs: seq<Event>)
    requires Inv(s)
    requires forall i | 0 <= i < |evs| :: !evs[i].FlushEv?
    ensures var t := Run(s, evs);
      var u := Flush(t);
      && u.renders <= s.renders + 1
      && (u.renders == s.renders + 1 ==> u.view == View(t.subject.data, t.subject.props))
      && (u.renders == s.renders ==> u.view == s.view)
      && Flush(u) == u
  {
    NoRenderWithoutFlush(s, evs);
  }

  /**
   A value delivered while mounted reaches the rendered props at the next
   flush, under its key, and nothing else in `data` changes.
   */
  lemma DeliveryIsRendered(s: State, id: SubId, v: Value)
    requires Inv(s) && s.phase == Mounted
    requires id in s.ledger.live && s.ledger.live[id].target.Forward?
    ensures var k := s.ledger.live[id].target.key;
      var u := Flush(Step(s, DeliverEv(id, v)));
      && u.renders == s.renders + 1
      && k in Rendered(u) && Rendered(u)[k] == v
      && u.view.data.fields == s.subject.data.fields[k := v]
      && u.view.props == s.subject.props
  {
  }

  /**
   A props update never touches `data`: once the state is settled, every
   stream value stays rendered after the update and its flush, even when its
   key is gone from the props.
   */
  lemma UpdateKeepsStreamValues(s: State, props: Record, ref: Instance)
    requires Inv(s) && s.phase == Mounted
    requires s.view == View(s.subject.data, s.subject.props) && s.lastEmitted == Some(s.view)
    ensures var u := Flush(Step(s, UpdateEv(props, ref)));
      && u.view.data == s.subject.data
      && forall k | k in s.subject.data.fields :: k in Rendered(u) && Rendered(u)[k] == s.subject.data.fields[k]
  {
  }

  /**
   The re-render that `setState` causes calls `componentDidUpdate` with the
   same props: that pass opens and closes nothing and writes no partition.
   */
  lemma SamePropsAreQuiet(s: State, ref: Instance)
    requires Inv(s) && s.phase == Mounted
    ensures var r := TriggerUpdate(s, s.subject.prevProps, ref);
      && r == s.(pending := true)
      && (s.lastEmitted == Some(View(s.subject.data, s.subject.props)) ==> Flush(r).renders == s.renders)
  {
    var props := s.subject.prevProps;
    DiffAgainstItself(props, true);
    DiffAgainstItself(props, false);
  }

  // ---------------------------------------------------------------------------
  // The stream pass over time

  /**
   Cancellation precedes re-subscription: every `different` and `removed`
   key's subscription is closed before the first new one is opened, and none
   of them is open afterwards.
   */
  lemma CancelBeforeResubscribe(s: State, prev: Record, props: Record, ref: Instance)
    requires Valid(s.ledger)
    ensures var d := CalculateDifferences(prev, props, true);
      var s1 := RemoveEach(s, d.different + d.removed);
      var r := SubscribeToProps(s, prev, props, ref);
      && s1.ledger.next == s.ledger.next
      && (forall k | k in d.different + d.removed && k in s.ledger.entries ::
            s.ledger.entries[k] !in s1.ledger.live && s.ledger.entries[k] !in r.ledger.live)
      && (forall id | id in r.ledger.live && id !in s1.ledger.live :: id >= s.ledger.next)
  {
    var d := CalculateDifferences(prev, props, true);
    var s1 := RemoveEach(s, d.different + d.removed);
    var s2 := AddEach(s1, d.added + d.different, props, ref);
    forall k | k in d.different + d.removed && k in s.ledger.entries
      ensures s.ledger.entries[k] !in s2.ledger.live
    {
      assert s.ledger.entries[k] < s.ledger.next;
    }
  }

  /**
   `triggerUpdate` closes exactly the subscriptions that entries of previous
   stream-class keys name: every other open subscription survives unchanged.
   */
  lemma TriggerUpdateCloses(s: State, props: Record, ref: Instance, id: SubId)
    requires Valid(s.ledger) && id in s.ledger.live
    ensures var r := TriggerUpdate(s, props, ref);
      var d := CalculateDifferences(s.subject.prevProps, props, true);
      && (id in r.ledger.live <==>
            forall k | k in s.ledger.entries && s.ledger.entries[k] == id :: k !in d.different + d.removed)
      && (id in r.ledger.live ==> r.ledger.live[id] == s.ledger.live[id])
  {
    var prev := s.subject.prevProps;
    var s0 := Update(s, Patch(None, None, Some(props)));
    var d := CalculateDifferences(prev, props, true);
    var s1 := RemoveEach(s0, d.different + d.removed);
    var s2 := AddEach(s1, d.added + d.different, props, ref);
    assert id < s.ledger.next;
    assert s2.ledger == TriggerUpdate(s, props, ref).ledger;
  }

  /**
   A key that held an Observable or function and now holds a defined plain
   value is in none of the lists of the stream pass, so its entry and its
   open subscription survive `triggerUpdate`.
   */
  lemma StreamTurnedPlainKeepsSubscription(s: State, props: Record, ref: Instance, k: string)
    requires Valid(s.ledger)
    requires k in s.subject.prevProps.vals && IsRxjsCompat(s.subject.prevProps.vals[k])
    requires k in props.vals && !IsRxjsCompat(props.vals[k]) && props.vals[k] != Undef
    requires k in s.ledger.entries && s.ledger.entries[k] in s.ledger.live
    ensures var r := TriggerUpdate(s, props, ref);
      && k in r.ledger.entries && r.ledger.entries[k] == s.ledger.entries[k]
      && s.ledger.entries[k] in r.ledger.live
      && r.ledger.live[s.ledger.entries[k]] == s.ledger.live[s.ledger.entries[k]]
  {
    var prev := s.subject.prevProps;
    DifferencesMeaning(prev, props, true);
    var d := CalculateDifferences(prev, props, true);
    assert k !in d.added + d.different && k !in d.different + d.removed;
    TriggerUpdateCloses(s, props, ref, s.ledger.entries[k]);
  }

  /**
   Unmounting closes an open subscription exactly when it is static or an
   entry of a stream-class key of the last props names it. A subscription
   whose key turned plain, or one whose entry was overwritten, stays open.
   */
  lemma UnmountCloses(s: State, id: SubId)
    requires Inv(s) && s.phase == Mounted && id in s.ledger.live
    ensures var r := Step(s, UnmountEv);
      id in r.ledger.live <==>
        && id !in s.statics
        && forall k | k in s.ledger.entries && s.ledger.entries[k] == id :: k !in FilterKeys(s.subject.prevProps, true)
  {
    var prev := s.subject.prevProps;
    var d := CalculateDifferences(prev, Empty, true);
    assert forall k :: k in d.different + d.removed <==> k in FilterKeys(prev, true) by {
      DifferencesMeaning(prev, Empty, true);
      assert FilterKeys(Empty, true) == [];
    }
    var s1 := TriggerUpdate(s, Empty, None);
    assert Step(s, UnmountEv).ledger.live.Keys == s1.ledger.live.Keys - s.statics;
    TriggerUpdateCloses(s, Empty, None, id);
  }

  /** Mounting with an Observable prop subscribes to it. */
  lemma MountSubscribes(s: State, p: Record, ref: Instance, k: string)
    requires Inv(s) && s.phase == Unmounted
    requires k in p.vals && p.vals[k].Obs?
    ensures var r := Step(s, MountEv(p, ref));
      && Inv(r) && r.phase == Mounted && r.subject.prevProps == p
      && k in r.ledger.entries && r.ledger.entries[k] in r.ledger.live
      && r.ledger.live[r.ledger.entries[k]] == Sub(p.vals[k].stream, Forward(k))
  {
    StepInv(s, MountEv(p, ref));
  }

  /** An update while mounted is `triggerUpdate`. */
  lemma UpdateIsTriggerUpdate(s: State, p: Record, ref: Instance)
    requires Inv(s) && s.phase == Mounted
    ensures var r := Step(s, UpdateEv(p, ref));
      && r == TriggerUpdate(s, p, ref)
      && Inv(r) && r.phase == Mounted && r.subject.prevProps == p
  {
    StepInv(s, UpdateEv(p, ref));
  }

  /** An unmount while mounted detaches; what stays open keeps its subscription. */
  lemma UnmountKeeps(s: State, id: SubId)
    requires Inv(s) && s.phase == Mounted && id in s.ledger.live
    ensures var r := Step(s, UnmountEv);
      && r.phase == Detached
      && (id in r.ledger.live ==> r.ledger.live[id] == s.ledger.live[id])
  {
    TriggerUpdateCloses(s, Empty, None, id);
  }

  /**
   Mount with an Observable under `k`, update it to a defined plain value,
   unmount: the subscription to the Observable is still open afterwards, and
   keeps delivering into `data`.
   */
  lemma LeakAfterUnmount(s0: State, p1: Record, p2: Record, r1: Instance, r2: Instance, k: string)
    requires Inv(s0) && s0.phase == Unmounted
    requires k in p1.vals && p1.vals[k].Obs?
    requires k in p2.vals && p2.vals[k] != Undef && !IsRxjsCompat(p2.vals[k])
    ensures var s3 := Run(s0, [MountEv(p1, r1), UpdateEv(p2, r2), UnmountEv]);
      && s3.phase == Detached
      && exists id | id in s3.ledger.live :: s3.ledger.live[id] == Sub(p1.vals[k].stream, Forward(k))
  {
    RunThree(s0, MountEv(p1, r1), UpdateEv(p2, r2), UnmountEv);
    RunOne(s0, MountEv(p1, r1));
    MountSubscribes(s0, p1, r1, k);
    var s1 := Step(s0, MountEv(p1, r1));
    RunOne(s1, UpdateEv(p2, r2));
    var a: SubId := s1.ledger.entries[k];
    UpdateIsTriggerUpdate(s1, p2, r2);
    var s2 := Step(s1, UpdateEv(p2, r2));
    RunOne(s2, UnmountEv);
    StreamTurnedPlainKeepsSubscription(s1, p2, r2, k);
    assert k !in FilterKeys(p2, true);
    UnmountCloses(s2, a);
    var s3 := Step(s2, UnmountEv);
    assert s3.phase == Detached && a in s3.ledger.live && s3.ledger.live[a] == Sub(p1.vals[k].stream, Forward(k)) by {
      UnmountKeeps(s2, a);
    }
  }

  /** After unmounting nothing is rendered again, though leaked subscriptions still write `data`. */
  lemma {:induction false} DetachedNeverRenders(s: State, evs: seq<Event>)
    requires Inv(s) && s.phase == Detached
    ensures var t := Run(s, evs);
      t.phase == Detached && t.view == s.view && t.renders == s.renders && !t.pending
    decreases |evs|
  {
    if evs != [] {
      StepInv(s, evs[0]);
      DetachedNeverRenders(Step(s, evs[0]), evs[1..]);
    }
  }

  // ---------------------------------------------------------------------------
  // Classification over time

  /**
   A function prop with no Observable counterpart on the instance is neither
   subscribed nor passed to the wrapped component: it is dropped. A plain value
   the key held before may linger in `props`, but only unchanged.
   */
  lemma UnconnectedFunctionIsDropped(s: State, props: Record, ref: Instance, k: string)
    requires k in props.vals && props.vals[k].Fn? && PropSubscription(k, props, ref).None?
    requires k !in s.ledger.entries
    ensures var r := TriggerUpdate(s, props, ref);
      && k !in r.ledger.entries
      && (k in r.subject.props.fields ==>
            k in s.subject.props.fields && r.subject.props.fields[k] == s.subject.props.fields[k])
  {
    var prev := s.subject.prevProps;
    var s0 := Update(s, Patch(None, None, Some(props)));
    var d := CalculateDifferences(prev, props, true);
    var s1 := RemoveEach(s0, d.different + d.removed);
    AddEachSkips(s1, d.added + d.different, props, ref);
    var s2 := SubscribeToProps(s0, prev, props, ref);
    PlainPropsArePlain(s2, prev, props);
  }

  /**
   An observer object prop is handed to the wrapped component as a plain prop
   whenever it is a new value for its key, and its key's entry is untouched.
   */
  lemma ObserverPropIsPassedOn(s: State, props: Record, ref: Instance, k: string)
    requires k in props.vals && props.vals[k].Observer?
    requires Get(s.subject.prevProps, k) != props.vals[k]
    ensures var r := TriggerUpdate(s, props, ref);
      && k in r.subject.props.fields && r.subject.props.fields[k] == props.vals[k]
      && (k in r.ledger.entries <==> k in s.ledger.entries)
      && (k in s.ledger.entries ==> r.ledger.entries[k] == s.ledger.entries[k])
  {
    var prev := s.subject.prevProps;
    ObserverGoesToPlainPass(prev, props, k);
    var s0 := Update(s, Patch(None, None, Some(props)));
    var d := CalculateDifferences(prev, props, true);
    var s1 := RemoveEach(s0, d.different + d.removed);
    var s2 := SubscribeToProps(s0, prev, props, ref);
    var dp := CalculateDifferences(prev, props, false);
    assert Changes(dp);
    assert k in Elems(dp.added + dp.different);
  }
}
