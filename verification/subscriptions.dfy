/**
 The subscription ledger both variants keep: `propSubscriptions` (prop key to
 subscription) next to the set of rxjs subscriptions that are still open.
 */
module Subscriptions {
  import opened JsValues

  /** Identity of one rxjs `Subscription`. */
  type SubId = nat

  /**
   Where a subscription's values go: into the component's state under a key,
   or to an observer (function or `{next: ...}` object) the user passed in.
   */
  datatype Target = Forward(key: string) | Attach(observer: Value)

  /** An open subscription: the Observable it listens to and where values go. */
  datatype Sub = Sub(source: StreamId, target: Target)

  /**
   `entries` is `propSubscriptions`; `live` the subscriptions not yet
   unsubscribed, whether or not an entry names them; `next` the next fresh id.
   */
  datatype Ledger = Ledger(entries: map<string, SubId>, live: map<SubId, Sub>, next: SubId)

  const Fresh: Ledger := Ledger(map[], map[], 0)

  /** Ids are allocated from `next` upwards, and no two keys share a subscription. */
  ghost predicate Valid(l: Ledger)
  {
    && (forall k | k in l.entries :: l.entries[k] < l.next)
    && (forall id | id in l.live :: id < l.next)
    && (forall k, k' | k in l.entries && k' in l.entries && k != k' :: l.entries[k] != l.entries[k'])
  }

  /** Every subscription open in `l` is still open, unchanged, in `l'`. */
  ghost predicate LiveGrows(l: Ledger, l': Ledger)
  {
    forall id | id in l.live :: id in l'.live && l'.live[id] == l.live[id]
  }

  /**
   `observable.subscribe(...)` without recording it in `propSubscriptions`:
   opens a subscription under a fresh id and leaves every other one alone.
   */
  function Open(l: Ledger, sub: Sub): (r: Ledger)
    ensures r.entries == l.entries
    ensures r.next == l.next + 1
    ensures l.next in r.live && r.live[l.next] == sub
    ensures r.live.Keys == l.live.Keys + {l.next}
    ensures forall id | id in l.live && id != l.next :: r.live[id] == l.live[id]
    ensures Valid(l) ==> Valid(r) && l.next !in l.live && LiveGrows(l, r)
  {
    Ledger(l.entries, l.live[l.next := sub], l.next + 1)
  }

  /**
   Subscribing and then `propSubscriptions.set(key, subscription)`: `key` names
   a fresh open subscription; any previous entry for `key` is overwritten
   WITHOUT being unsubscribed; other keys keep their entries.
   */
  function Store(l: Ledger, key: string, sub: Sub): (r: Ledger)
    ensures key in r.entries && r.entries[key] == l.next
    ensures l.next in r.live && r.live[l.next] == sub
    ensures r.live.Keys == l.live.Keys + {l.next}
    ensures r.next == l.next + 1
    ensures forall k | k in l.entries && k != key :: k in r.entries && r.entries[k] == l.entries[k]
    ensures forall k | k in r.entries :: k == key || k in l.entries
    ensures Valid(l) ==> Valid(r) && l.next !in l.live && LiveGrows(l, r)
  {
    var o := Open(l, sub);
    Ledger(o.entries[key := l.next], o.live, o.next)
  }

  /**
   `subscription.unsubscribe(); propSubscriptions.delete(key)` for the entry of
   `key`, when there is one; nothing at all otherwise.
   */
  function Cancel(l: Ledger, key: string): (r: Ledger)
    ensures key !in r.entries
    ensures key !in l.entries ==> r == l
    ensures key in l.entries ==> r.live.Keys == l.live.Keys - {l.entries[key]}
    ensures forall id | id in r.live :: id in l.live && r.live[id] == l.live[id]
    ensures forall k | k in l.entries && k != key :: k in r.entries && r.entries[k] == l.entries[k]
    ensures forall k | k in r.entries :: k in l.entries
    ensures r.next == l.next
    ensures Valid(l) ==> Valid(r)
  {
    if key in l.entries then Ledger(l.entries - {key}, l.live - {l.entries[key]}, l.next)
    else l
  }

  /** `composite.unsubscribe()`: closes every subscription in `ids`, entries stay as they are. */
  function CloseAll(l: Ledger, ids: set<SubId>): (r: Ledger)
    ensures r.entries == l.entries && r.next == l.next
    ensures r.live.Keys == l.live.Keys - ids
    ensures forall id | id in r.live :: r.live[id] == l.live[id]
    ensures Valid(l) ==> Valid(r)
  {
    Ledger(l.entries, l.live - ids, l.next)
  }

  /**
   The reconciliation guarantee for Observable-valued props: every key whose
   value is an Observable names an open subscription to exactly that
   Observable, delivering under that key.
   */
  ghost predicate FollowsObservables(props: Props, l: Ledger)
  {
    forall k | k in props.vals && props.vals[k].Obs? ::
      && k in l.entries
      && l.entries[k] in l.live
      && l.live[l.entries[k]] == Sub(props.vals[k].stream, Forward(k))
  }
}
