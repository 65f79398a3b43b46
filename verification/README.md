# rx-component: the prop/stream reconciliation engine in Dafny

rx-component wraps a React component so that it can take rxjs Observables as props. The
wrapper subscribes to every Observable-valued prop and renders the values those
Observables deliver. It attaches subscriber props (functions or observer objects) to
Observables that the wrapped instance exposes under the same name. Every other prop
passes through unchanged. All state updates go through one `BehaviorSubject`, which is
debounced and deduplicated before `setState` is called.

The repository ships two variants of this engine and a small leveled logger. This project
models all three:

- `ReactiveX` (`reactive_x.dfy`) models `src/reactive-x-component.tsx`.
  - State partitions: `obsValues` and `basicProps`.
  - Keeps a leftover list: stream-class keys that got no subscription are passed on as
    plain props.
  - Warns through the logger.
  - Closes every subscription at unmount.
- `RxComponent` (`rx_component.dfy`) models `src/rx-component.tsx`.
  - State partitions: `data` and `props`.
  - Only Observables and functions are stream-class.
  - Never deletes stream values.
  - At unmount, closes only the static subscriptions and the subscriptions of the last
    props.
- `Logger` (`logger.dfy`) models `src/logger.ts`: the level gate, the zero-padding helper
  and the timestamp it builds, and the channel, prefix and colour of each level method.

Shared modules:

- `JsValues`: the JavaScript values the classifiers inspect.
  - A prop record is an ordered key list plus a map.
  - A state object carries a reference identity, so `===` and `distinctUntilChanged`
    compare references.
- `Differences`: the `calculateDifferences` loop, which is the same in both variants.
  - It is modelled as written: `indexOf`, `splice`, `push`.
  - It is proved equal to three order-preserving filters.
- `Subscriptions`: the ledger both variants keep.
  - It holds `propSubscriptions` (key to subscription) and the set of subscriptions still
    open.
  - An overwritten entry is not unsubscribed, exactly as `Map.set` behaves.

Each component is a state machine. Its events are mount, props update, unmount, a value
delivered on a subscription, and the debounced flush that reaches `setState`. Each
variant has an invariant. It holds after every event: ids are fresh and unshared, and
while mounted every Observable-valued prop has an open subscription to exactly that
Observable. In `RxComponent` every entry of `propSubscriptions` also names an open
subscription. `ReactiveX` keeps its entries when unmounting closes their subscriptions
(`ReactiveX.Unmount`), so its invariant does not say that.

## Model

| member | source | states |
|---|---|---|
| JsValues.Spread | src/reactive-x-component.tsx:143-144 | `{...low, ...high}` has the keys of both, and `high` wins on a collision |
| Differences.IndexOf | src/reactive-x-component.tsx:202 | `indexOf` is -1 exactly when the key is absent, and otherwise the first position holding it |
| Differences.SpliceMinus | src/reactive-x-component.tsx:202-204 | on a duplicate-free filtered list, `splice(indexOf(key), 1)` removes exactly that key |
| Differences.ScanIsReference | src/reactive-x-component.tsx:197-213 | on duplicate-free key lists, the loop computes three filters: `added` is the current keys not among the previous ones, `different` is the shared keys whose values are `!==`, and `removed` is the vanished keys that read `undefined` |
| Differences.DiffMembership | src/rx-component.tsx:137-163 | membership in each list (both directions), pairwise disjointness, no duplicates, and `changes` holds iff some list is non-empty |
| Differences.DiffSelf | src/rx-component.tsx:141-162 | diffing a record against itself reports no change |
| Subscriptions.Open | src/reactive-x-component.tsx:318-320 | subscribing opens one subscription under a fresh id and leaves every other one and every entry alone |
| Subscriptions.Store | src/rx-component.tsx:196-199 | `propSubscriptions.set` makes the key name the fresh subscription and keeps the other keys; an earlier entry for the key is overwritten without being closed |
| Subscriptions.Cancel | src/rx-component.tsx:212-221 | with an entry, exactly that subscription is closed and that entry deleted; without one, nothing changes |
| Subscriptions.CloseAll | src/reactive-x-component.tsx:103-107 | a composite `unsubscribe` closes exactly its members and keeps every entry |
| ReactiveX.Init | src/reactive-x-component.tsx:50-80 | the React state and the subject both start with `obsValues` equal to `defaultState`, empty `basicProps` and empty `prevProps`; the invariant holds |
| ReactiveX.FilterKeys | src/reactive-x-component.tsx:283-288 | the selected keys are exactly the own keys whose value is (or is not) an Observable or subscriber, each once |
| ReactiveX.DifferencesMeaning | src/reactive-x-component.tsx:190-219 | the meaning of `calculateDifferences` including leftovers: leftovers count as current keys; membership of each list (both directions), disjointness, and `changes` |
| ReactiveX.DiffAgainstItself | src/reactive-x-component.tsx:190-219 | the same props twice give three empty lists |
| ReactiveX.AbsentIsRemoved | src/reactive-x-component.tsx:210-212 | a selected previous key missing from the new props is `removed` and in no other list |
| ReactiveX.NewIsAdded | src/reactive-x-component.tsx:198-204 | a newly selected key is `added` |
| ReactiveX.StreamTurnedPlainIsIgnored | src/reactive-x-component.tsx:190-213 | a key whose stream value became a defined plain value is in no list of the Observable pass |
| ReactiveX.Update | src/reactive-x-component.tsx:290-295 | `update` replaces exactly the named fields of the subject and leaves an emission pending when the listener is subscribed |
| ReactiveX.UpdateObservableValue | src/reactive-x-component.tsx:324-334 | a delivered value produces a new `obsValues` object in which only its key changed |
| ReactiveX.AddPropSubscription | src/reactive-x-component.tsx:221-259 | subscribes iff the prop is an Observable, or the instance owns an Observable member of that name and the prop is a subscriber; a success records a fresh open subscription with the right target in `propSubscriptions` and `this.subscriptions`; an attached subscriber is subscribed to the instance's own member of that name; otherwise the key comes back as a leftover and the ledger is unchanged; a declined key is warned about (nothing to subscribe to, or not a subscriber type) exactly when the instance has a member of that name |
| ReactiveX.RemovePropSubscription | src/reactive-x-component.tsx:271-281 | with no entry, only the warning; otherwise exactly that entry and that subscription go |
| ReactiveX.RemoveEach | src/reactive-x-component.tsx:174 | no removed key keeps an entry; the subscriptions they named are closed; all other entries and subscriptions survive unchanged; every warning logged is about a listed key |
| ReactiveX.AddEach | src/reactive-x-component.tsx:176-178 | nothing is closed; entries of other keys stay; every new subscription is fresh and tracked by `this.subscriptions`; without an instance no warning is logged |
| ReactiveX.AddEachSubscribesObservables | src/reactive-x-component.tsx:226-229 | afterwards every Observable-valued key of the list names an open subscription to exactly its Observable |
| ReactiveX.AddEachSkips | src/reactive-x-component.tsx:230-258 | a declined key keeps exactly the entry it had, or none |
| ReactiveX.AddEachFresh | src/reactive-x-component.tsx:226-256 | an Observable key's entry afterwards is one opened by this call |
| ReactiveX.AddEachLeftovers | src/reactive-x-component.tsx:176-178 | the leftovers are exactly the declined keys of the list other than `""`, which `.filter(Boolean)` drops, each once |
| ReactiveX.DeleteEach | src/reactive-x-component.tsx:337-349 | the copy loses exactly the listed keys; `changes` iff a listed key was present; every warning names a listed key, and for a duplicate-free list the warnings are exactly the listed keys absent from it |
| ReactiveX.RemoveObservableKeys | src/reactive-x-component.tsx:336-355 | `obsValues` loses exactly the listed keys it holds; a new object is published iff something was deleted; every warning logged is about a listed key |
| ReactiveX.UpdateObservableProps | src/reactive-x-component.tsx:167-188 | the pass keeps the ledger valid, carries "every Observable prop is followed" from the old props to the new ones, and returns duplicate-free subscriber-class leftovers; `obsValues` loses exactly the `removed` keys, so a `different` key keeps its old value until its new Observable delivers; without an instance, every warning is about a `different` or `removed` key |
| ReactiveX.ObservablePassLeftovers | src/reactive-x-component.tsx:174-187 | the leftovers are exactly the `added` or `different` keys `addPropSubscription` declined, except `""`, which `.filter(Boolean)` drops |
| ReactiveX.ObservablePassForgets | src/reactive-x-component.tsx:174-185 | a vanished stream key loses its entry, its subscription and its `obsValues` value |
| ReactiveX.UpdateOtherProps | src/reactive-x-component.tsx:125-140 | with changes, `basicProps` is replaced by a fresh object holding exactly the `added` and `different` keys; without changes, nothing happens |
| ReactiveX.PlainPassContents | src/reactive-x-component.tsx:121-139 | after a change `basicProps` holds exactly the current plain keys and leftovers that are new or `!==`, so unchanged plain keys drop out |
| ReactiveX.DetectChanges | src/reactive-x-component.tsx:114-123 | `prevProps` becomes the new props; the ledger stays valid and follows every Observable prop; `obsValues` loses exactly the `removed` keys; without an instance, every warning is about a `different` or `removed` key; nothing rendered changes |
| ReactiveX.SubscribeStatics | src/reactive-x-component.tsx:314-322 | each static Observable gets, in order, a fresh open subscription delivering under its key and tracked by `this.subscriptions` |
| ReactiveX.Mount | src/reactive-x-component.tsx:90-101 | after mounting, the listener is subscribed with an emission pending and `prevProps` is the props; nothing is rendered yet |
| ReactiveX.Unmount | src/reactive-x-component.tsx:103-107 | every subscription in `this.subscriptions` and the listener are closed and no emission is pending; `propSubscriptions` is not cleared |
| ReactiveX.Deliver | src/reactive-x-component.tsx:226-229 | a value on an open forwarding subscription updates its key; on an attached or closed one it changes nothing |
| ReactiveX.Flush | src/reactive-x-component.tsx:297-309 | the flush renders iff some partition is a different object from the last one let through, and then renders exactly the subject's partitions |
| ReactiveX.Rendered | src/reactive-x-component.tsx:142-144 | the wrapped component gets all keys of both partitions, and a stream value wins over a plain prop |
| ReactiveX.StepInv | src/reactive-x-component.tsx:90-123 | every lifecycle, delivery or flush event keeps the invariant |
| ReactiveX.UnmountClosesEverything | src/reactive-x-component.tsx:103-107 | unmounting leaves no subscription open at all |
| ReactiveX.DetachedIsSilent | src/reactive-x-component.tsx:103-107 | after unmounting, no sequence of events changes the state |
| ReactiveX.DefaultStateIsKept | src/reactive-x-component.tsx:50-80 | the first render after mounting shows exactly `defaultState` in `obsValues` |
| ReactiveX.NoRenderWithoutFlush | src/reactive-x-component.tsx:297-309 | events other than the flush never change what is rendered |
| ReactiveX.Coalescing | src/reactive-x-component.tsx:297-304 | any burst of updates and deliveries followed by one flush yields at most one `setState`, carrying the last value of both partitions; a second flush does nothing |
| ReactiveX.DeliveryIsRendered | src/reactive-x-component.tsx:324-334 | a delivered value is rendered under its key at the next flush, and nothing else in `obsValues` changes |
| ReactiveX.SamePropsAreQuiet | src/reactive-x-component.tsx:109-112 | `componentDidUpdate` with unchanged props changes nothing but the pending flag, and its flush renders nothing |
| ReactiveX.CancelBeforeResubscribe | src/reactive-x-component.tsx:174-178 | every `different` and `removed` subscription is closed before any new one opens, and stays closed |
| ReactiveX.PassClosesOnlyPreviousStreamEntries | src/reactive-x-component.tsx:167-188 | a subscription not named by a previous stream-class key survives a props update unchanged |
| ReactiveX.StreamTurnedPlainKeepsSubscription | src/reactive-x-component.tsx:190-213 | a key whose stream value became a defined plain value keeps its entry and its open subscription |
| ReactiveX.NewStreamIsSubscribed | src/reactive-x-component.tsx:221-256 | a newly Observable-valued key gets a fresh open subscription to that Observable |
| ReactiveX.MountSubscribes | src/reactive-x-component.tsx:90-101 | mounting with an Observable prop opens a subscription to it under its key |
| ReactiveX.UpdateIsDetectChanges | src/reactive-x-component.tsx:109-112 | an update while mounted is one `detectChanges` and keeps the invariant |
| ReactiveX.DoubleSubscription | src/reactive-x-component.tsx:167-188 | the sequence Observable, then plain value, then Observable under one key leaves two distinct open subscriptions forwarding into that key |
| ReactiveX.RemovedKeyIsForgotten | src/reactive-x-component.tsx:174-185 | a stream key gone from the props loses its entry, its subscription and its value |
| ReactiveX.UnconnectedFunctionIsPassedThrough | src/reactive-x-component.tsx:230-258 | a function prop with no reference instance, under a key that held no Observable or subscriber before, is not subscribed and no warning about it is logged; it reaches `basicProps` at its value unless its key is `""`, in which case `basicProps` never gets it and an old value stays as it was |
| ReactiveX.ReplacedFunctionWarns | src/reactive-x-component.tsx:271-276 | a function prop replaced by another function with no instance is `different`, so `removePropSubscription` finds no entry and logs "no subscription found" for it |
| ReactiveX.UnconnectedFunctionIsLeftover | src/reactive-x-component.tsx:176-178 | such a function prop has no entry, and it is a leftover iff its key is not `""` |
| ReactiveX.LeftoversArePassedOn | src/reactive-x-component.tsx:125-139 | every leftover lands in `basicProps` at its current value |
| RxComponent.FilterKeys | src/rx-component.tsx:223-228 | the selected keys are exactly the own keys whose value is (or is not) an Observable or function, each once |
| RxComponent.DifferencesMeaning | src/rx-component.tsx:137-163 | membership of each list (both directions), disjointness, and `changes` iff some list is non-empty |
| RxComponent.DiffAgainstItself | src/rx-component.tsx:137-163 | the same props twice give three empty lists |
| RxComponent.ObserverGoesToPlainPass | src/rx-component.tsx:223-228 | an observer object is never in the stream pass; it reaches the plain pass's `added` or `different` iff it is a new value for its key |
| RxComponent.Update | src/rx-component.tsx:230-235 | `update` replaces exactly the named fields and leaves an emission pending when the listener is subscribed |
| RxComponent.UpdateData | src/rx-component.tsx:175-180 | a delivered value produces a new `data` object in which only its key changed |
| RxComponent.AddPropSubscription | src/rx-component.tsx:169-200 | subscribes iff the prop is an Observable, or is subscribable and the instance owns an Observable member of that name; the new subscription is recorded under the key; otherwise nothing changes |
| RxComponent.RemovePropSubscription | src/rx-component.tsx:212-221 | with an entry, exactly that entry is deleted and exactly that subscription closes, and nothing else changes; without one, nothing changes at all |
| RxComponent.RemoveEach | src/rx-component.tsx:131 | no listed key keeps an entry; their subscriptions are closed; everything else survives unchanged |
| RxComponent.AddEach | src/rx-component.tsx:132 | nothing is closed; entries of other keys stay; every new entry and subscription is fresh |
| RxComponent.AddEachSubscribesObservables | src/rx-component.tsx:173-181 | afterwards every Observable-valued key names an open subscription to exactly its Observable |
| RxComponent.AddEachSkips | src/rx-component.tsx:182-199 | a declined key keeps exactly the entry it had, or none |
| RxComponent.SubscribeToProps | src/rx-component.tsx:125-135 | the pass keeps entries pointing at open subscriptions and carries "every Observable prop is followed" from the old props to the new ones |
| RxComponent.UpdateOtherProps | src/rx-component.tsx:91-102 | with changes, `props` is replaced by a fresh object holding exactly the `added` and `different` plain keys; without changes, nothing happens |
| RxComponent.PlainPropsArePlain | src/rx-component.tsx:91-102 | a replaced `props` holds only non-stream current values, so function props never reach it |
| RxComponent.TriggerUpdate | src/rx-component.tsx:83-89 | `prevProps` becomes the props; `data` is untouched; the ledger invariants and "every Observable prop is followed" carry over |
| RxComponent.Init | src/rx-component.tsx:46-61 | the React state starts with `defaultState`, but the subject's `data` starts empty; the invariant holds |
| RxComponent.SubscribeStatics | src/rx-component.tsx:248-260 | each static Observable gets, in order, a fresh open subscription delivering under its key, and exactly those join `staticSubscriptions` |
| RxComponent.Mount | src/rx-component.tsx:63-69 | after mounting, the listener is subscribed with an emission pending and `prevProps` is the props; nothing is rendered yet |
| RxComponent.Unmount | src/rx-component.tsx:71-76 | the listener and every static subscription are closed, no emission is pending, `staticSubscriptions` is empty and `prevProps` is `{}` |
| RxComponent.Deliver | src/rx-component.tsx:175-180 | a value on an open forwarding subscription updates its key; otherwise nothing changes |
| RxComponent.Flush | src/rx-component.tsx:237-246 | the flush renders iff `data` or `props` is a different object from the last one let through, and then renders exactly the subject's |
| RxComponent.Rendered | src/rx-component.tsx:104-106 | the wrapped component gets all keys of both partitions, and a `data` value wins over a plain prop |
| RxComponent.StepInv | src/rx-component.tsx:63-89 | every event keeps the invariant |
| RxComponent.DefaultStateIsDropped | src/rx-component.tsx:46-61 | the first render after mounting shows an empty `data`, whatever `defaultState` was |
| RxComponent.NoRenderWithoutFlush | src/rx-component.tsx:237-243 | events other than the flush never change what is rendered |
| RxComponent.Coalescing | src/rx-component.tsx:237-243 | any burst of updates and deliveries followed by one flush yields at most one `setState`, carrying the last `data` and `props`; a second flush does nothing |
| RxComponent.DeliveryIsRendered | src/rx-component.tsx:175-180 | a delivered value is rendered under its key at the next flush, and nothing else in `data` changes |
| RxComponent.UpdateKeepsStreamValues | src/rx-component.tsx:83-102 | a props update never touches `data`, so every stream value stays rendered, even when its key has left the props |
| RxComponent.SamePropsAreQuiet | src/rx-component.tsx:78-81 | `componentDidUpdate` with unchanged props changes nothing but the pending flag, and its flush renders nothing |
| RxComponent.CancelBeforeResubscribe | src/rx-component.tsx:131-132 | every `different` and `removed` subscription is closed before any new one opens, and stays closed |
| RxComponent.TriggerUpdateCloses | src/rx-component.tsx:125-135 | an open subscription closes iff an entry of a `different` or `removed` key names it; the survivors are unchanged |
| RxComponent.StreamTurnedPlainKeepsSubscription | src/rx-component.tsx:137-157 | a key whose stream value became a defined plain value keeps its entry and its open subscription |
| RxComponent.UnmountCloses | src/rx-component.tsx:71-76 | unmounting closes an open subscription iff it is static or named by an entry of a stream-class key of the last props |
| RxComponent.MountSubscribes | src/rx-component.tsx:63-69 | mounting with an Observable prop opens a subscription to it under its key |
| RxComponent.UpdateIsTriggerUpdate | src/rx-component.tsx:78-81 | an update while mounted is one `triggerUpdate` and keeps the invariant |
| RxComponent.UnmountKeeps | src/rx-component.tsx:71-76 | a subscription left open by unmounting is unchanged |
| RxComponent.LeakAfterUnmount | src/rx-component.tsx:71-89 | the sequence mount with an Observable, update to a plain value, unmount leaves the subscription to the Observable open after unmount |
| RxComponent.DetachedNeverRenders | src/rx-component.tsx:71-76 | after unmounting nothing is rendered again |
| RxComponent.UnconnectedFunctionIsDropped | src/rx-component.tsx:169-200 | a function prop with no Observable counterpart gets no entry and is never handed to the wrapped component; a plain value its key held before can stay in `props`, but only unchanged |
| RxComponent.ObserverPropIsPassedOn | src/rx-component.tsx:223-228 | a new observer-object prop reaches `props` at its value, and its key's entry is untouched: present iff it was, naming the same subscription |
| Logger.LevelsStrictlyOrdered | src/logger.ts:3-9 | `None < Error < Warning < Info < Debug`, and no two levels share a value |
| Logger.EmittedAtHigherThresholds | src/logger.ts:36-38 | a message emitted at one threshold is emitted at every higher one |
| Logger.SuppressedAtLowerThresholds | src/logger.ts:36-38 | a message dropped at one threshold is dropped at every lower one |
| Logger.Write | src/logger.ts:35-48 | nothing is written iff `logLevel < level`; otherwise one line on the method's channel, with its colour and the items unchanged, whose head starts with the prefix |
| Logger.LogIsNeverSuppressed | src/logger.ts:31-33 | `log` writes at every threshold |
| Logger.DefaultIsSilent | src/logger.ts:13-33 | with the default threshold every method except `log` is silent |
| Logger.OnlyWarningGetsASpace | src/logger.ts:15-42 | `[WARNING]` is the only prefix of 8 characters or more, so only `warning` is separated by a space instead of a tab |
| Logger.DecVal | src/logger.ts:44 | the decimal text of a number spells that number |
| Logger.PadDigits | src/logger.ts:44 | with a positive width, `f` gives exactly that many digits, spelling the number modulo 10 to the width |
| Logger.PadSmall | src/logger.ts:44 | a number below 10 to the width comes out as its decimal text with zeros in front |
| Logger.PadZeroWidth | src/logger.ts:44 | `f(nb, 0)` is the whole decimal text, because `slice(-0)` cuts nothing |
| Logger.ClockShape | src/logger.ts:45 | the bracketed clock part is 14 characters long; its fields spell hours, minutes and seconds mod 100 and milliseconds mod 1000 |
| Logger.HeadShape | src/logger.ts:42-47 | an emitted head is the prefix, the separator, the clock part and the separator again |

## Where the code departs from its evident intent

The model follows the code in each of these cases.

- **Plain props are replaced.** A pass with changes sets `basicProps` (or `props`) to a new
  object. That object holds only the `added` and `different` keys. It does not hold the
  current plain keys in full, so an unchanged plain prop disappears from the rendered props
  whenever another plain prop changes (`ReactiveX.PlainPassContents`).
- **A stream key that turns plain keeps its subscription.**
  - Both variants select the keys of the stream pass by the current classification, so such
    a key is in no list of that pass (`ReactiveX.StreamTurnedPlainKeepsSubscription`).
  - In `reactive-x-component.tsx`, turning the key back into an Observable opens a second
    live subscription for the same key (`ReactiveX.DoubleSubscription`). The code evidently
    means one subscription per key: `propSubscriptions` maps a key to one subscription, and
    `updateObservableProps` cancels a key's subscription before subscribing it anew
    (src/reactive-x-component.tsx:174-178). The old subscription is left open and untracked.
  - In `rx-component.tsx`, prop subscriptions are not part of `staticSubscriptions`, so such a
    subscription survives unmounting (`RxComponent.LeakAfterUnmount`).
    `componentWillUnmount` calls `triggerUpdate({})` (src/rx-component.tsx:73), evidently so
    that every prop subscription is cancelled as `removed`; this one is missed. The other
    variant's unmount announces "Unsubscribing from all Observables"
    (src/reactive-x-component.tsx:104).
- **Removed stream values.** `rx-component.tsx` never deletes a removed stream key from
  `data` (`RxComponent.UpdateKeepsStreamValues`). `reactive-x-component.tsx` deletes it, and
  warns when it is absent.
- **Unconnected subscribers.**
  - `reactive-x-component.tsx` returns an unconnected function prop as a leftover, which is
    then passed on as a plain prop. When no instance is present it logs no warning for a
    function under a key that held no Observable or subscriber before
    (`ReactiveX.UnconnectedFunctionIsPassedThrough`). When one function replaces another,
    the key is `different`, and the attempt to cancel its non-existent subscription logs
    "no subscription found" (`ReactiveX.ReplacedFunctionWarns`). Under the key `""` it is lost
    instead, because `.filter(Boolean)` drops that leftover.
  - `rx-component.tsx` drops such a prop entirely, also without a warning
    (`RxComponent.UnconnectedFunctionIsDropped`).
- **Observer objects in `rx-component.tsx`.** Observer objects are classified as plain by
  `filterKeys`, so they are never subscribed through the stream pass
  (`RxComponent.ObserverGoesToPlainPass`).
- **`defaultState` in `rx-component.tsx`.** It only seeds the React state. The subject starts
  with empty `data`, so the first render replaces the default values
  (`RxComponent.DefaultStateIsDropped`). In `reactive-x-component.tsx` it is kept
  (`ReactiveX.DefaultStateIsKept`).

## Left out

- React itself is not modelled: JSX, `createRef`, `isFunctionComponent` / `isClassComponent`
  and the render tree.
  - The reference instance is a parameter (`Instance`).
  - `render` is modelled only as the props it hands on (`Rendered`).
- Only the order of the timers is modelled. `debounceTime(0)` is a pending flag cleared by an
  explicit flush event, and no clock is modelled.
- A synchronous first emission during `subscribe` is modelled as a separate delivery event
  right after the step that subscribed.
- Stream completion and errors are not modelled: subscriptions only deliver values.
- The TypeScript prop-typing machinery is not modelled; it has no run-time effect.
- `info` and `debug` calls of the components are not modelled, because they have no effect
  on state. `ReactiveX` records its `logger.warning` calls as a list of `Warning` values.
  `Logger` models what such a call writes.
- Chalk colouring, `new Date()` and `console` are not modelled.
  - The colour is carried as a value, and the clock reading is a parameter (`Time`).
  - `Write` returns the console call instead of making it.
  - The items of a call are modelled as strings.
- ReactiveX.IsSubscriberType: requires a non-null value. On `null` the source throws, because
  it calls `null.hasOwnProperty`, so props holding `null` are excluded from every
  `ReactiveX` operation and from `ReactiveX.Step` (`Admissible`) instead of being modelled
  as a crash.
- RxComponent.Mount: takes the static props as a list. When `staticProps` is omitted,
  `subscribeToStaticProps` throws on `Object.keys(undefined)`; that crash is not modelled.
- Logger.Pad: takes a natural number. The source accepts any number, but every caller passes
  a clock field, which is never negative or fractional.
- The lifecycle is restricted to the host's order:
  - mount only from the unmounted phase;
  - updates only while mounted;
  - unmount only while mounted.

  Other events in other phases leave the state unchanged.
- Keys naming members that a plain object inherits from `Object.prototype` are not modelled:
  `toString`, `constructor`, `valueOf`, `hasOwnProperty` and the like. `Get` reads `obj[key]`
  as own properties only. In the source, `typeof currProps[key]` for such a key is not
  `'undefined'` even after the prop is gone. So a stream prop under such a name is never
  `removed`: its subscription stays open, and `ReactiveX` keeps its value. This also holds at
  `RxComponent`'s unmount. `ReactiveX.AbsentIsRemoved`, `ReactiveX.ObservablePassForgets`,
  `ReactiveX.RemovedKeyIsForgotten` and `RxComponent.UnmountCloses` hold only for the other
  keys.
- `NaN` props are not modelled. `NaN !== NaN` would make such a prop `different` on every
  pass, but values here compare by identity, as objects do.
