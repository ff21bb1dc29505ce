# Dependency tracking of a small MVVM engine, in Dafny

This project models the reactive core shared by `two-way/mvvm.js` and
`one-way/mvvm.js`. Lines 1-120 of the two files are identical, so the core is
modelled once and cited from both. The core has three parts.

- **`Observe(data)`** walks a data object with `for … in`. It replaces every
  property with a getter/setter pair that closes over the value and owns a
  fresh `Subject`, and it recurses into object-valued properties. The getter
  subscribes the ambient `currentObserver`, if one is set, to the property's
  Subject. The setter stores the new value and calls `notify()` with no
  equality check.
- **`Subject`** draws its `id` from a module-level counter. It keeps an
  ordered `observers` array:
  - `addObserver` pushes unconditionally;
  - `removeObserver` splices out the first match;
  - `notify` runs `update()` on each entry with `forEach`.
- **`Observer`** remembers its last `value` and a `subjects` record keyed by
  Subject id:
  - `getValue()` takes the `currentObserver` slot, reads `vm.$data[key]`, and
    clears the slot;
  - `update()` re-reads and calls `cb(new, old)` only when `new !== old`;
  - `subscribeTo()` registers at most once per Subject id.

The model has two layers.

- **Module `Tracking`** describes the core as a state machine over one value,
  `State`. The state holds:
  - the data objects, each with its list of keys (no key twice), in the
    order `Observe` visits them;
  - a property table: plain, or intercepted with its closed-over value and
    its Subject;
  - every Subject's observer list and the `id` counter;
  - the `currentObserver` slot;
  - every Observer's record;
  - the log of callbacks fired so far.

  Each operation of the source is a function with a contract. Module
  `TrackingFacts` proves the behavioural promises about these functions as
  lemmas. Module `SubjectLists` covers the array operations on one observer
  list.
- **Class `Reactive.Engine`** holds the same state in mutable fields and
  updates it in place, as the source does. `Notify` is a `while` loop over
  the live observer list whose length is fixed at the start, as `forEach`
  fixes it. `ConvertObject` is the `for … in` loop of `Observe`, and `ConvertKey` is one
  iteration of it, with its recursion. The constructor builds the initial
  state. Every other method is proved to leave exactly the state the
  matching `Tracking` function describes
  (`Model() == Tracking.F(old(Model()), …)`), so every lemma of
  `TrackingFacts` also holds of the engine.

Module `Scenarios` is a client of the engine. It converts `{ count: 0 }`,
binds an Observer to `count`, and writes 5, 5 and 6.

Values are an abstract datatype: `undefined`, `null`, booleans, integers,
strings, and references to data objects. Datatype equality stands for
`===`/`!==`: primitives are compared by value and objects by identity. Each
callback is recorded as a `Fired(observer, new, old)` entry in the log instead
of being run. Observers are identified by numbers that the
model hands out in creation order (`observerCount`). These numbers stand for
JavaScript object identity.

## Model

| member | source | states |
|---|---|---|
| SubjectLists.IndexOf | two-way/mvvm.js:51 | `indexOf` gives -1 exactly when the observer is absent; otherwise it gives the first index holding it. |
| SubjectLists.RemovedFirst | one-way/mvvm.js:59-64 | Absent observer: the list is unchanged. Present: exactly the first occurrence is cut out, the list is one shorter, every other entry stays in order and the multiset loses one copy. |
| SubjectLists.Added | two-way/mvvm.js:50-53 | `push` appends at the end whatever the list holds: the result is one longer, the old list is its prefix and the observer is its last entry. The `indexOf` result is never used. |
| SubjectLists.AddedCountsOneMore | one-way/mvvm.js:50-53 | No duplicate check: the observer is counted once more, already listed or not, and every other observer's count stays. |
| SubjectLists.AddedTwiceDuplicates | one-way/mvvm.js:50-53 | Two direct `addObserver` calls list the observer twice more: nothing prevents duplicates. |
| SubjectLists.RemovedFirstUndoesAdded | two-way/mvvm.js:50-64 | If the observer was not listed, `removeObserver` after `addObserver` gives back the original list. |
| SubjectLists.RemovedFirstKeepsLaterCopies | one-way/mvvm.js:59-64 | With two or more copies listed, one `removeObserver` leaves the observer still listed. |
| Tracking.NewSubject | two-way/mvvm.js:39-44 | `new Subject()` takes id `++id`. The id is above every earlier one, is not yet in use, and starts with an empty list. Nothing else changes. |
| Tracking.AddObserver | one-way/mvvm.js:50-53 | `addObserver(o)` appends `o` to that Subject's list and changes nothing else. |
| Tracking.RemoveObserver | two-way/mvvm.js:59-64 | `removeObserver(o)` changes only that Subject's list, which becomes exactly `SubjectLists.RemovedFirst` of it: a no-op when `o` is absent, otherwise the first occurrence spliced out. The state stays valid. |
| Tracking.SubscribeTo | two-way/mvvm.js:113-119 | Already recorded: a no-op. Otherwise `o` is appended to the Subject's list and the id is added to `subjects`. Either way the id is recorded afterwards, and the data, the slot and the log are unchanged. |
| Tracking.Get | two-way/mvvm.js:17-23 | A read returns the stored value (`undefined` for a key neither the object nor `Object.prototype` holds). With `currentObserver` unset, or on a plain property, it changes nothing. Otherwise it is exactly `subscribeTo` of the current observer to the property's Subject. |
| Tracking.GetValue | one-way/mvvm.js:90-95 | Afterwards the slot is empty. The result is the value stored for `vm.$data[key]`. The observer is subscribed to exactly that key's Subject, and appended only if it was not subscribed already. Other observers, the remembered value and the log are unchanged. |
| Tracking.Update | two-way/mvvm.js:100-107 | When the re-read value differs (`!==`) from the remembered one, the log gains exactly `(new, old)` and `value := new`. Otherwise neither the log nor `value` changes. The re-read re-subscribes exactly as `Tracking.GetValue` does: the Subject lists and the observer's `subjects` record are those `getValue()` leaves, and its key stays. Other observers are untouched, and the slot is empty. |
| Tracking.NotifyList | two-way/mvvm.js:69-74 | A pass over a list of observers changes no data or ids. Lists and log only grow at their ends. Observers not in the list are unchanged, and every new callback comes from a listed observer. |
| Tracking.Notify | one-way/mvvm.js:69-74 | `notify()` keeps the state valid and only appends to lists and log. The data, ids and bindings stay. Observers not on the Subject's list are unchanged, and every new callback comes from a listed observer. |
| Tracking.Stored | two-way/mvvm.js:25 | `val = newVal` alone: the intercepted property reads the new value and keeps its Subject, and nothing else changes. |
| Tracking.Assign | two-way/mvvm.js:24-27 | After `obj[key] = v` the property reads `v` and keeps its Subject, or its lack of one. Every other property is unchanged, so an assigned object is not converted. A plain or missing property notifies nobody: the result is the old state with only that property set to the plain value `v` (a missing key appended to the object's key list), so `currentObserver`, the lists, the observers, the log and every other object are unchanged. On an intercepted property the result is exactly `Notify` of its Subject run on the state `Stored` leaves: the value is stored first, then `notify()` runs. Observers not listed there are unchanged, and every callback comes from that list. |
| Tracking.Intercept | two-way/mvvm.js:10-28 | `new Subject()` and the accessor pair of one `for … in` iteration (the recursion is in `Tracking.ObserveKey`): a fresh Subject `lastId + 1`, and the property becomes an accessor pair over its current value. The state stays valid and is a conversion step. |
| Tracking.ObserveKeys | two-way/mvvm.js:10-33 | The `for … in` loop from key `i` on keeps the state valid and is a conversion step: same data, keys and values; each property either unchanged or intercepted by a Subject issued during the loop; old lists kept, new ones empty; observers, slot and log unchanged. |
| Tracking.ObserveKey | one-way/mvvm.js:12-32 | One iteration, `new Subject()`, accessor pair and recursion into an object value, is a conversion step that keeps the state valid. |
| Tracking.ObserveKeysStep | two-way/mvvm.js:10 | The loop from key `i` on is iteration `i` followed by the loop from key `i + 1` on; the data objects stay. |
| Tracking.Observe | two-way/mvvm.js:7-8 | `Observe(data)` keeps the state valid and is a conversion step. On a non-object it changes nothing. |
| Tracking.NewObserver | one-way/mvvm.js:79-85 | The new Observer has a fresh identity and remembers the current value of `vm.$data[key]`. The slot is empty afterwards. The Observer is subscribed to exactly that key's Subject, or to nothing for a plain key. The data, other observers and the log are unchanged. |
| TrackingFacts.SubscribeToIdempotent | one-way/mvvm.js:113-119 | A second `subscribeTo` with the same Subject leaves everything as the first left it. |
| TrackingFacts.RemovedObserverStaysRemoved | two-way/mvvm.js:59-64 | `removeObserver` does not clear the Observer's `subjects` record. An Observer removed from its key's Subject is not re-listed there by its next `getValue()`. |
| TrackingFacts.UpdateIdempotent | two-way/mvvm.js:100-107 | After `update()` the observer holds the current value, and a second `update()` changes nothing. |
| TrackingFacts.NotifyFiresInOrder | two-way/mvvm.js:69-74 | A pass over a list of distinct observers appends exactly the reference sequence `Fires`: one `(new, old)` per observer whose value changed, in list order. |
| TrackingFacts.SettledPassFiresNothing | one-way/mvvm.js:69-74 | A pass over observers that all hold current values fires nothing and changes no remembered value. |
| TrackingFacts.UnchangedWriteStillNotifies | two-way/mvvm.js:24-27 | The setter has no equality check. Writing back the stored value is exactly a full `notify()` of the property's Subject. |
| TrackingFacts.UnchangedWriteFiresNothing | one-way/mvvm.js:24-27 | When every subscriber already holds the value, writing that value again fires no callback. Change suppression happens in `update()`. |
| TrackingFacts.IndependenceAcrossSlots | one-way/mvvm.js:12 | Each property has its own Subject. A new Observer on `root[b]` is untouched by a write to any other property, including a nested one: no callback for it and no change to its record. |
| TrackingFacts.NewObserverSoleSubscriber | one-way/mvvm.js:79-95 | An Observer created on a freshly converted property holds its value, is its only subscriber and has recorded its Subject. |
| TrackingFacts.WriteToSoleSubscriber | two-way/mvvm.js:24-27 | Writing `v` to the property of its sole subscriber fires `(v, old)` exactly when `v !== old`. Afterwards the Observer remembers `v` and stays the sole subscriber on the same key. |
| TrackingFacts.AssignFiresReference | two-way/mvvm.js:24-27 | A write to an intercepted property whose list has no duplicates appends exactly `Fires` of that list, computed on the state after the value is stored. |
| TrackingFacts.OnlyFires | two-way/mvvm.js:71-73 | In a reference pass over a list without duplicates an observer receives exactly its own callback if it is listed, and nothing otherwise. |
| TrackingFacts.PassSettles | one-way/mvvm.js:69-74 | After a pass, every observer it visited holds the value its key now holds. |
| TrackingFacts.UpdateKeepsSettled | two-way/mvvm.js:100-107 | `update()` of one observer leaves every other observer that holds its key's value still holding it. |
| TrackingFacts.WriteLogFor | two-way/mvvm.js:24-27 | For any observer of the key listed on its duplicate-free list, a write of `v` sends it exactly `(v, old)` when `v !== old`, and nothing otherwise. |
| TrackingFacts.WriteSettlesFor | one-way/mvvm.js:24-27 | After a write, every listed observer of the key keeps its binding and remembers the new value. |
| TrackingFacts.WriteFiresFor | two-way/mvvm.js:24-27 | In a registered state, one write keeps the state registered and the Subject's list unchanged. Any listed observer of the key gets exactly `(v, old)` when `v !== old` and then remembers `v`. |
| TrackingFacts.WriteThenWrite | one-way/mvvm.js:100-107 | In a registered state, any listed observer of the key sees `(X, old)` and then `(Y, X)` from writing `X` and then `Y` (each a change), and no other callback of its own. |
| TrackingFacts.WriteSameTwice | one-way/mvvm.js:24-27 | In a registered state, writing the same value twice in a row sends any listed observer of the key at most one callback: once if it differs from the remembered value, never otherwise. |
| TrackingFacts.SubscribeToRegistered | two-way/mvvm.js:113-119 | `subscribeTo` keeps the state registered: every list duplicate-free, and every listed observer holding the list's id in `subjects`. It appends only an observer that has not recorded the Subject. |
| TrackingFacts.GetRegistered | one-way/mvvm.js:17-23 | The getter keeps the state registered. |
| TrackingFacts.GetValueRegistered | two-way/mvvm.js:90-95 | `getValue()` keeps the state registered and leaves unchanged every list the observer is already on. |
| TrackingFacts.UpdateRegistered | one-way/mvvm.js:100-107 | `update()` keeps the state registered and leaves unchanged every list the observer is already on. |
| TrackingFacts.NotifyRegistered | two-way/mvvm.js:69-74 | `notify()` keeps the state registered and leaves its own Subject's list as it was. |
| TrackingFacts.AssignRegistered | one-way/mvvm.js:24-27 | A write keeps the state registered and the written property's list as it was. |
| TrackingFacts.NewSubjectRegistered | two-way/mvvm.js:41-44 | `new Subject()` keeps the state registered. |
| TrackingFacts.RemoveObserverRegistered | one-way/mvvm.js:59-64 | `removeObserver` keeps the state registered. |
| TrackingFacts.NewObserverRegistered | two-way/mvvm.js:79-85 | `new Observer(...)` keeps the state registered. |
| TrackingFacts.ObserveRegistered | one-way/mvvm.js:7-33 | `Observe` keeps the state registered. |
| TrackingFacts.AddObserverBreaksRegistered | two-way/mvvm.js:50-53 | A direct `addObserver` of an observer already listed breaks registration: it is the one operation that can list an observer twice. |
| TrackingFacts.DeepFreshStable | two-way/mvvm.js:30-32 | An object graph whose properties all carry Subjects issued after a given id stays so when later iterations intercept more properties. |
| TrackingFacts.ObserveFresh | one-way/mvvm.js:10-32 | After `Observe(data)` every property of `data`, and of every object reachable from it, is intercepted by a Subject issued by this call, so with a fresh id, also a property intercepted before. |
| TrackingFacts.ReachesStable | two-way/mvvm.js:30-32 | Interception keeps every value, so it keeps which objects are reachable. |
| TrackingFacts.ObserveFrame | one-way/mvvm.js:7-33 | `Observe(data)` changes no property of an object that `data` does not reach. |
| Reactive.Engine.constructor | two-way/mvvm.js:39 | A fresh engine over plain data: `id = 0`, `currentObserver` unset, no Subjects, no Observers, empty log, and a valid state. |
| Reactive.Engine.NewSubject | one-way/mvvm.js:41-44 | The in-place `new Subject()` leaves exactly the state `Tracking.NewSubject` describes and returns its id. |
| Reactive.Engine.AddObserver | two-way/mvvm.js:50-53 | The in-place `push` (with the unused `indexOf`) is `Tracking.AddObserver`. |
| Reactive.Engine.RemoveObserver | one-way/mvvm.js:59-64 | The in-place `indexOf` + `splice(index, 1)` is `Tracking.RemoveObserver`. |
| Reactive.Engine.Notify | two-way/mvvm.js:69-74 | The `forEach` loop over the live list, with its length fixed at the start, is exactly `Tracking.Notify` over the list as it was when the call began. |
| Reactive.Engine.UpdateListed | one-way/mvvm.js:71-73 | One call of the `forEach` callback: `update()` on entry `i` extends the pass by that entry. |
| Reactive.Engine.SubscribeTo | one-way/mvvm.js:113-119 | The guarded in-place registration is `Tracking.SubscribeTo`. |
| Reactive.Engine.Get | two-way/mvvm.js:17-23 | The getter, run on the engine, is `Tracking.Get` in both state and result. |
| Reactive.Engine.GetValue | two-way/mvvm.js:90-95 | Set the slot, read, clear the slot: the result is `Tracking.GetValue`. |
| Reactive.Engine.Update | one-way/mvvm.js:100-107 | The in-place `update()` is `Tracking.Update`. |
| Reactive.Engine.NewObserver | two-way/mvvm.js:79-85 | The constructor, run on the engine, is `Tracking.NewObserver` in both state and identity. |
| Reactive.Engine.Set | one-way/mvvm.js:24-27 | The setter or a plain assignment, run on the engine, is `Tracking.Assign`. |
| Reactive.Engine.Observe | two-way/mvvm.js:7-8 | The in-place `Observe(data)` leaves exactly the state `Tracking.Observe` describes. |
| Reactive.Engine.ConvertObject | one-way/mvvm.js:10-33 | The in-place `for … in` loop over one object leaves exactly the state `Tracking.ObserveKeys` from key 0 describes. |
| Reactive.Engine.ConvertKey | two-way/mvvm.js:12-32 | One in-place iteration, `new Subject()`, accessor pair and recursion, is exactly `Tracking.ObserveKey`. |
| Scenarios.Counter | two-way/mvvm.js:78-107 | On `{ count: 0 }`, an Observer bound to `count` starts at 0. The writes 5, 5, 6 fire exactly `(5, 0)` and `(6, 5)`. |
| Scenarios.CounterWrites | one-way/mvvm.js:24-27 | The three writes of `Counter`, stated on the state machine, append exactly `(5, 0)` and `(6, 5)` to an empty log. |
| Scenarios.LaterWrites | one-way/mvvm.js:100-107 | Writing 5 again and then 6 while the Observer remembers 5 adds only `(6, 5)`. |
| Scenarios.CountWrite | two-way/mvvm.js:24-27 | One write of `v` to the sole subscriber's key while it remembers `was` appends `(v, was)` exactly when they differ. The Observer keeps its key and remembers `v`. |

## Left out

- The DOM side (`Compile`, `traverse`, `compileNode`, `renderText`, `isDirective`), `Mvvm` bootstrapping, the click, input and timer handlers, and the demo data. They are consumers of the core, and they are I/O.
- `console.log` calls in `notify` and in `subscribeTo`: logging only. The getter's `console.log` is left out too, but it is not only logging; see the next line.
- Tracking.GetValue: the getter's log line (two-way/mvvm.js:18, one-way/mvvm.js:18) turns the closed-over value into text. For an array value this joins the elements, and so reads every element through the accessors `Observe` installed on the array, and through those of any array nested in it. During `getValue()` each such read runs `subscribeTo` for the current observer. So an Observer bound to `list` in `{ list: [1, 2] }` is listed on the Subjects of both elements and of `list`, and records three ids. The model does not perform this read: Tracking.Get, Tracking.GetValue and Tracking.NewObserver subscribe the observer to the bound property's Subject only. A later write to an element then runs that Observer's `update()` in the source but not in the model; the callback log is the same, because `update()` re-reads the same array reference, but the Subject lists differ. Primitives turn into text without reading any property, and a plain object without reading any intercepted property unless it has its own `toString` or `valueOf` key, whose getter then subscribes the current observer in the same way.
- The callbacks themselves. Each call `cb.apply(vm, [value, oldVal])` is recorded as a log entry. A callback that writes back into the data (re-entrant notification) is not modelled.
- JavaScript values beyond primitives and object references: functions, floating point (`NaN !== NaN`), `Date` objects. Arrays count as objects with keys, apart from the element reads described under Tracking.GetValue above.
- Tracking.Get: a key that the object lacks reads `undefined` in the model. In the source a key that `Object.prototype` holds (`constructor`, `toString`, …) reads that inherited member instead, with no subscription.
- `for … in` over inherited enumerable properties. The model visits an object's own keys in a fixed order.
- Tracking.Assign: a missing key is appended at the end of the object's key list (as is Reactive.Engine.Set). JavaScript's `for … in` visits integer-like keys first, in ascending order, so the list is the source's enumeration order only at conversion. `Observe` runs only at start-up, before any assignment, so nothing in the model reads the order after that.
- Reactive.Engine.Observe: requires the data to be acyclic, witnessed by a ghost `rank`. On cyclic data the source's recursion overflows the stack, and the `RangeError` this throws escapes the `Mvvm` constructor. The rank is demanded of every object in the heap, not only of those `data` reaches; this is stronger than the source needs for an unrelated cyclic object.
- Tracking.Observe: the same `rank` requirement, and the same requirement that `currentObserver` is unset.
- Reactive.Engine.Observe: requires `currentObserver` to be unset. The source only calls it that way, and a getter read during a conversion then subscribes nobody.
- TrackingFacts.WriteThenWrite: the general write lemmas (also WriteFiresFor, WriteSameTwice) assume a registered state: every list duplicate-free and every listed observer knowing its Subject. All operations except a direct `addObserver` keep that, as the registration lemmas show. A direct `addObserver` of a listed observer can duplicate it, and then one write calls its `update()` twice; the sole-subscriber lemmas and `NotifyFiresInOrder` cover the other cases.
- Tracking.Assign: the set of data objects is fixed when the engine is built. An object value written later (as Reactive.Engine.Set also requires) must already be one of them, and no operation allocates a data object. A freshly built object assigned in the source (`$data.x = { … }`) is represented only by passing it, plain and not reachable from `$data`, to the constructor.
- Observer and Subject objects are records held by the engine, identified by numbers. `vm` is the `$data` object an Observer reads from, and `cb` is the observer's id in the log.
