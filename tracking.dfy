/**
 * The dependency-tracking core as a state machine over values: the converted
 * data objects, every Subject's observer list, the `id` counter, the
 * `currentObserver` slot, every Observer's record and the callbacks fired so
 * far. Each function is one operation of the source; the class in module
 * Reactive performs the same operations in place and is proved equal to them.
 */
module Tracking {
  import opened Values
  import SubjectLists

  /** One property of one data object: `obj[key]`. */
  datatype Slot = Slot(obj: ObjId, key: Key)

  /**
   * What a property holds: a plain data field, or (after `Observe`) the
   * accessor pair whose closure keeps `value` and the property's own Subject.
   */
  datatype Prop = Plain(value: Value) | Tracked(value: Value, subject: SubjectId)

  /** An Observer: `vm.$data` (root), `key`, the last value and the ids in `this.subjects`. */
  datatype ObserverRec = ObserverRec(root: ObjId, key: Key, value: Value, subjects: set<SubjectId>)

  /** One call `cb(newVal, oldVal)` made by `update()`. */
  datatype Event = Fired(observer: ObserverId, newVal: Value, oldVal: Value)

  datatype State = State(
    objects: map<ObjId, seq<Key>>,                // each data object's keys, in the order `Observe` visits them
    slots: map<Slot, Prop>,                        // each data object's properties
    lists: map<SubjectId, seq<ObserverId>>,        // each Subject's `observers`
    lastId: nat,                                   // the module-level `id` counter
    current: Option<ObserverId>,                   // `currentObserver`
    observers: map<ObserverId, ObserverRec>,
    observerCount: nat,                            // allocator for fresh Observer identities
    log: seq<Event>)                               // the callbacks fired so far, oldest first

  /** The slot table and the key lists agree, no object lists a key twice, and every object reference points to an object. */
  ghost predicate HeapOk(objects: map<ObjId, seq<Key>>, slots: map<Slot, Prop>)
  {
    && (forall p :: p in slots ==> p.obj in objects && p.key in objects[p.obj])
    && (forall o, i, j :: o in objects && 0 <= i < j < |objects[o]| ==> objects[o][i] != objects[o][j])
    && (forall o, k :: o in objects && k in objects[o] ==> Slot(o, k) in slots)
    && (forall p :: p in slots && slots[p].value.Obj? ==> slots[p].value.ref in objects)
  }

  /** Every intercepted property has its own Subject, and every Subject id was issued by the counter. */
  ghost predicate SubjectsOk(slots: map<Slot, Prop>, lists: map<SubjectId, seq<ObserverId>>, lastId: nat)
  {
    && (forall p :: p in slots && slots[p].Tracked? ==> slots[p].subject in lists)
    && (forall p, q ::
          (p in slots && q in slots && slots[p].Tracked? && slots[q].Tracked? &&
           slots[p].subject == slots[q].subject) ==> p == q)
    && (forall s :: s in lists ==> 0 < s <= lastId)
  }

  /** Every entry of every observer list is an Observer. */
  ghost predicate ListsOk(lists: map<SubjectId, seq<ObserverId>>, observers: map<ObserverId, ObserverRec>)
  {
    forall s, i :: s in lists && 0 <= i < |lists[s]| ==> lists[s][i] in observers
  }

  ghost predicate Valid(st: State)
  {
    && HeapOk(st.objects, st.slots)
    && SubjectsOk(st.slots, st.lists, st.lastId)
    && ListsOk(st.lists, st.observers)
    && (forall o :: o in st.observers ==> o < st.observerCount)
    && (st.current.Some? ==> st.current.value in st.observers)
  }

  /** Replacing one Subject's list by a list of Observers keeps the state valid. */
  lemma ListReplacedValid(st: State, s: SubjectId, l: seq<ObserverId>)
    requires Valid(st) && s in st.lists
    requires forall j :: 0 <= j < |l| ==> l[j] in st.observers
    ensures Valid(st.(lists := st.lists[s := l]))
  {
    var lists := st.lists[s := l];
    assert lists.Keys == st.lists.Keys;
    forall t, i | t in lists && 0 <= i < |lists[t]| ensures lists[t][i] in st.observers {
      if t != s {
        assert lists[t] == st.lists[t];
      }
    }
  }

  /** A fresh Observer record under the next identity keeps the state valid. */
  lemma ObserverAddedValid(st: State, rec: ObserverRec)
    requires Valid(st)
    ensures Valid(st.(observers := st.observers[st.observerCount := rec], observerCount := st.observerCount + 1))
  {
  }

  /** Replacing the record of an existing Observer keeps the state valid. */
  lemma ObserverReplacedValid(st: State, o: ObserverId, rec: ObserverRec)
    requires Valid(st) && o in st.observers
    ensures Valid(st.(observers := st.observers[o := rec]))
  {
  }

  /** Recording an Observer's new value and its callback is still a propagation step from `st`. */
  lemma ValueRecorded(st: State, r: State, o: ObserverId, value: Value, e: Event)
    requires Valid(r) && o in r.observers && Propagation(st, r)
    ensures var r' := r.(observers := r.observers[o := r.observers[o].(value := value)], log := r.log + [e]);
      Valid(r') && Propagation(st, r')
  {
    ObserverReplacedValid(r, o, r.observers[o].(value := value));
  }

  /**
   * Overwriting one property with a closed value, keeping whether it is
   * intercepted and by which Subject, keeps the state valid.
   */
  lemma SlotReplacedValid(st: State, p: Slot, prop: Prop)
    requires Valid(st) && p in st.slots && Closed(st, prop.value)
    requires prop.Tracked? == st.slots[p].Tracked?
    requires prop.Tracked? ==> prop.subject == st.slots[p].subject
    ensures Valid(st.(slots := st.slots[p := prop]))
  {
    var slots := st.slots[p := prop];
    assert slots.Keys == st.slots.Keys;
    forall q | q in slots ensures q.obj in st.objects && q.key in st.objects[q.obj] {
      assert q in st.slots;
    }
    forall q | q in slots && slots[q].value.Obj? ensures slots[q].value.ref in st.objects {
      if q != p {
        assert slots[q] == st.slots[q];
      }
    }
    forall q | q in slots && slots[q].Tracked? ensures slots[q].subject in st.lists {
      if q != p {
        assert slots[q] == st.slots[q];
      }
    }
    forall q, q' | q in slots && q' in slots && slots[q].Tracked? && slots[q'].Tracked? &&
                   slots[q].subject == slots[q'].subject
      ensures q == q'
    {
      assert st.slots[q].Tracked? && st.slots[q'].Tracked?;
      assert st.slots[q].subject == st.slots[q'].subject;
    }
  }

  /** Adding a missing key to an object as a plain property keeps the state valid. */
  lemma KeyAddedValid(st: State, o: ObjId, k: Key, v: Value)
    requires Valid(st) && o in st.objects && Slot(o, k) !in st.slots && Closed(st, v)
    ensures Valid(st.(objects := st.objects[o := st.objects[o] + [k]], slots := st.slots[Slot(o, k) := Plain(v)]))
  {
    var keys := st.objects[o] + [k];
    assert k !in st.objects[o];
    forall i', j' | 0 <= i' < j' < |keys| ensures keys[i'] != keys[j'] {
      if j' == |st.objects[o]| {
        assert keys[i'] == st.objects[o][i'];
      }
    }
  }

  /** Propagation steps compose. */
  lemma PropagationTransitive(a: State, b: State, c: State)
    requires Propagation(a, b) && Propagation(b, c)
    ensures Propagation(a, c)
  {
    forall s | s in a.lists ensures a.lists[s] <= c.lists[s] {
      assert a.lists[s] <= b.lists[s] && b.lists[s] <= c.lists[s];
    }
  }

  /** A value that may be stored: an object reference must name an existing object. */
  predicate Closed(st: State, v: Value)
  {
    v.Obj? ==> v.ref in st.objects
  }

  /** `obj[key]` without its side effects: the closed-over value, or `undefined` for a missing key. */
  function Read(st: State, o: ObjId, k: Key): Value
  {
    if Slot(o, k) in st.slots then st.slots[Slot(o, k)].value else Undefined
  }

  /** The Subject of `obj[key]`, if the property has been intercepted. */
  function SubjectOf(st: State, o: ObjId, k: Key): Option<SubjectId>
  {
    if Slot(o, k) in st.slots && st.slots[Slot(o, k)].Tracked? then Some(st.slots[Slot(o, k)].subject) else None
  }

  /**
   * What reading and notifying may change: the data, the ids and the bindings
   * stay; subscriber lists and the callback log only grow at their ends.
   */
  ghost predicate Propagation(st: State, r: State)
  {
    && r.objects == st.objects && r.slots == st.slots
    && r.lastId == st.lastId && r.observerCount == st.observerCount
    && r.lists.Keys == st.lists.Keys
    && (forall s :: s in st.lists ==> st.lists[s] <= r.lists[s])
    && r.observers.Keys == st.observers.Keys
    && (forall o :: o in st.observers ==>
          r.observers[o].root == st.observers[o].root && r.observers[o].key == st.observers[o].key)
    && st.log <= r.log
  }

  // ---------------------------------------------------------------- Subject

  /** `new Subject()`: `this.id = ++id`, with an empty observer list. */
  function NewSubject(st: State): (r: (State, SubjectId))
    requires Valid(st)
    ensures Valid(r.0)
    ensures r.1 !in st.lists && r.1 == st.lastId + 1 && r.0.lastId == r.1
    ensures r.0.lists == st.lists[r.1 := []]
    ensures r.0 == st.(lists := r.0.lists, lastId := r.0.lastId)
  {
    var s := st.lastId + 1;
    (st.(lists := st.lists[s := []], lastId := s), s)
  }

  /** `subject.addObserver(o)`. */
  function AddObserver(st: State, s: SubjectId, o: ObserverId): (r: State)
    requires Valid(st) && s in st.lists && o in st.observers
    ensures Valid(r)
    ensures r.lists == st.lists[s := st.lists[s] + [o]]
    ensures r == st.(lists := r.lists)
  {
    var l := SubjectLists.Added(st.lists[s], o);
    ListReplacedValid(st, s, l);
    st.(lists := st.lists[s := l])
  }

  /** `subject.removeObserver(o)`. */
  function RemoveObserver(st: State, s: SubjectId, o: ObserverId): (r: State)
    requires Valid(st) && s in st.lists
    ensures Valid(r)
    ensures r.lists.Keys == st.lists.Keys && (forall t :: t in st.lists && t != s ==> r.lists[t] == st.lists[t])
    ensures o !in st.lists[s] ==> r == st
    ensures o in st.lists[s] ==> |r.lists[s]| == |st.lists[s]| - 1
    ensures r.lists[s] == SubjectLists.RemovedFirst(st.lists[s], o)
    ensures r == st.(lists := r.lists)
  {
    var l := SubjectLists.RemovedFirst(st.lists[s], o);
    ListReplacedValid(st, s, l);
    st.(lists := st.lists[s := l])
  }

  // --------------------------------------------------------------- Observer

  /** `observer.subscribeTo(subject)`: registers at most once per Subject id. */
  function SubscribeTo(st: State, o: ObserverId, s: SubjectId): (r: State)
    requires Valid(st) && o in st.observers && s in st.lists
    ensures Valid(r) && Propagation(st, r)
    ensures r.current == st.current && r.log == st.log
    ensures s in r.observers[o].subjects
    ensures s in st.observers[o].subjects ==> r == st
    ensures s !in st.observers[o].subjects ==>
              r.lists == st.lists[s := st.lists[s] + [o]] &&
              r.observers == st.observers[o := st.observers[o].(subjects := st.observers[o].subjects + {s})]
  {
    if s in st.observers[o].subjects then st
    else
      var r := AddObserver(st, s, o);
      r.(observers := r.observers[o := r.observers[o].(subjects := r.observers[o].subjects + {s})])
  }

  /**
   * `obj[key]` as the core performs it: an intercepted property's getter
   * subscribes the current observer, if any, to the property's Subject; a
   * plain or missing property is read without side effects.
   */
  function Get(st: State, o: ObjId, k: Key): (r: (State, Value))
    requires Valid(st)
    ensures Valid(r.0) && Propagation(st, r.0)
    ensures r.0.current == st.current && r.0.log == st.log
    ensures r.1 == Read(st, o, k)
    ensures st.current.None? || SubjectOf(st, o, k).None? ==> r.0 == st
    ensures st.current.Some? && SubjectOf(st, o, k).Some? ==>
              r.0 == SubscribeTo(st, st.current.value, SubjectOf(st, o, k).value)
  {
    var p := Slot(o, k);
    if p in st.slots && st.slots[p].Tracked? && st.current.Some? then
      (SubscribeTo(st, st.current.value, st.slots[p].subject), st.slots[p].value)
    else
      (st, Read(st, o, k))
  }

  /**
   * `getValue()`: occupy the slot, read `vm.$data[key]`, clear the slot.
   * The slot is empty afterwards, the value is the stored one, and the
   * observer is subscribed to the key's Subject (once).
   */
  function GetValue(st: State, o: ObserverId): (r: (State, Value))
    requires Valid(st) && o in st.observers
    ensures Valid(r.0) && Propagation(st, r.0) && r.0.log == st.log
    ensures r.0.current == None
    ensures r.1 == Read(st, st.observers[o].root, st.observers[o].key)
    ensures forall x :: x in st.observers && x != o ==> r.0.observers[x] == st.observers[x]
    ensures r.0.observers[o].value == st.observers[o].value
    ensures var sub := SubjectOf(st, st.observers[o].root, st.observers[o].key);
      if sub.Some? then
        && sub.value in r.0.observers[o].subjects
        && r.0.observers[o].subjects == st.observers[o].subjects + {sub.value}
        && r.0.lists == (if sub.value in st.observers[o].subjects then st.lists
                         else st.lists[sub.value := st.lists[sub.value] + [o]])
      else
        r.0.lists == st.lists && r.0.observers == st.observers
  {
    var rec := st.observers[o];
    var (r, v) := Get(st.(current := Some(o)), rec.root, rec.key);
    (r.(current := None), v)
  }

  /**
   * `update()`: re-read through `getValue()`, which re-subscribes exactly as
   * `GetValue` does; when the new value is `!==` the remembered one,
   * remember it and fire the callback with `(new, old)`; otherwise change
   * neither the value nor the log.
   */
  function Update(st: State, o: ObserverId): (r: State)
    requires Valid(st) && o in st.observers
    ensures Valid(r) && Propagation(st, r) && r.current == None
    ensures var rec := st.observers[o];
      var v := Read(st, rec.root, rec.key);
      if v != rec.value then r.log == st.log + [Fired(o, v, rec.value)] && r.observers[o].value == v
      else r.log == st.log && r.observers[o].value == rec.value
    ensures forall x :: x in st.observers && x != o ==> r.observers[x] == st.observers[x]
    ensures var g := GetValue(st, o).0;
      r.lists == g.lists && r.observers[o].subjects == g.observers[o].subjects
      && r.observers[o].root == st.observers[o].root && r.observers[o].key == st.observers[o].key
  {
    var oldVal := st.observers[o].value;
    var (r, value) := GetValue(st, o);
    if value != oldVal then
      ValueRecorded(st, r, o, value, Fired(o, value, oldVal));
      r.(observers := r.observers[o := r.observers[o].(value := value)],
         log := r.log + [Fired(o, value, oldVal)])
    else r
  }

  /** `update()` on each entry of `l`, first to last. */
  function NotifyList(st: State, l: seq<ObserverId>): (r: State)
    requires Valid(st) && forall i :: 0 <= i < |l| ==> l[i] in st.observers
    ensures Valid(r) && Propagation(st, r)
    ensures forall x :: x in st.observers && x !in l ==> r.observers[x] == st.observers[x]
    ensures forall i :: |st.log| <= i < |r.log| ==> r.log[i].observer in l
    decreases |l|
  {
    if l == [] then st
    else
      var front, o := l[..|l| - 1], l[|l| - 1];
      assert forall x :: x in front ==> x in l;
      var r := NotifyList(st, front);
      var r' := Update(r, o);
      PropagationTransitive(st, r, r');
      UpdateLogFrom(st, r, o, l);
      r'
  }

  /** The callbacks a pass over `front + [o]` adds all come from that list. */
  lemma UpdateLogFrom(st: State, r: State, o: ObserverId, l: seq<ObserverId>)
    requires Valid(r) && o in r.observers && o in l && st.log <= r.log
    requires forall i :: |st.log| <= i < |r.log| ==> r.log[i].observer in l
    ensures forall i :: |st.log| <= i < |Update(r, o).log| ==> Update(r, o).log[i].observer in l
  {
    var r' := Update(r, o);
    forall i | |st.log| <= i < |r'.log| ensures r'.log[i].observer in l {
      if i < |r.log| {
        assert r'.log[i] == r.log[i];
      }
    }
  }

  /**
   * `subject.notify()`: `forEach` over the observer list. The list can only
   * grow during the pass (a re-read may subscribe), and `forEach` never
   * visits entries appended after it started, so the pass is over the list
   * as it was when `notify()` was called.
   */
  function Notify(st: State, s: SubjectId): (r: State)
    requires Valid(st) && s in st.lists
    ensures Valid(r) && Propagation(st, r)
    ensures forall x :: x in st.observers && x !in st.lists[s] ==> r.observers[x] == st.observers[x]
    ensures forall i :: |st.log| <= i < |r.log| ==> r.log[i].observer in st.lists[s]
  {
    NotifyList(st, st.lists[s])
  }

  // ------------------------------------------------------------------ Store

  /** The setter's first statement, `val = newVal`: the closure of `obj[key]` now holds `v`. */
  function Stored(st: State, o: ObjId, k: Key, v: Value): (r: State)
    requires Valid(st) && SubjectOf(st, o, k).Some? && Closed(st, v)
    ensures Valid(r) && Read(r, o, k) == v && SubjectOf(r, o, k) == SubjectOf(st, o, k)
    ensures r == st.(slots := st.slots[Slot(o, k) := Tracked(v, SubjectOf(st, o, k).value)])
  {
    var p := Slot(o, k);
    SlotReplacedValid(st, p, Tracked(v, st.slots[p].subject));
    st.(slots := st.slots[p := Tracked(v, st.slots[p].subject)])
  }

  /**
   * `obj[key] = v`. An intercepted property's setter stores `v` and calls
   * `notify()` with no equality check; a plain property is overwritten and a
   * missing one is added as a plain property, and neither notifies anybody.
   * An object assigned this way is not converted.
   */
  function Assign(st: State, o: ObjId, k: Key, v: Value): (r: State)
    requires Valid(st) && o in st.objects && Closed(st, v)
    ensures Valid(r)
    ensures Read(r, o, k) == v
    ensures SubjectOf(r, o, k) == SubjectOf(st, o, k)
    ensures forall p :: p in st.slots && p != Slot(o, k) ==> p in r.slots && r.slots[p] == st.slots[p]
    ensures r.objects.Keys == st.objects.Keys
    ensures r.lastId == st.lastId && r.observerCount == st.observerCount
    ensures r.observers.Keys == st.observers.Keys && st.log <= r.log
    ensures SubjectOf(st, o, k).None? ==> r.observers == st.observers && r.log == st.log && r.lists == st.lists
    ensures SubjectOf(st, o, k).Some? ==>
              var s := SubjectOf(st, o, k).value;
              && (forall x :: x in st.observers && x !in st.lists[s] ==> r.observers[x] == st.observers[x])
              && (forall i :: |st.log| <= i < |r.log| ==> r.log[i].observer in st.lists[s])
    ensures SubjectOf(st, o, k).Some? ==> r == Notify(Stored(st, o, k, v), SubjectOf(st, o, k).value)
    ensures SubjectOf(st, o, k).None? ==>
              r == st.(slots := st.slots[Slot(o, k) := Plain(v)],
                       objects := st.objects[o := if Slot(o, k) in st.slots then st.objects[o]
                                                  else st.objects[o] + [k]])
  {
    var p := Slot(o, k);
    if SubjectOf(st, o, k).Some? then
      Notify(Stored(st, o, k, v), SubjectOf(st, o, k).value)
    else if p in st.slots then
      SlotReplacedValid(st, p, Plain(v));
      st.(slots := st.slots[p := Plain(v)])
    else
      KeyAddedValid(st, o, k, v);
      st.(objects := st.objects[o := st.objects[o] + [k]], slots := st.slots[p := Plain(v)])
  }

  // ---------------------------------------------------------------- Observe

  /**
   * `rank` numbers the data objects so that every object reference held by a
   * property points to a lower-numbered object: the data is acyclic. (On
   * cyclic data the source's `Observe` recurses until the stack overflows.)
   */
  ghost predicate Ranked(objects: map<ObjId, seq<Key>>, slots: map<Slot, Prop>, rank: map<ObjId, nat>)
  {
    && HeapOk(objects, slots)
    && (forall o :: o in objects ==> o in rank)
    && (forall p :: p in slots && slots[p].value.Obj? ==>
          p.obj in rank && slots[p].value.ref in rank && rank[slots[p].value.ref] < rank[p.obj])
  }

  /**
   * What `Observe` may change: every key and every value stays; a property
   * either stays as it was or is (re-)intercepted with a Subject issued
   * during the conversion; each Subject issued during the conversion starts
   * with an empty list; nothing else changes.
   */
  ghost predicate Converted(st: State, r: State)
  {
    && r.objects == st.objects && r.slots.Keys == st.slots.Keys
    && (forall p :: p in st.slots ==> r.slots[p].value == st.slots[p].value)
    && (forall p :: p in st.slots ==>
          r.slots[p] == st.slots[p] || (r.slots[p].Tracked? && st.lastId < r.slots[p].subject <= r.lastId))
    && st.lastId <= r.lastId
    && (forall s :: s in st.lists ==> s in r.lists && r.lists[s] == st.lists[s])
    && (forall s :: st.lastId < s <= r.lastId ==> s in r.lists && r.lists[s] == [])
    && (forall s :: s in r.lists && s !in st.lists ==> st.lastId < s)
    && r.current == st.current && r.observers == st.observers
    && r.observerCount == st.observerCount && r.log == st.log
  }

  /**
   * `new Subject()` and the accessor pair of one for-in iteration of
   * `Observe`: a fresh Subject, then an accessor pair for property `p`
   * closing over its current value (the recursion is in `ObserveKey`).
   */
  function Intercept(st: State, p: Slot): (r: (State, SubjectId))
    requires Valid(st) && p in st.slots
    ensures Valid(r.0) && Converted(st, r.0)
    ensures r.1 == st.lastId + 1 && r.0.slots == st.slots[p := Tracked(st.slots[p].value, r.1)]
  {
    var (st1, s) := NewSubject(st);
    var r := st1.(slots := st1.slots[p := Tracked(st.slots[p].value, s)]);
    assert HeapOk(r.objects, r.slots) by {
      forall q | q in r.slots && r.slots[q].value.Obj? ensures r.slots[q].value.ref in r.objects {
        assert r.slots[q].value == st.slots[q].value;
      }
    }
    assert SubjectsOk(r.slots, r.lists, r.lastId) by {
      forall q | q in r.slots && r.slots[q].Tracked? && q != p ensures r.slots[q].subject < s {
        assert r.slots[q] == st.slots[q];
      }
    }
    (r, s)
  }

  /** `Intercept` is `new Subject()` and then the accessor pair over the old value. */
  lemma InterceptAfterNewSubject(st: State, p: Slot, st1: State, s: SubjectId, r: State)
    requires Valid(st) && p in st.slots && (st1, s) == NewSubject(st)
    requires r == st1.(slots := st1.slots[p := Tracked(st.slots[p].value, s)])
    ensures r == Intercept(st, p).0
  {
  }

  /** Conversion steps compose. */
  lemma ConvertedTransitive(a: State, b: State, c: State)
    requires Converted(a, b) && Converted(b, c)
    ensures Converted(a, c)
  {
  }

  /** A conversion keeps the ranking of the data. */
  lemma ConvertedRanked(st: State, r: State, rank: map<ObjId, nat>)
    requires Converted(st, r) && Ranked(st.objects, st.slots, rank)
    ensures Ranked(r.objects, r.slots, rank)
  {
    forall p | p in r.slots ensures r.slots[p].value == st.slots[p].value && p in st.slots {
    }
  }

  /**
   * The for-in loop of `Observe` over data object `o`, from its `i`-th key
   * on, one `ObserveKey` per key.
   */
  function ObserveKeys(st: State, o: ObjId, i: nat, rank: map<ObjId, nat>): (r: State)
    requires Valid(st) && st.current == None && Ranked(st.objects, st.slots, rank)
    requires o in st.objects && i <= |st.objects[o]|
    ensures Valid(r) && Converted(st, r)
    decreases rank[o], |st.objects[o]| - i, 1
  {
    if i == |st.objects[o]| then st
    else
      var st1 := ObserveKey(st, o, i, rank);
      ConvertedRanked(st, st1, rank);
      var r := ObserveKeys(st1, o, i + 1, rank);
      ConvertedTransitive(st, st1, r);
      r
  }

  /**
   * One iteration of the for-in loop, for key `i` of `o`: a fresh Subject
   * and an accessor pair closing over the value (reading it through a getter
   * already installed subscribes nobody, as no Observer is evaluating), then
   * `Observe` of that value when it is an object.
   */
  function ObserveKey(st: State, o: ObjId, i: nat, rank: map<ObjId, nat>): (r: State)
    requires Valid(st) && st.current == None && Ranked(st.objects, st.slots, rank)
    requires o in st.objects && i < |st.objects[o]|
    ensures Valid(r) && Converted(st, r)
    decreases rank[o], |st.objects[o]| - i, 0
  {
    var p := Slot(o, st.objects[o][i]);
    var st1 := Intercept(st, p).0;
    ConvertedRanked(st, st1, rank);
    var val := st1.slots[p].value;
    if val.Obj? then
      var r := ObserveKeys(st1, val.ref, 0, rank);
      ConvertedTransitive(st, st1, r);
      r
    else st1
  }

  /** The for-in loop from key `i` on is key `i`, then the loop from key `i + 1` on. */
  lemma ObserveKeysStep(st: State, r: State, o: ObjId, i: nat, rank: map<ObjId, nat>)
    requires Valid(st) && st.current == None && Ranked(st.objects, st.slots, rank)
    requires o in st.objects && i < |st.objects[o]| && r == ObserveKey(st, o, i, rank)
    ensures Valid(r) && r.current == None && Ranked(r.objects, r.slots, rank) && r.objects == st.objects
    ensures ObserveKeys(st, o, i, rank) == ObserveKeys(r, o, i + 1, rank)
  {
    ConvertedRanked(st, r, rank);
  }

  /** `Observe(data)`: nothing unless `data` is an object; otherwise the for-in loop over its keys. */
  function Observe(st: State, data: Value, rank: map<ObjId, nat>): (r: State)
    requires Valid(st) && st.current == None && Closed(st, data) && Ranked(st.objects, st.slots, rank)
    ensures Valid(r) && Converted(st, r)
    ensures !data.Obj? ==> r == st
  {
    if data.Obj? then ObserveKeys(st, data.ref, 0, rank) else st
  }

  /**
   * `new Observer(vm, key, cb)`: a fresh Observer with no subscriptions whose
   * value is the result of one `getValue()`.
   */
  function NewObserver(st: State, root: ObjId, key: Key): (r: (State, ObserverId))
    requires Valid(st)
    ensures Valid(r.0) && r.0.current == None
    ensures r.1 !in st.observers && r.0.observers.Keys == st.observers.Keys + {r.1}
    ensures forall x :: x in st.observers ==> r.0.observers[x] == st.observers[x]
    ensures r.0.observers[r.1].root == root && r.0.observers[r.1].key == key
    ensures r.0.observers[r.1].value == Read(st, root, key)
    ensures r.0.objects == st.objects && r.0.slots == st.slots && r.0.log == st.log && r.0.lastId == st.lastId
    ensures var sub := SubjectOf(st, root, key);
      if sub.Some? then
        r.0.lists == st.lists[sub.value := st.lists[sub.value] + [r.1]] && r.0.observers[r.1].subjects == {sub.value}
      else
        r.0.lists == st.lists && r.0.observers[r.1].subjects == {}
  {
    var o := st.observerCount;
    ObserverAddedValid(st, ObserverRec(root, key, Undefined, {}));
    var st1 := st.(observers := st.observers[o := ObserverRec(root, key, Undefined, {})], observerCount := o + 1);
    var (st2, v) := GetValue(st1, o);
    ObserverReplacedValid(st2, o, st2.observers[o].(value := v));
    (st2.(observers := st2.observers[o := st2.observers[o].(value := v)]), o)
  }
}

/** What the core promises, stated over the state machine of module Tracking. */
module TrackingFacts {
  import opened Values
  import opened Tracking
  import SubjectLists

  // ----------------------------------------------------- Subject and Observer

  /** A second `subscribeTo` with the same Subject changes nothing. */
  lemma SubscribeToIdempotent(st: State, o: ObserverId, s: SubjectId)
    requires Valid(st) && o in st.observers && s in st.lists
    ensures SubscribeTo(SubscribeTo(st, o, s), o, s) == SubscribeTo(st, o, s)
  {
  }

  /**
   * `removeObserver` does not clear the Observer's `subjects` record, so an
   * Observer removed from the only place it was listed is never listed
   * there again by its own reads.
   */
  lemma RemovedObserverStaysRemoved(st: State, s: SubjectId, o: ObserverId)
    requires Valid(st) && o in st.observers && s in st.lists
    requires SubjectOf(st, st.observers[o].root, st.observers[o].key) == Some(s)
    requires s in st.observers[o].subjects && multiset(st.lists[s])[o] == 1
    ensures var r := GetValue(RemoveObserver(st, s, o), o).0; o !in r.lists[s]
  {
    var removed := RemoveObserver(st, s, o);
    var l: seq<ObserverId> := SubjectLists.RemovedFirst(st.lists[s], o);
    assert removed.lists[s] == l;
    assert multiset(l)[o] == 0;
  }

  /** An observer whose value already equals what its key holds. */
  ghost predicate Settled(st: State, x: ObserverId)
    requires x in st.observers
  {
    st.observers[x].value == Read(st, st.observers[x].root, st.observers[x].key)
  }

  /** After `update()` the observer is settled, and a second `update()` does nothing. */
  lemma UpdateIdempotent(st: State, o: ObserverId)
    requires Valid(st) && o in st.observers
    ensures Settled(Update(st, o), o)
    ensures Update(Update(st, o), o) == Update(st, o)
  {
    var r1 := Update(st, o);
    var r2 := Update(r1, o);
    var rec := st.observers[o];
    assert Read(r1, rec.root, rec.key) == Read(st, rec.root, rec.key);
    assert r1.observers[o].value == Read(st, rec.root, rec.key);
    assert r2.log == r1.log;
    assert r2.observers[o] == r1.observers[o];
    assert r2.observers == r1.observers;
    assert r2.lists == r1.lists;
  }

  // ------------------------------------------------------------ notification

  /** The callback `update()` fires for `o`, judged in state `st`. */
  function Fire(st: State, o: ObserverId): (e: seq<Event>)
    requires o in st.observers
  {
    var rec := st.observers[o];
    var v := Read(st, rec.root, rec.key);
    if v != rec.value then [Fired(o, v, rec.value)] else []
  }

  /**
   * Reference definition of one notification pass: every listed observer
   * whose remembered value differs from what its key now holds fires once,
   * with `(new, old)`, in list order.
   */
  function Fires(st: State, l: seq<ObserverId>): seq<Event>
    requires forall i :: 0 <= i < |l| ==> l[i] in st.observers
  {
    if l == [] then [] else Fires(st, l[..|l| - 1]) + Fire(st, l[|l| - 1])
  }

  predicate Distinct(l: seq<ObserverId>)
  {
    forall i, j :: 0 <= i < j < |l| ==> l[i] != l[j]
  }

  /** `update()` of an observer the earlier part of the pass left alone fires what `Fire` says. */
  lemma UpdateFiresReference(st: State, r: State, o: ObserverId)
    requires Valid(r) && o in r.observers && o in st.observers
    requires r.observers[o] == st.observers[o] && r.slots == st.slots
    ensures Update(r, o).log == r.log + Fire(st, o)
  {
    assert Read(r, st.observers[o].root, st.observers[o].key) == Read(st, st.observers[o].root, st.observers[o].key);
  }

  /** The last entry of a list without duplicates is not among the others. */
  lemma DistinctLast(l: seq<ObserverId>)
    requires Distinct(l) && l != []
    ensures l[|l| - 1] !in l[..|l| - 1] && Distinct(l[..|l| - 1])
  {
    var front := l[..|l| - 1];
    forall i | 0 <= i < |front| ensures front[i] != l[|l| - 1] {
      assert front[i] == l[i];
    }
  }

  /** One more entry at the end of a pass adds that entry's reference events at the end of the log. */
  lemma NotifyFiresStep(st: State, l: seq<ObserverId>)
    requires Valid(st) && forall i :: 0 <= i < |l| ==> l[i] in st.observers
    requires l != [] && l[|l| - 1] !in l[..|l| - 1]
    requires NotifyList(st, l[..|l| - 1]).log == st.log + Fires(st, l[..|l| - 1])
    ensures NotifyList(st, l).log == st.log + Fires(st, l)
  {
    var front, o := l[..|l| - 1], l[|l| - 1];
    UpdateAppendsFire(st, NotifyList(st, front), o, Fires(st, front));
  }

  /** `update()` of an Observer the pass so far left alone appends its reference events to the log. */
  lemma UpdateAppendsFire(st: State, r: State, o: ObserverId, a: seq<Event>)
    requires Valid(r) && o in r.observers && o in st.observers
    requires r.observers[o] == st.observers[o] && r.slots == st.slots && r.log == st.log + a
    ensures Update(r, o).log == st.log + (a + Fire(st, o))
  {
    UpdateFiresReference(st, r, o);
    AppendStep(Update(r, o).log, r.log, st.log, a, Fire(st, o), a + Fire(st, o));
  }

  lemma AppendStep<T>(whole: seq<T>, part: seq<T>, start: seq<T>, a: seq<T>, b: seq<T>, ab: seq<T>)
    requires whole == part + b && part == start + a && ab == a + b
    ensures whole == start + ab
  {
  }

  lemma SnocTwice<T>(x: seq<T>, a: T, b: T)
    ensures x + [a] + [b] == x + [a, b]
  {
  }

  /** A pass over a list without duplicates fires exactly the reference events, in list order. */
  lemma {:induction false} NotifyFiresInOrder(st: State, l: seq<ObserverId>)
    requires Valid(st) && forall i :: 0 <= i < |l| ==> l[i] in st.observers
    requires Distinct(l)
    ensures NotifyList(st, l).log == st.log + Fires(st, l)
    decreases |l|
  {
    if l != [] {
      DistinctLast(l);
      NotifyFiresInOrder(st, l[..|l| - 1]);
      NotifyFiresStep(st, l);
    }
  }

  /** `update()` of a settled observer fires nothing and changes no observer record. */
  lemma UpdateSettled(r: State, o: ObserverId)
    requires Valid(r) && o in r.observers && Settled(r, o)
    ensures Update(r, o).log == r.log
    ensures forall x :: x in r.observers ==> Update(r, o).observers[x].value == r.observers[x].value
  {
  }

  /** A pass over observers that are all settled fires no callback and leaves them settled. */
  lemma {:induction false} SettledPassFiresNothing(st: State, l: seq<ObserverId>)
    requires Valid(st) && forall i :: 0 <= i < |l| ==> l[i] in st.observers
    requires forall i :: 0 <= i < |l| ==> Settled(st, l[i])
    ensures NotifyList(st, l).log == st.log
    ensures forall x :: x in st.observers ==> NotifyList(st, l).observers[x].value == st.observers[x].value
    decreases |l|
  {
    if l != [] {
      var front, o := l[..|l| - 1], l[|l| - 1];
      SettledPassFiresNothing(st, front);
      var r := NotifyList(st, front);
      assert r.observers[o].value == st.observers[o].value;
      assert Settled(r, o);
      UpdateSettled(r, o);
      assert NotifyList(st, l) == Update(r, o);
    }
  }

  // ------------------------------------------------------------ registration

  /**
   * What `subscribeTo` keeps true: no observer list holds an Observer twice,
   * and every Observer listed on a Subject has recorded that Subject's id in
   * its `subjects`. Only a direct call of `addObserver` can break it.
   */
  ghost predicate Registered(st: State)
  {
    forall t :: t in st.lists ==>
      && Distinct(st.lists[t])
      && forall x :: x in st.lists[t] ==> x in st.observers && t in st.observers[x].subjects
  }

  lemma DistinctSnoc(l: seq<ObserverId>, x: ObserverId)
    requires Distinct(l) && x !in l
    ensures Distinct(l + [x])
  {
  }

  /** `removeObserver` keeps a list without duplicates without duplicates. */
  lemma DistinctRemovedFirst(l: seq<ObserverId>, o: ObserverId)
    requires Distinct(l)
    ensures Distinct(SubjectLists.RemovedFirst(l, o))
  {
    var r := SubjectLists.RemovedFirst(l, o);
    if o in l {
      var i :| 0 <= i < |l| && l[i] == o && o !in l[..i] && r == l[..i] + l[i + 1..];
      forall a, b | 0 <= a < b < |r| ensures r[a] != r[b] {
        var a' := if a < i then a else a + 1;
        var b' := if b < i then b else b + 1;
        assert r[a] == l[a'] && r[b] == l[b'];
      }
    }
  }

  /**
   * `subscribeTo` keeps every list registered: it appends only an Observer
   * that has not recorded the Subject, which is therefore not listed there.
   */
  lemma SubscribeToRegistered(st: State, o: ObserverId, s: SubjectId)
    requires Valid(st) && o in st.observers && s in st.lists && Registered(st)
    ensures Registered(SubscribeTo(st, o, s))
  {
    if s !in st.observers[o].subjects {
      DistinctSnoc(st.lists[s], o);
    }
  }

  /** A read through a getter keeps every list registered. */
  lemma GetRegistered(st: State, o: ObjId, k: Key)
    requires Valid(st) && Registered(st)
    ensures Registered(Get(st, o, k).0)
  {
    if st.current.Some? && SubjectOf(st, o, k).Some? {
      SubscribeToRegistered(st, st.current.value, SubjectOf(st, o, k).value);
    }
  }

  /**
   * `getValue()` keeps every list registered, and leaves alone every list
   * the Observer is already on: it appends the Observer only to a Subject it
   * has not recorded.
   */
  lemma GetValueRegistered(st: State, o: ObserverId)
    requires Valid(st) && o in st.observers && Registered(st)
    ensures var r := GetValue(st, o).0;
      && Registered(r)
      && forall t :: t in st.lists && o in st.lists[t] ==> r.lists[t] == st.lists[t]
  {
    GetRegistered(st.(current := Some(o)), st.observers[o].root, st.observers[o].key);
  }

  /** `update()` is `getValue()` plus a new remembered value: the same holds. */
  lemma UpdateRegistered(st: State, o: ObserverId)
    requires Valid(st) && o in st.observers && Registered(st)
    ensures var r := Update(st, o);
      && Registered(r)
      && forall t :: t in st.lists && o in st.lists[t] ==> r.lists[t] == st.lists[t]
  {
    GetValueRegistered(st, o);
    var (r, v) := GetValue(st, o);
    ValueReplacedRegistered(r, o, v);
  }

  /** A new remembered value leaves the lists and the `subjects` records alone. */
  lemma ValueReplacedRegistered(st: State, o: ObserverId, v: Value)
    requires Registered(st) && o in st.observers
    ensures Registered(st.(observers := st.observers[o := st.observers[o].(value := v)]))
  {
  }

  /**
   * A pass over Observers that are all listed on Subject `t` keeps every
   * list registered and does not change the list of `t`.
   */
  lemma {:induction false} PassRegistered(st: State, l: seq<ObserverId>, t: SubjectId)
    requires Valid(st) && Registered(st) && t in st.lists
    requires forall i :: 0 <= i < |l| ==> l[i] in st.observers && l[i] in st.lists[t]
    ensures var r := NotifyList(st, l); Registered(r) && r.lists[t] == st.lists[t]
    decreases |l|
  {
    if l != [] {
      var front, o := l[..|l| - 1], l[|l| - 1];
      assert forall i :: 0 <= i < |front| ==> front[i] == l[i];
      PassRegistered(st, front, t);
      var r := NotifyList(st, front);
      UpdateRegistered(r, o);
    }
  }

  /** `notify()` keeps every list registered and never changes its own Subject's list. */
  lemma NotifyRegistered(st: State, s: SubjectId)
    requires Valid(st) && Registered(st) && s in st.lists
    ensures Registered(Notify(st, s)) && Notify(st, s).lists[s] == st.lists[s]
  {
    PassRegistered(st, st.lists[s], s);
  }

  /** A write keeps every list registered, and does not change the list of the property's Subject. */
  lemma AssignRegistered(st: State, o: ObjId, k: Key, v: Value)
    requires Valid(st) && o in st.objects && Closed(st, v) && Registered(st)
    ensures Registered(Assign(st, o, k, v))
    ensures SubjectOf(st, o, k).Some? ==>
              Assign(st, o, k, v).lists[SubjectOf(st, o, k).value] == st.lists[SubjectOf(st, o, k).value]
  {
    if SubjectOf(st, o, k).Some? {
      NotifyRegistered(Stored(st, o, k, v), SubjectOf(st, o, k).value);
    }
  }

  /** A new Subject starts with an empty list. */
  lemma NewSubjectRegistered(st: State)
    requires Valid(st) && Registered(st)
    ensures Registered(NewSubject(st).0)
  {
  }

  /** `removeObserver` only takes entries out. */
  lemma RemoveObserverRegistered(st: State, s: SubjectId, o: ObserverId)
    requires Valid(st) && s in st.lists && Registered(st)
    ensures Registered(RemoveObserver(st, s, o))
  {
    DistinctRemovedFirst(st.lists[s], o);
  }

  /** A new Observer is listed nowhere before its first `getValue()`. */
  lemma NewObserverRegistered(st: State, root: ObjId, key: Key)
    requires Valid(st) && Registered(st)
    ensures Registered(NewObserver(st, root, key).0)
  {
    var (r, o) := NewObserver(st, root, key);
    var sub := SubjectOf(st, root, key);
    if sub.Some? {
      assert o !in st.lists[sub.value] by {
        forall i | 0 <= i < |st.lists[sub.value]| ensures st.lists[sub.value][i] != o {
          assert st.lists[sub.value][i] in st.observers;
        }
      }
      DistinctSnoc(st.lists[sub.value], o);
    }
  }

  /** `Observe` keeps the lists it found and adds empty ones. */
  lemma ObserveRegistered(st: State, data: Value, rank: map<ObjId, nat>)
    requires Valid(st) && st.current == None && Closed(st, data) && Ranked(st.objects, st.slots, rank)
    requires Registered(st)
    ensures Registered(Observe(st, data, rank))
  {
  }

  /** A direct `addObserver` of an Observer already listed does break it. */
  lemma AddObserverBreaksRegistered(st: State, s: SubjectId, o: ObserverId)
    requires Valid(st) && s in st.lists && o in st.lists[s]
    ensures o in st.observers && !Registered(AddObserver(st, s, o))
  {
    var l := st.lists[s];
    var i :| 0 <= i < |l| && l[i] == o;
    var l' := AddObserver(st, s, o).lists[s];
    assert l'[i] == l'[|l|] == o;
  }

  // ------------------------------------------------------------------ writes

  /**
   * The setter has no equality check: writing back the value a property
   * already holds still runs the whole `notify()` pass.
   */
  lemma UnchangedWriteStillNotifies(st: State, o: ObjId, k: Key)
    requires Valid(st) && o in st.objects && SubjectOf(st, o, k).Some?
    ensures Assign(st, o, k, Read(st, o, k)) == Notify(st, SubjectOf(st, o, k).value)
  {
    var p := Slot(o, k);
    assert st.slots[p := Tracked(Read(st, o, k), SubjectOf(st, o, k).value)] == st.slots;
  }

  /**
   * Change suppression sits in `update()`: when every subscriber already
   * holds the property's value, writing that value again fires no callback.
   */
  lemma UnchangedWriteFiresNothing(st: State, o: ObjId, k: Key)
    requires Valid(st) && o in st.objects && SubjectOf(st, o, k).Some?
    requires var l := st.lists[SubjectOf(st, o, k).value]; forall i :: 0 <= i < |l| ==> Settled(st, l[i])
    ensures Assign(st, o, k, Read(st, o, k)).log == st.log
  {
    var s := SubjectOf(st, o, k).value;
    UnchangedWriteStillNotifies(st, o, k);
    SettledPassFiresNothing(st, st.lists[s]);
  }

  /**
   * Independence across properties: an Observer created on `root[b]` is
   * never updated by a write to any other property, whether another key of
   * the same object or a key of a nested object.
   */
  lemma IndependenceAcrossSlots(st: State, root: ObjId, b: Key, o: ObjId, a: Key, v: Value)
    requires Valid(st) && o in st.objects && Closed(st, v) && Slot(o, a) != Slot(root, b)
    ensures var (st1, x) := NewObserver(st, root, b);
      var st2 := Assign(st1, o, a, v);
      && st2.observers[x] == st1.observers[x]
      && forall i :: |st1.log| <= i < |st2.log| ==> st2.log[i].observer != x
  {
    var (st1, x) := NewObserver(st, root, b);
    assert Closed(st1, v);
    var sa := SubjectOf(st1, o, a);
    if sa.Some? {
      assert SubjectOf(st, o, a) == sa;
      var sb := SubjectOf(st, root, b);
      if sb.Some? {
        assert sa.value != sb.value;
      }
      assert st1.lists[sa.value] == st.lists[sa.value];
      assert x !in st1.lists[sa.value] by {
        forall i | 0 <= i < |st.lists[sa.value]| ensures st.lists[sa.value][i] != x {
          assert st.lists[sa.value][i] in st.observers;
        }
      }
    }
  }

  /** `o` is the only Observer listed on its key's Subject `s`, and has recorded it. */
  ghost predicate SoleSubscriber(st: State, o: ObserverId, s: SubjectId)
  {
    && o in st.observers
    && SubjectOf(st, st.observers[o].root, st.observers[o].key) == Some(s)
    && s in st.lists && st.lists[s] == [o]
    && s in st.observers[o].subjects
  }

  /** Creating an Observer on a freshly converted property makes it that property's sole subscriber. */
  lemma NewObserverSoleSubscriber(st: State, root: ObjId, key: Key, s: SubjectId)
    requires Valid(st) && SubjectOf(st, root, key) == Some(s) && st.lists[s] == []
    ensures var (r, o) := NewObserver(st, root, key);
      SoleSubscriber(r, o, s) && r.observers[o].value == Read(st, root, key)
  {
  }

  /** The callback a write of `v` fires for an observer that remembers `was`. */
  function Change(o: ObserverId, v: Value, was: Value): seq<Event>
  {
    if v != was then [Fired(o, v, was)] else []
  }

  /**
   * Writing `v` to the property of a sole subscriber fires `(v, old)` exactly
   * when the value changed, and the observer then remembers `v`.
   */
  lemma WriteToSoleSubscriber(st: State, o: ObserverId, s: SubjectId, v: Value)
    requires Valid(st) && SoleSubscriber(st, o, s) && Closed(st, v)
    ensures st.observers[o].root in st.objects
    ensures var r := Assign(st, st.observers[o].root, st.observers[o].key, v);
      && SoleSubscriber(r, o, s) && r.observers[o].value == v
      && r.observers[o].root == st.observers[o].root && r.observers[o].key == st.observers[o].key
      && r.log == st.log + Change(o, v, st.observers[o].value)
  {
    var rec := st.observers[o];
    var p := Slot(rec.root, rec.key);
    assert p in st.slots;
    var stored := st.(slots := st.slots[p := Tracked(v, s)]);
    SlotReplacedValid(st, p, Tracked(v, s));
    assert Assign(st, rec.root, rec.key, v) == Notify(stored, s);
    assert NotifyList(stored, [o]) == Update(NotifyList(stored, []), o);
  }

  /**
   * A write to an intercepted property whose list has no duplicates fires
   * exactly the reference events of a pass over that list, judged once `v`
   * is stored: one `(v, old)` per listed Observer of that key that did not
   * hold `v`, in list order.
   */
  lemma AssignFiresReference(st: State, o: ObjId, k: Key, v: Value)
    requires Valid(st) && o in st.objects && Closed(st, v) && SubjectOf(st, o, k).Some?
    requires Distinct(st.lists[SubjectOf(st, o, k).value])
    ensures Assign(st, o, k, v).log == st.log + Fires(Stored(st, o, k, v), st.lists[SubjectOf(st, o, k).value])
  {
    NotifyFiresInOrder(Stored(st, o, k, v), st.lists[SubjectOf(st, o, k).value]);
  }

  /** The callbacks of Observer `w` in `log`, oldest first. */
  function Only(log: seq<Event>, w: ObserverId): seq<Event>
  {
    if log == [] then []
    else Only(log[..|log| - 1], w) + (if log[|log| - 1].observer == w then [log[|log| - 1]] else [])
  }

  lemma {:induction false} OnlyAppend(a: seq<Event>, b: seq<Event>, w: ObserverId)
    ensures Only(a + b, w) == Only(a, w) + Only(b, w)
    decreases |b|
  {
    if b == [] {
      assert a + b == a;
    } else {
      var b', e := b[..|b| - 1], b[|b| - 1];
      var tail := if e.observer == w then [e] else [];
      assert (a + b)[..|a + b| - 1] == a + b' && (a + b)[|a + b| - 1] == e;
      assert Only(a + b, w) == Only(a + b', w) + tail;
      assert Only(b, w) == Only(b', w) + tail;
      OnlyAppend(a, b', w);
    }
  }

  /** Of a reference pass over a list without duplicates, `w` receives exactly its own callback, if listed. */
  lemma {:induction false} OnlyFires(st: State, l: seq<ObserverId>, w: ObserverId)
    requires (forall i :: 0 <= i < |l| ==> l[i] in st.observers) && Distinct(l)
    ensures Only(Fires(st, l), w) == if w in l then Fire(st, w) else []
    decreases |l|
  {
    if l != [] {
      var front, x := l[..|l| - 1], l[|l| - 1];
      assert l == front + [x];
      DistinctLast(l);
      OnlyFires(st, front, w);
      OnlyAppend(Fires(st, front), Fire(st, x), w);
      OnlyFire(st, x, w);
    }
  }

  lemma OnlyFire(st: State, x: ObserverId, w: ObserverId)
    requires x in st.observers
    ensures Only(Fire(st, x), w) == if x == w then Fire(st, x) else []
  {
    assert Only([], w) == [];
  }

  /** After a pass, every Observer it visited holds the value its key now has. */
  lemma {:induction false} PassSettles(st: State, l: seq<ObserverId>)
    requires Valid(st) && forall i :: 0 <= i < |l| ==> l[i] in st.observers
    ensures forall x :: x in l ==> Settled(NotifyList(st, l), x)
    decreases |l|
  {
    if l != [] {
      var front, o := l[..|l| - 1], l[|l| - 1];
      assert l == front + [o];
      PassSettles(st, front);
      NotifyListLast(st, l);
      UpdateSettlesOneMore(NotifyList(st, front), front, o);
    }
  }

  /** `update()` of one more Observer settles it and keeps the ones already settled. */
  lemma UpdateSettlesOneMore(r: State, front: seq<ObserverId>, o: ObserverId)
    requires Valid(r) && o in r.observers
    requires forall x :: x in front ==> x in r.observers && Settled(r, x)
    ensures forall x :: x in front + [o] ==> Settled(Update(r, o), x)
  {
    UpdateIdempotent(r, o);
    forall x | x in front && x != o ensures Settled(Update(r, o), x) {
      UpdateKeepsSettled(r, o, x);
    }
  }

  /** The pass over a non-empty list is the pass over all but its last entry, then `update()` of that entry. */
  lemma NotifyListLast(st: State, l: seq<ObserverId>)
    requires Valid(st) && (forall i :: 0 <= i < |l| ==> l[i] in st.observers) && l != []
    ensures l[|l| - 1] in NotifyList(st, l[..|l| - 1]).observers
    ensures NotifyList(st, l) == Update(NotifyList(st, l[..|l| - 1]), l[|l| - 1])
  {
  }

  /** `update()` of one Observer leaves every other settled Observer settled. */
  lemma UpdateKeepsSettled(st: State, o: ObserverId, x: ObserverId)
    requires Valid(st) && o in st.observers && x in st.observers && x != o && Settled(st, x)
    ensures Settled(Update(st, o), x)
  {
    var r := Update(st, o);
    assert r.observers[x] == st.observers[x] && r.slots == st.slots;
  }

  /**
   * The log of a write, seen by one listed Observer `w` of the written key:
   * exactly `(v, old)` when `v` differs from what `w` remembered.
   */
  lemma WriteLogFor(st: State, o: ObjId, k: Key, v: Value, w: ObserverId)
    requires Valid(st) && o in st.objects && Closed(st, v) && SubjectOf(st, o, k).Some?
    requires Distinct(st.lists[SubjectOf(st, o, k).value]) && w in st.lists[SubjectOf(st, o, k).value]
    requires w in st.observers && st.observers[w].root == o && st.observers[w].key == k
    ensures Only(Assign(st, o, k, v).log, w) == Only(st.log, w) + Change(w, v, st.observers[w].value)
  {
    var l := st.lists[SubjectOf(st, o, k).value];
    var stored := Stored(st, o, k, v);
    AssignFiresReference(st, o, k, v);
    OnlyAppend(st.log, Fires(stored, l), w);
    OnlyFires(stored, l, w);
  }

  /** After a write, every listed Observer of the written key remembers the new value. */
  lemma WriteSettlesFor(st: State, o: ObjId, k: Key, v: Value, w: ObserverId)
    requires Valid(st) && o in st.objects && Closed(st, v) && SubjectOf(st, o, k).Some?
    requires w in st.lists[SubjectOf(st, o, k).value]
    requires w in st.observers && st.observers[w].root == o && st.observers[w].key == k
    ensures var r := Assign(st, o, k, v);
      r.observers[w].root == o && r.observers[w].key == k && r.observers[w].value == v
  {
    var stored := Stored(st, o, k, v);
    PassSettles(stored, st.lists[SubjectOf(st, o, k).value]);
  }

  /**
   * For any Observer `w` bound to `obj[key]` and listed on its Subject, in
   * a registered state: one write of `v` sends `w` exactly `(v, old)` when
   * `v` differs from what `w` remembered and nothing otherwise, and `w` then
   * remembers `v`. The list of the Subject is unchanged.
   */
  lemma WriteFiresFor(st: State, o: ObjId, k: Key, v: Value, w: ObserverId)
    requires Valid(st) && Registered(st) && o in st.objects && Closed(st, v) && SubjectOf(st, o, k).Some?
    requires w in st.lists[SubjectOf(st, o, k).value]
    requires st.observers[w].root == o && st.observers[w].key == k
    ensures var r := Assign(st, o, k, v);
      && Valid(r) && Registered(r) && o in r.objects && Closed(r, v) && SubjectOf(r, o, k) == SubjectOf(st, o, k)
      && r.lists[SubjectOf(st, o, k).value] == st.lists[SubjectOf(st, o, k).value]
      && r.observers[w].root == o && r.observers[w].key == k && r.observers[w].value == v
      && Only(r.log, w) == Only(st.log, w) + Change(w, v, st.observers[w].value)
  {
    AssignRegistered(st, o, k, v);
    WriteLogFor(st, o, k, v, w);
    WriteSettlesFor(st, o, k, v, w);
  }

  /** Writing `X` and then `Y` sends every Observer of the key `(X, old)` and then `(Y, X)`. */
  lemma WriteThenWrite(st: State, o: ObjId, k: Key, x: Value, y: Value, w: ObserverId)
    requires Valid(st) && Registered(st) && o in st.objects && Closed(st, x) && Closed(st, y)
    requires SubjectOf(st, o, k).Some? && w in st.lists[SubjectOf(st, o, k).value]
    requires st.observers[w].root == o && st.observers[w].key == k
    requires x != st.observers[w].value && y != x
    ensures Only(Assign(Assign(st, o, k, x), o, k, y).log, w) ==
              Only(st.log, w) + [Fired(w, x, st.observers[w].value), Fired(w, y, x)]
  {
    var r := Assign(st, o, k, x);
    WriteFiresFor(st, o, k, x, w);
    assert Closed(r, y);
    SecondWrite(r, o, k, y, w, Only(st.log, w), Fired(w, x, st.observers[w].value));
  }

  /** The second write of `WriteThenWrite`: one more event after those of the first. */
  lemma SecondWrite(r: State, o: ObjId, k: Key, y: Value, w: ObserverId, before: seq<Event>, first: Event)
    requires Valid(r) && Registered(r) && o in r.objects && Closed(r, y) && SubjectOf(r, o, k).Some?
    requires w in r.lists[SubjectOf(r, o, k).value]
    requires r.observers[w].root == o && r.observers[w].key == k && y != r.observers[w].value
    requires Only(r.log, w) == before + [first]
    ensures Only(Assign(r, o, k, y).log, w) == before + [first, Fired(w, y, r.observers[w].value)]
  {
    WriteLogFor(r, o, k, y, w);
    SnocTwice(before, first, Fired(w, y, r.observers[w].value));
  }

  /** Writing the same value twice in a row sends every Observer of the key at most one callback. */
  lemma WriteSameTwice(st: State, o: ObjId, k: Key, x: Value, w: ObserverId)
    requires Valid(st) && Registered(st) && o in st.objects && Closed(st, x)
    requires SubjectOf(st, o, k).Some? && w in st.lists[SubjectOf(st, o, k).value]
    requires st.observers[w].root == o && st.observers[w].key == k
    ensures Only(Assign(Assign(st, o, k, x), o, k, x).log, w) == Only(st.log, w) + Change(w, x, st.observers[w].value)
  {
    WriteFiresFor(st, o, k, x, w);
    WriteFiresFor(Assign(st, o, k, x), o, k, x, w);
  }

  // ----------------------------------------------------------------- Observe

  /**
   * Every property of `o`, and of every object reachable from it, is
   * intercepted by a Subject issued after id `lo`.
   */
  ghost predicate DeepFresh(objects: map<ObjId, seq<Key>>, slots: map<Slot, Prop>, o: ObjId,
                            rank: map<ObjId, nat>, lo: nat)
    requires Ranked(objects, slots, rank) && o in objects
    decreases rank[o], 1
  {
    forall k :: k in objects[o] ==> KeyFresh(objects, slots, o, k, rank, lo)
  }

  /** `o[k]` is intercepted by a Subject issued after id `lo`, and so is everything below it. */
  ghost predicate KeyFresh(objects: map<ObjId, seq<Key>>, slots: map<Slot, Prop>, o: ObjId, k: Key,
                           rank: map<ObjId, nat>, lo: nat)
    requires Ranked(objects, slots, rank) && o in objects && k in objects[o]
    decreases rank[o], 0
  {
    var p := Slot(o, k);
    && slots[p].Tracked? && lo < slots[p].subject
    && (slots[p].value.Obj? ==> DeepFresh(objects, slots, slots[p].value.ref, rank, lo))
  }

  /** Keys `i` onwards of `o` are done. */
  ghost predicate KeysFresh(objects: map<ObjId, seq<Key>>, slots: map<Slot, Prop>, o: ObjId, i: nat,
                            rank: map<ObjId, nat>, lo: nat)
    requires Ranked(objects, slots, rank) && o in objects
  {
    forall j :: i <= j < |objects[o]| ==> KeyFresh(objects, slots, o, objects[o][j], rank, lo)
  }

  /**
   * A later conversion step keeps what is freshly intercepted: it leaves a
   * property alone or intercepts it again, with a newer Subject.
   */
  lemma {:induction false} KeyFreshStable(st: State, r: State, o: ObjId, k: Key, rank: map<ObjId, nat>, lo: nat)
    requires Converted(st, r) && lo <= st.lastId
    requires Ranked(st.objects, st.slots, rank) && Ranked(r.objects, r.slots, rank)
    requires o in st.objects && k in st.objects[o] && KeyFresh(st.objects, st.slots, o, k, rank, lo)
    ensures KeyFresh(r.objects, r.slots, o, k, rank, lo)
    decreases rank[o], 0
  {
    var p := Slot(o, k);
    if st.slots[p].value.Obj? {
      DeepFreshStable(st, r, st.slots[p].value.ref, rank, lo);
    }
  }

  lemma {:induction false} DeepFreshStable(st: State, r: State, o: ObjId, rank: map<ObjId, nat>, lo: nat)
    requires Converted(st, r) && lo <= st.lastId
    requires Ranked(st.objects, st.slots, rank) && Ranked(r.objects, r.slots, rank)
    requires o in st.objects && DeepFresh(st.objects, st.slots, o, rank, lo)
    ensures DeepFresh(r.objects, r.slots, o, rank, lo)
    decreases rank[o], 1
  {
    forall k | k in r.objects[o] ensures KeyFresh(r.objects, r.slots, o, k, rank, lo) {
      KeyFreshStable(st, r, o, k, rank, lo);
    }
  }

  /** The for-in loop from key `i` on intercepts those keys, and everything below them, with Subjects it issued. */
  lemma {:induction false} ObserveKeysFresh(st: State, o: ObjId, i: nat, rank: map<ObjId, nat>)
    requires Valid(st) && st.current == None && Ranked(st.objects, st.slots, rank)
    requires o in st.objects && i <= |st.objects[o]|
    ensures var r := ObserveKeys(st, o, i, rank);
      Ranked(r.objects, r.slots, rank) && KeysFresh(r.objects, r.slots, o, i, rank, st.lastId)
    decreases rank[o], |st.objects[o]| - i, 1
  {
    if i < |st.objects[o]| {
      var st1 := ObserveKey(st, o, i, rank);
      ConvertedRanked(st, st1, rank);
      ObserveKeyFresh(st, o, i, rank);
      var r := ObserveKeys(st1, o, i + 1, rank);
      ObserveKeysFresh(st1, o, i + 1, rank);
      KeyFreshStable(st1, r, o, st.objects[o][i], rank, st.lastId);
      KeysFreshLowerFrom(r, o, i + 1, rank, st1.lastId, st.lastId);
      KeysFreshCons(r, o, i, rank, st.lastId);
      assert ObserveKeys(st, o, i, rank) == r;
    }
  }

  lemma KeysFreshCons(st: State, o: ObjId, i: nat, rank: map<ObjId, nat>, lo: nat)
    requires Ranked(st.objects, st.slots, rank) && o in st.objects && i < |st.objects[o]|
    requires KeyFresh(st.objects, st.slots, o, st.objects[o][i], rank, lo)
    requires KeysFresh(st.objects, st.slots, o, i + 1, rank, lo)
    ensures KeysFresh(st.objects, st.slots, o, i, rank, lo)
  {
  }

  /** One iteration intercepts its key, and everything below it, with Subjects it issued. */
  lemma {:induction false} ObserveKeyFresh(st: State, o: ObjId, i: nat, rank: map<ObjId, nat>)
    requires Valid(st) && st.current == None && Ranked(st.objects, st.slots, rank)
    requires o in st.objects && i < |st.objects[o]|
    ensures var r := ObserveKey(st, o, i, rank);
      Ranked(r.objects, r.slots, rank) && KeyFresh(r.objects, r.slots, o, st.objects[o][i], rank, st.lastId)
    decreases rank[o], |st.objects[o]| - i, 0
  {
    var p := Slot(o, st.objects[o][i]);
    var st1 := Intercept(st, p).0;
    ConvertedRanked(st, st1, rank);
    var r := ObserveKey(st, o, i, rank);
    ConvertedRanked(st, r, rank);
    var val := st1.slots[p].value;
    if val.Obj? {
      ObserveKeysFresh(st1, val.ref, 0, rank);
      KeysFreshLower(r, val.ref, rank, st1.lastId, st.lastId);
    }
  }

  /** All keys done from the first on, with Subjects newer than `lo'`, means deeply fresh after any `lo <= lo'`. */
  lemma KeysFreshLower(st: State, o: ObjId, rank: map<ObjId, nat>, lo': nat, lo: nat)
    requires Ranked(st.objects, st.slots, rank) && o in st.objects && lo <= lo'
    requires KeysFresh(st.objects, st.slots, o, 0, rank, lo')
    ensures DeepFresh(st.objects, st.slots, o, rank, lo)
  {
    KeysFreshLowerFrom(st, o, 0, rank, lo', lo);
    forall k | k in st.objects[o] ensures KeyFresh(st.objects, st.slots, o, k, rank, lo) {
      var j :| 0 <= j < |st.objects[o]| && st.objects[o][j] == k;
    }
  }

  lemma KeysFreshLowerFrom(st: State, o: ObjId, i: nat, rank: map<ObjId, nat>, lo': nat, lo: nat)
    requires Ranked(st.objects, st.slots, rank) && o in st.objects && lo <= lo'
    requires KeysFresh(st.objects, st.slots, o, i, rank, lo')
    ensures KeysFresh(st.objects, st.slots, o, i, rank, lo)
  {
    forall j | i <= j < |st.objects[o]| ensures KeyFresh(st.objects, st.slots, o, st.objects[o][j], rank, lo) {
      KeyFreshLower(st, o, st.objects[o][j], rank, lo', lo);
    }
  }

  lemma {:induction false} KeyFreshLower(st: State, o: ObjId, k: Key, rank: map<ObjId, nat>, lo': nat, lo: nat)
    requires Ranked(st.objects, st.slots, rank) && o in st.objects && k in st.objects[o] && lo <= lo'
    requires KeyFresh(st.objects, st.slots, o, k, rank, lo')
    ensures KeyFresh(st.objects, st.slots, o, k, rank, lo)
    decreases rank[o]
  {
    var p := Slot(o, k);
    if st.slots[p].value.Obj? {
      var t := st.slots[p].value.ref;
      forall k' | k' in st.objects[t] ensures KeyFresh(st.objects, st.slots, t, k', rank, lo) {
        KeyFreshLower(st, t, k', rank, lo', lo);
      }
    }
  }

  /**
   * `Observe(data)` intercepts every property of `data`, and of every object
   * reachable from it, with a Subject it issued itself, also a property that
   * was intercepted before: each for-in iteration takes `new Subject()`.
   */
  lemma ObserveFresh(st: State, data: Value, rank: map<ObjId, nat>)
    requires Valid(st) && st.current == None && Closed(st, data) && Ranked(st.objects, st.slots, rank)
    ensures var r := Observe(st, data, rank);
      && Ranked(r.objects, r.slots, rank)
      && (data.Obj? ==> DeepFresh(r.objects, r.slots, data.ref, rank, st.lastId))
  {
    var r := Observe(st, data, rank);
    ConvertedRanked(st, r, rank);
    if data.Obj? {
      ObserveKeysFresh(st, data.ref, 0, rank);
      KeysFreshLower(r, data.ref, rank, st.lastId, st.lastId);
    }
  }

  /** `t` is `o` or can be reached from `o` through object-valued properties. */
  ghost predicate Reaches(objects: map<ObjId, seq<Key>>, slots: map<Slot, Prop>, o: ObjId, t: ObjId,
                          rank: map<ObjId, nat>)
    requires Ranked(objects, slots, rank) && o in objects
    decreases rank[o]
  {
    || o == t
    || exists k :: k in objects[o] && slots[Slot(o, k)].value.Obj? &&
                   Reaches(objects, slots, slots[Slot(o, k)].value.ref, t, rank)
  }

  /** Interception keeps every value, so it keeps what is reachable. */
  lemma {:induction false} ReachesStable(st: State, r: State, o: ObjId, t: ObjId, rank: map<ObjId, nat>)
    requires Converted(st, r) && Ranked(st.objects, st.slots, rank) && Ranked(r.objects, r.slots, rank)
    requires o in st.objects
    ensures Reaches(r.objects, r.slots, o, t, rank) == Reaches(st.objects, st.slots, o, t, rank)
    decreases rank[o]
  {
    forall k | k in st.objects[o] && st.slots[Slot(o, k)].value.Obj?
      ensures Reaches(r.objects, r.slots, r.slots[Slot(o, k)].value.ref, t, rank)
           == Reaches(st.objects, st.slots, st.slots[Slot(o, k)].value.ref, t, rank)
    {
      ReachesStable(st, r, st.slots[Slot(o, k)].value.ref, t, rank);
    }
  }

  /** `b` holds every property of the objects that `o` does not reach in `a` as `a` held it. */
  ghost predicate Untouched(a: State, b: State, o: ObjId, rank: map<ObjId, nat>)
    requires Ranked(a.objects, a.slots, rank) && o in a.objects
  {
    forall q :: q in a.slots && !Reaches(a.objects, a.slots, o, q.obj, rank) ==> q in b.slots && b.slots[q] == a.slots[q]
  }

  lemma UntouchedCompose(a: State, b: State, c: State, o: ObjId, rank: map<ObjId, nat>)
    requires Converted(a, b) && Ranked(a.objects, a.slots, rank) && Ranked(b.objects, b.slots, rank)
    requires o in a.objects && Untouched(a, b, o, rank) && Untouched(b, c, o, rank)
    ensures Untouched(a, c, o, rank)
  {
    forall q | q in a.slots && !Reaches(a.objects, a.slots, o, q.obj, rank)
      ensures q in c.slots && c.slots[q] == a.slots[q]
    {
      ReachesStable(a, b, o, q.obj, rank);
    }
  }

  /** What the value of `o[k]` does not reach, `o` does not reach through `k` either. */
  lemma UntouchedWiden(a: State, b: State, o: ObjId, k: Key, rank: map<ObjId, nat>)
    requires Ranked(a.objects, a.slots, rank) && o in a.objects && k in a.objects[o]
    requires a.slots[Slot(o, k)].value.Obj? && Untouched(a, b, a.slots[Slot(o, k)].value.ref, rank)
    ensures Untouched(a, b, o, rank)
  {
    var t := a.slots[Slot(o, k)].value.ref;
    forall q | q in a.slots && !Reaches(a.objects, a.slots, o, q.obj, rank)
      ensures !Reaches(a.objects, a.slots, t, q.obj, rank)
    {
    }
  }

  /** One for-in iteration over `o` touches a property of `o` only. */
  lemma InterceptUntouched(st: State, o: ObjId, k: Key, rank: map<ObjId, nat>)
    requires Valid(st) && Ranked(st.objects, st.slots, rank) && o in st.objects && k in st.objects[o]
    ensures Untouched(st, Intercept(st, Slot(o, k)).0, o, rank)
  {
  }

  /** The for-in loop over `o` from key `i` on leaves every object not reachable from `o` alone. */
  lemma {:induction false} ObserveKeysFrame(st: State, o: ObjId, i: nat, rank: map<ObjId, nat>)
    requires Valid(st) && st.current == None && Ranked(st.objects, st.slots, rank)
    requires o in st.objects && i <= |st.objects[o]|
    ensures Untouched(st, ObserveKeys(st, o, i, rank), o, rank)
    decreases rank[o], |st.objects[o]| - i, 1
  {
    if i < |st.objects[o]| {
      var st1 := ObserveKey(st, o, i, rank);
      ConvertedRanked(st, st1, rank);
      ObserveKeyFrame(st, o, i, rank);
      var r := ObserveKeys(st1, o, i + 1, rank);
      ObserveKeysFrame(st1, o, i + 1, rank);
      UntouchedCompose(st, st1, r, o, rank);
      assert ObserveKeys(st, o, i, rank) == r;
    }
  }

  /** One iteration over `o` leaves every object not reachable from `o` alone. */
  lemma {:induction false} ObserveKeyFrame(st: State, o: ObjId, i: nat, rank: map<ObjId, nat>)
    requires Valid(st) && st.current == None && Ranked(st.objects, st.slots, rank)
    requires o in st.objects && i < |st.objects[o]|
    ensures Untouched(st, ObserveKey(st, o, i, rank), o, rank)
    decreases rank[o], |st.objects[o]| - i, 0
  {
    var k := st.objects[o][i];
    var p := Slot(o, k);
    var st1 := Intercept(st, p).0;
    ConvertedRanked(st, st1, rank);
    InterceptUntouched(st, o, k, rank);
    var val := st1.slots[p].value;
    if val.Obj? {
      var r := ObserveKeys(st1, val.ref, 0, rank);
      ObserveKeysFrame(st1, val.ref, 0, rank);
      UntouchedWiden(st1, r, o, k, rank);
      UntouchedCompose(st, st1, r, o, rank);
    }
  }

  /**
   * `Observe(data)` changes no property of an object that `data` does not
   * reach; with `Converted`, it changes no observer list and no Observer.
   */
  lemma ObserveFrame(st: State, data: Value, rank: map<ObjId, nat>)
    requires Valid(st) && st.current == None && Closed(st, data) && Ranked(st.objects, st.slots, rank)
    ensures forall p :: p in st.slots && !(data.Obj? && Reaches(st.objects, st.slots, data.ref, p.obj, rank)) ==>
              Observe(st, data, rank).slots[p] == st.slots[p]
  {
    if data.Obj? {
      ObserveKeysFrame(st, data.ref, 0, rank);
    }
  }
}
