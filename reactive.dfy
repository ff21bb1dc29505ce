/**
 * The reactive core as the source runs it: one object holding the converted
 * data, the Subjects' observer lists, the `id` counter, the
 * `currentObserver` slot and the Observers, updated in place. The
 * constructor builds the initial state; every other method is proved to
 * leave exactly the state the matching function of module Tracking
 * describes, so the facts proved about those functions hold of it.
 */
module Reactive {
  import opened Values
  import opened Tracking
  import SubjectLists

  class Engine {
    var objects: map<ObjId, seq<Key>>
    var slots: map<Slot, Prop>
    var lists: map<SubjectId, seq<ObserverId>>
    var lastId: nat
    var current: Option<ObserverId>
    var observers: map<ObserverId, ObserverRec>
    var observerCount: nat
    var log: seq<Event>

    function Model(): State
      reads this
    {
      State(objects, slots, lists, lastId, current, observers, observerCount, log)
    }

    ghost predicate Valid()
      reads this
    {
      Tracking.Valid(Model())
    }

    /**
     * A fresh world holding plain (not yet converted) data: `let id = 0`,
     * `currentObserver` unset, no Subjects, no Observers.
     */
    constructor (objects0: map<ObjId, seq<Key>>, slots0: map<Slot, Prop>)
      requires HeapOk(objects0, slots0)
      requires forall p :: p in slots0 ==> slots0[p].Plain?
      ensures Valid() && current == None
      ensures objects == objects0 && slots == slots0
      ensures lists == map[] && lastId == 0 && observers == map[] && observerCount == 0 && log == []
    {
      objects, slots := objects0, slots0;
      lists, lastId := map[], 0;
      current := None;
      observers, observerCount := map[], 0;
      log := [];
    }

    // -------------------------------------------------------------- Subject

    /** `new Subject()`: `this.id = ++id; this.observers = []`. */
    method NewSubject() returns (s: SubjectId)
      requires Valid()
      modifies this
      ensures (Model(), s) == Tracking.NewSubject(old(Model()))
      ensures Valid()
    {
      lastId := lastId + 1;
      s := lastId;
      lists := lists[s := []];
    }

    /** `addObserver(observer)`: `push`, whatever `indexOf` found. */
    method AddObserver(s: SubjectId, o: ObserverId)
      requires Valid() && s in lists && o in observers
      modifies this
      ensures Model() == Tracking.AddObserver(old(Model()), s, o)
      ensures Valid()
    {
      var index := SubjectLists.IndexOf(lists[s], o);
      lists := lists[s := lists[s] + [o]];
    }

    /** `removeObserver(observer)`: `splice(index, 1)` when `index > -1`. */
    method RemoveObserver(s: SubjectId, o: ObserverId)
      requires Valid() && s in lists
      modifies this
      ensures Model() == Tracking.RemoveObserver(old(Model()), s, o)
      ensures Valid()
    {
      var index := SubjectLists.IndexOf(lists[s], o);
      if index > -1 {
        lists := lists[s := lists[s][..index] + lists[s][index + 1..]];
      }
    }

    /**
     * `notify()`: `this.observers.forEach(observer => observer.update())`.
     * `forEach` fixes the length before its first call; the `update()`
     * calls can only append to the list, so every visited entry is one that
     * was there when `notify()` began.
     */
    method Notify(s: SubjectId)
      requires Valid() && s in lists
      modifies this
      ensures Model() == Tracking.Notify(old(Model()), s)
      ensures Valid()
    {
      ghost var st0 := Model();
      var n := |lists[s]|;
      var i := 0;
      while i < n
        invariant 0 <= i <= n == |st0.lists[s]|
        invariant Model() == NotifyList(st0, st0.lists[s][..i])
      {
        UpdateListed(s, i, st0);
        i := i + 1;
      }
      assert st0.lists[s][..n] == st0.lists[s];
    }

    /** One call of the `forEach` callback: `update()` on entry `i` of the list. */
    method UpdateListed(s: SubjectId, i: nat, ghost st0: State)
      requires Tracking.Valid(st0) && s in st0.lists && i < |st0.lists[s]|
      requires Model() == NotifyList(st0, st0.lists[s][..i])
      modifies this
      ensures Model() == NotifyList(st0, st0.lists[s][..i + 1])
    {
      NotifyListStep(st0, s, i, Model());
      NotifyListSnoc(st0, st0.lists[s], i);
      var o := lists[s][i];
      Update(o);
    }

    // ------------------------------------------------------------- Observer

    /** `subscribeTo(subject)`: `if (!this.subjects[subject.id])` add and record. */
    method SubscribeTo(o: ObserverId, s: SubjectId)
      requires Valid() && o in observers && s in lists
      modifies this
      ensures Model() == Tracking.SubscribeTo(old(Model()), o, s)
      ensures Valid()
    {
      if s !in observers[o].subjects {
        AddObserver(s, o);
        observers := observers[o := observers[o].(subjects := observers[o].subjects + {s})];
      }
    }

    /**
     * `obj[key]`: the getter of an intercepted property subscribes
     * `currentObserver`, if set, and returns the closed-over value.
     */
    method Get(o: ObjId, k: Key) returns (v: Value)
      requires Valid()
      modifies this
      ensures (Model(), v) == Tracking.Get(old(Model()), o, k)
      ensures Valid()
    {
      var p := Slot(o, k);
      if p in slots && slots[p].Tracked? {
        if current.Some? {
          SubscribeTo(current.value, slots[p].subject);
        }
        v := slots[p].value;
      } else if p in slots {
        v := slots[p].value;
      } else {
        v := Undefined;
      }
    }

    /** `getValue()`: `currentObserver = this`, read `vm.$data[key]`, `currentObserver = undefined`. */
    method GetValue(o: ObserverId) returns (v: Value)
      requires Valid() && o in observers
      modifies this
      ensures (Model(), v) == Tracking.GetValue(old(Model()), o)
      ensures Valid()
    {
      current := Some(o);
      v := Get(observers[o].root, observers[o].key);
      current := None;
    }

    /** `update()`: re-read, and on `value !== oldVal` remember it and call `cb(value, oldVal)`. */
    method Update(o: ObserverId)
      requires Valid() && o in observers
      modifies this
      ensures Model() == Tracking.Update(old(Model()), o)
      ensures Valid()
    {
      var oldVal := observers[o].value;
      var value := GetValue(o);
      if value != oldVal {
        observers := observers[o := observers[o].(value := value)];
        log := log + [Fired(o, value, oldVal)];
      }
    }

    /** `new Observer(vm, key, cb)`: `this.subjects = {}`, then `this.value = this.getValue()`. */
    method NewObserver(root: ObjId, key: Key) returns (o: ObserverId)
      requires Valid()
      modifies this
      ensures (Model(), o) == Tracking.NewObserver(old(Model()), root, key)
      ensures Valid()
    {
      o := observerCount;
      observerCount := observerCount + 1;
      observers := observers[o := ObserverRec(root, key, Undefined, {})];
      var v := GetValue(o);
      observers := observers[o := observers[o].(value := v)];
    }

    // ---------------------------------------------------------------- Store

    /** `obj[key] = v`: the setter stores `v` in its closure and calls `subject.notify()`. */
    method Set(o: ObjId, k: Key, v: Value)
      requires Valid() && o in objects && Closed(Model(), v)
      modifies this
      ensures Model() == Assign(old(Model()), o, k, v)
      ensures Valid()
    {
      var p := Slot(o, k);
      if p in slots && slots[p].Tracked? {
        var s := slots[p].subject;
        SlotReplacedValid(Model(), p, Tracked(v, s));
        slots := slots[p := Tracked(v, s)];
        Notify(s);
      } else if p in slots {
        SlotReplacedValid(Model(), p, Plain(v));
        slots := slots[p := Plain(v)];
      } else {
        objects := objects[o := objects[o] + [k]];
        slots := slots[p := Plain(v)];
      }
    }

    /**
     * `Observe(data)`: nothing unless `data` is an object; otherwise every
     * property of it, and of every object reachable from it, is intercepted
     * with a Subject of its own.
     */
    method Observe(data: Value, ghost rank: map<ObjId, nat>)
      requires Valid() && current == None && Closed(Model(), data)
      requires Ranked(objects, slots, rank)
      modifies this
      ensures Model() == Tracking.Observe(old(Model()), data, rank)
      ensures Valid()
    {
      if data.Obj? {
        ConvertObject(data.ref, rank);
      }
    }

    /** The for-in loop of `Observe` over one object, one `ConvertKey` per key. */
    method ConvertObject(o: ObjId, ghost rank: map<ObjId, nat>)
      requires Valid() && current == None && o in objects
      requires Ranked(objects, slots, rank)
      modifies this
      ensures Model() == ObserveKeys(old(Model()), o, 0, rank)
      ensures Valid()
      decreases rank[o], 1
    {
      ghost var st0 := Model();
      var keys := objects[o];
      var i := 0;
      while i < |keys|
        invariant 0 <= i <= |keys| && objects == st0.objects && keys == objects[o]
        invariant Valid() && current == None && Ranked(objects, slots, rank)
        invariant ObserveKeys(Model(), o, i, rank) == ObserveKeys(st0, o, 0, rank)
      {
        ghost var before := Model();
        ConvertKey(o, i, rank);
        ObserveKeysStep(before, Model(), o, i, rank);
        i := i + 1;
      }
    }

    /**
     * One iteration of that loop: a fresh Subject and the accessor pair over
     * `data[key]`, then `Observe` of the value. Reading the value through a
     * getter already installed subscribes nobody, since no Observer is
     * evaluating during a conversion.
     */
    method ConvertKey(o: ObjId, i: nat, ghost rank: map<ObjId, nat>)
      requires Valid() && current == None && Ranked(objects, slots, rank)
      requires o in objects && i < |objects[o]|
      modifies this
      ensures Model() == ObserveKey(old(Model()), o, i, rank)
      ensures Valid()
      decreases rank[o], 0
    {
      ghost var before := Model();
      var p := Slot(o, objects[o][i]);
      assert p in slots;
      var val := slots[p].value;
      var s := NewSubject();
      ghost var mid := Model();
      slots := slots[p := Tracked(val, s)];
      InterceptAfterNewSubject(before, p, mid, s, Model());
      ConvertedRanked(before, Model(), rank);
      if val.Obj? {
        ConvertObject(val.ref, rank);
      }
    }
  }

  /**
   * One more `forEach` step over Subject `s`'s list. The entry read from the
   * live list is the one of the snapshot, since the pass so far only
   * appended to it.
   */
  lemma NotifyListStep(st: State, s: SubjectId, i: nat, r: State)
    requires Tracking.Valid(st) && s in st.lists && i < |st.lists[s]|
    requires r == NotifyList(st, st.lists[s][..i])
    ensures Tracking.Valid(r) && s in r.lists && i < |r.lists[s]|
    ensures r.lists[s][i] == st.lists[s][i]
  {
    assert st.lists[s] <= r.lists[s];
  }

  /** A pass over the first `i + 1` entries is the pass over the first `i`, then one `update()`. */
  lemma NotifyListSnoc(st: State, l: seq<ObserverId>, i: nat)
    requires Tracking.Valid(st) && (forall j :: 0 <= j < |l| ==> l[j] in st.observers) && i < |l|
    ensures l[i] in NotifyList(st, l[..i]).observers
    ensures NotifyList(st, l[..i + 1]) == Update(NotifyList(st, l[..i]), l[i])
  {
    assert l[..i + 1][..i] == l[..i];
  }
}
