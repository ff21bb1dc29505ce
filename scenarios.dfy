/**
 * A client of the engine as the MVVM front end uses it: convert `$data`,
 * bind an Observer to one key, then assign to that key from outside.
 */
module Scenarios {
  import opened Values
  import opened Tracking
  import TrackingFacts
  import Reactive

  /**
   * `$data = { count: 0 }`, one Observer on `count`, then the writes
   * `count = 5`, `count = 5`, `count = 6`: the Observer starts at 0 and its
   * callback runs with `(5, 0)` and `(6, 5)` and not for the repeated 5.
   */
  method Counter() returns (initial: Value, log: seq<Event>)
    ensures initial == Num(0)
    ensures log == [Fired(0, Num(5), Num(0)), Fired(0, Num(6), Num(5))]
  {
    var key := "count";
    var e := new Reactive.Engine(map[0 := [key]], map[Slot(0, key) := Plain(Num(0))]);
    ghost var st0 := e.Model();
    e.Observe(Obj(0), map[0 := 0]);
    ghost var st1 := e.Model();
    TrackingFacts.ObserveFresh(st0, Obj(0), map[0 := 0]);
    assert key in st1.objects[0];
    assert TrackingFacts.KeyFresh(st1.objects, st1.slots, 0, key, map[0 := 0], 0);
    ghost var s := e.slots[Slot(0, key)].subject;
    assert SubjectOf(st1, 0, key) == Some(s) && st1.lists[s] == [];

    var o := e.NewObserver(0, key);
    TrackingFacts.NewObserverSoleSubscriber(st1, 0, key, s);
    initial := e.observers[o].value;
    ghost var st2 := e.Model();
    assert o == 0 && st2.log == [];

    e.Set(0, key, Num(5));
    e.Set(0, key, Num(5));
    e.Set(0, key, Num(6));
    CounterWrites(st2, o, s);
    log := e.log;
  }

  /** The three writes of `Counter`, on the state right after the Observer was bound. */
  lemma CounterWrites(st: State, o: ObserverId, s: SubjectId)
    requires Valid(st) && TrackingFacts.SoleSubscriber(st, o, s) && o == 0
    requires st.observers[o].root == 0 && st.observers[o].key == "count" && st.observers[o].value == Num(0)
    requires st.log == []
    ensures 0 in st.objects
    ensures var st1 := Assign(st, 0, "count", Num(5));
      Assign(Assign(st1, 0, "count", Num(5)), 0, "count", Num(6)).log ==
        [Fired(0, Num(5), Num(0)), Fired(0, Num(6), Num(5))]
  {
    CountWrite(st, o, s, "count", Num(5), Num(0));
    LaterWrites(Assign(st, 0, "count", Num(5)), o, s);
  }

  /** `count = 5` again, then `count = 6`, while the Observer remembers 5. */
  lemma LaterWrites(st: State, o: ObserverId, s: SubjectId)
    requires Valid(st) && TrackingFacts.SoleSubscriber(st, o, s) && o == 0
    requires st.observers[o].root == 0 && st.observers[o].key == "count" && st.observers[o].value == Num(5)
    requires st.log == [Fired(0, Num(5), Num(0))]
    ensures 0 in st.objects
    ensures Assign(Assign(st, 0, "count", Num(5)), 0, "count", Num(6)).log ==
              [Fired(0, Num(5), Num(0)), Fired(0, Num(6), Num(5))]
  {
    CountWrite(st, o, s, "count", Num(5), Num(5));
    var st1 := Assign(st, 0, "count", Num(5));
    assert st1.log == [Fired(0, Num(5), Num(0))];
    CountWrite(st1, o, s, "count", Num(6), Num(5));
    TwoEvents(Fired(0, Num(5), Num(0)), Fired(0, Num(6), Num(5)));
  }

  /**
   * One write of `v` to the Observer's key while it remembers `was`: the log
   * gains `(v, was)` exactly when they differ, and the Observer then
   * remembers `v`.
   */
  lemma CountWrite(st: State, o: ObserverId, s: SubjectId, k: Key, v: Value, was: Value)
    requires Valid(st) && TrackingFacts.SoleSubscriber(st, o, s) && !v.Obj?
    requires st.observers[o].root == 0 && st.observers[o].key == k && st.observers[o].value == was
    ensures 0 in st.objects
    ensures var r := Assign(st, 0, k, v);
      && Valid(r) && TrackingFacts.SoleSubscriber(r, o, s)
      && r.observers[o].root == 0 && r.observers[o].key == k && r.observers[o].value == v
      && r.log == st.log + (if v != was then [Fired(o, v, was)] else [])
  {
    TrackingFacts.WriteToSoleSubscriber(st, o, s, v);
  }

  lemma TwoEvents(a: Event, b: Event)
    ensures [a] + [b] == [a, b]
  {
  }
}
