/**
 * The ordered observer list of a Subject (`this.observers`) and the two
 * array operations the Subject performs on it.
 */
module SubjectLists {
  import opened Values

  /** `observers.indexOf(o)`: the first position of `o`, or -1 when it is absent. */
  function IndexOf(list: seq<ObserverId>, o: ObserverId): (i: int)
    ensures -1 <= i < |list|
    ensures i == -1 <==> o !in list
    ensures 0 <= i ==> list[i] == o && o !in list[..i]
  {
    if list == [] then -1
    else if list[0] == o then 0
    else
      var j := IndexOf(list[1..], o);
      assert list[1..][..if j < 0 then 0 else j] == list[1..if j < 0 then 1 else j + 1];
      if j == -1 then -1 else j + 1
  }

  /** `addObserver`: pushes `o` at the end whatever the list holds; the `indexOf` it computes is never used. */
  function Added(list: seq<ObserverId>, o: ObserverId): (r: seq<ObserverId>)
    ensures |r| == |list| + 1 && r[..|list|] == list && r[|list|] == o
  {
    list + [o]
  }

  /** `removeObserver`: splices out the entry at `indexOf(o)` when there is one. */
  function RemovedFirst(list: seq<ObserverId>, o: ObserverId): (r: seq<ObserverId>)
    ensures o !in list ==> r == list
    ensures o in list ==> |r| == |list| - 1 && multiset(r) == multiset(list) - multiset{o}
    ensures o in list ==> exists i :: 0 <= i < |list| && list[i] == o && o !in list[..i] && r == list[..i] + list[i + 1..]
    ensures forall j :: 0 <= j < |r| ==> r[j] in list
  {
    var i := IndexOf(list, o);
    if i > -1 then
      assert list == list[..i] + [list[i]] + list[i + 1..];
      list[..i] + list[i + 1..]
    else list
  }

  /** Adding never checks for a duplicate: the list holds one more `o`, present or not, and as many of every other observer. */
  lemma AddedCountsOneMore(list: seq<ObserverId>, o: ObserverId)
    ensures multiset(Added(list, o))[o] == multiset(list)[o] + 1
    ensures forall x :: x != o ==> multiset(Added(list, o))[x] == multiset(list)[x]
  {
  }

  /** Adding the same observer twice leaves two entries for it. */
  lemma AddedTwiceDuplicates(list: seq<ObserverId>, o: ObserverId)
    ensures multiset(Added(Added(list, o), o))[o] == multiset(list)[o] + 2
  {
    AddedCountsOneMore(list, o);
    AddedCountsOneMore(Added(list, o), o);
  }

  /** Removing an observer that was just added to a list without it gives the list back. */
  lemma {:induction false} RemovedFirstUndoesAdded(list: seq<ObserverId>, o: ObserverId)
    requires o !in list
    ensures RemovedFirst(Added(list, o), o) == list
  {
    var l := Added(list, o);
    var i := IndexOf(l, o);
    assert l[..|list|] == list;
    assert i == |list|;
  }

  /** Removal takes out the first occurrence only: a second copy stays where it was. */
  lemma RemovedFirstKeepsLaterCopies(list: seq<ObserverId>, o: ObserverId)
    requires multiset(list)[o] >= 2
    ensures o in RemovedFirst(list, o)
  {
    var r: seq<ObserverId> := RemovedFirst(list, o);
    assert multiset(r)[o] == multiset(list)[o] - 1;
  }
}
