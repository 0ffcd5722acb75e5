/** Collapsing a log of events: the last event of every id, newest first. Timestamps are compared as numbers. */
module Collapsing {
  import opened Dictionaries
  import opened Options

  datatype Event<D> = Event(timestamp: int, data: D)

  // ----- Stable sorting -----------------------------------------------------------------

  predicate InOrder<D>(a: Event<D>, b: Event<D>, newestFirst: bool) {
    if newestFirst then a.timestamp >= b.timestamp else a.timestamp <= b.timestamp
  }

  predicate Sorted<D>(events: seq<Event<D>>, newestFirst: bool) {
    forall i, j :: 0 <= i < j < |events| ==> InOrder(events[i], events[j], newestFirst)
  }

  /** Puts an event behind all those that may stand before it. */
  function Insert<D>(events: seq<Event<D>>, e: Event<D>, newestFirst: bool): (r: seq<Event<D>>)
    ensures |r| == |events| + 1
  {
    if events == [] || InOrder(events[|events| - 1], e, newestFirst) then events + [e]
    else Insert(events[..|events| - 1], e, newestFirst) + [events[|events| - 1]]
  }

  /** The stable sort by timestamp. */
  function StableSort<D>(events: seq<Event<D>>, newestFirst: bool): (r: seq<Event<D>>)
    ensures |r| == |events|
  {
    if events == [] then []
    else Insert(StableSort(events[..|events| - 1], newestFirst), events[|events| - 1], newestFirst)
  }

  lemma {:induction false} InsertAdds<D>(events: seq<Event<D>>, e: Event<D>, newestFirst: bool)
    ensures multiset(Insert(events, e, newestFirst)) == multiset(events) + multiset{e}
  {
    hide InOrder;
    if events != [] && !InOrder(events[|events| - 1], e, newestFirst) {
      assert events == events[..|events| - 1] + [events[|events| - 1]];
      InsertAdds(events[..|events| - 1], e, newestFirst);
    }
  }

  lemma {:induction false} InsertSorted<D>(events: seq<Event<D>>, e: Event<D>, newestFirst: bool)
    requires Sorted(events, newestFirst)
    ensures Sorted(Insert(events, e, newestFirst), newestFirst)
  {
    if events != [] && !InOrder(events[|events| - 1], e, newestFirst) {
      var init, last := events[..|events| - 1], events[|events| - 1];
      InsertSorted(init, e, newestFirst);
      InsertAdds(init, e, newestFirst);
      AllBefore(init, e, Insert(init, e, newestFirst), last, newestFirst);
    }
  }

  lemma AllBefore<D>(init: seq<Event<D>>, e: Event<D>, r: seq<Event<D>>, last: Event<D>, newestFirst: bool)
    requires multiset(r) == multiset(init) + multiset{e}
    requires InOrder(e, last, newestFirst) && forall i :: 0 <= i < |init| ==> InOrder(init[i], last, newestFirst)
    ensures forall i :: 0 <= i < |r| ==> InOrder(r[i], last, newestFirst)
  {
    hide InOrder;
    forall i | 0 <= i < |r|
      ensures InOrder(r[i], last, newestFirst)
    {
      assert r[i] in multiset(r);
    }
  }

  lemma {:induction false} StableSortSorted<D>(events: seq<Event<D>>, newestFirst: bool)
    ensures Sorted(StableSort(events, newestFirst), newestFirst)
    ensures multiset(StableSort(events, newestFirst)) == multiset(events)
  {
    hide InOrder, Insert;
    if events != [] {
      var init, last := events[..|events| - 1], events[|events| - 1];
      StableSortSorted(init, newestFirst);
      InsertSorted(StableSort(init, newestFirst), last, newestFirst);
      InsertAdds(StableSort(init, newestFirst), last, newestFirst);
      assert events == init + [last];
    }
  }

  /** The events of one moment, in their order. */
  function At<D>(events: seq<Event<D>>, t: int): seq<Event<D>> {
    if events == [] then []
    else At(events[..|events| - 1], t) + if events[|events| - 1].timestamp == t then [events[|events| - 1]] else []
  }

  lemma AtAppend<D>(a: seq<Event<D>>, b: seq<Event<D>>, t: int)
    ensures At(a + b, t) == At(a, t) + At(b, t)
  {
    if b == [] {
      assert a + b == a;
    } else {
      assert (a + b)[..|a + b| - 1] == a + b[..|b| - 1];
      AtAppend(a, b[..|b| - 1], t);
    }
  }

  lemma AtOne<D>(e: Event<D>, t: int)
    ensures At([e], t) == if e.timestamp == t then [e] else []
  {
    assert [e][..0] == [];
  }

  /** Events of different moments do not meet in `At`. */
  lemma OneOfEach<D>(a: seq<Event<D>>, e: Event<D>, last: Event<D>, t: int)
    requires e.timestamp != last.timestamp
    ensures a + (if e.timestamp == t then [e] else []) + (if last.timestamp == t then [last] else []) ==
      a + (if last.timestamp == t then [last] else []) + (if e.timestamp == t then [e] else [])
  {
  }

  lemma DifferentMoments<D>(a: Event<D>, b: Event<D>, newestFirst: bool)
    requires !InOrder(a, b, newestFirst)
    ensures a.timestamp != b.timestamp
  {
  }

  /** Sorting keeps the order of the events of one moment. */
  lemma {:induction false} InsertIsStable<D>(events: seq<Event<D>>, e: Event<D>, newestFirst: bool, t: int)
    ensures At(Insert(events, e, newestFirst), t) == At(events, t) + At([e], t)
  {
    hide InOrder, At;
    AtAppend(events, [e], t);
    if events != [] && !InOrder(events[|events| - 1], e, newestFirst) {
      var init, last := events[..|events| - 1], events[|events| - 1];
      assert events == init + [last];
      InsertIsStable(init, e, newestFirst, t);
      AtAppend(Insert(init, e, newestFirst), [last], t);
      AtAppend(init, [last], t);
      AtOne(e, t);
      AtOne(last, t);
      DifferentMoments(last, e, newestFirst);
      OneOfEach(At(init, t), e, last, t);
    }
  }

  lemma {:induction false} SortIsStable<D>(events: seq<Event<D>>, newestFirst: bool, t: int)
    ensures At(StableSort(events, newestFirst), t) == At(events, t)
  {
    if events != [] {
      var init, last := events[..|events| - 1], events[|events| - 1];
      assert events == init + [last];
      SortIsStable(init, newestFirst, t);
      InsertIsStable(StableSort(init, newestFirst), last, newestFirst, t);
      AtAppend(init, [last], t);
    }
  }

  ghost predicate SameMoments<D>(a: seq<Event<D>>, b: seq<Event<D>>) {
    forall t :: At(a, t) == At(b, t)
  }

  lemma SomeAt<D>(events: seq<Event<D>>, i: nat)
    requires i < |events|
    ensures events[i] in At(events, events[i].timestamp)
  {
    if i < |events| - 1 {
      SomeAt(events[..|events| - 1], i);
    }
  }

  lemma AtHolds<D>(events: seq<Event<D>>, t: int, e: Event<D>)
    requires e in At(events, t)
    ensures e in events && e.timestamp == t
  {
    if events[|events| - 1] != e || events[|events| - 1].timestamp != t {
      AtHolds(events[..|events| - 1], t, e);
    }
  }

  /** The oldest moment of a list that is sorted newest first is that of its last event. */
  lemma SameLastMoment<D>(a: seq<Event<D>>, b: seq<Event<D>>)
    requires Sorted(a, true) && Sorted(b, true) && SameMoments(a, b) && a != []
    ensures b != [] && a[|a| - 1].timestamp >= b[|b| - 1].timestamp
  {
    var e := a[|a| - 1];
    SomeAt(a, |a| - 1);
    assert At(a, e.timestamp) == At(b, e.timestamp);
    AtHolds(b, e.timestamp, e);
  }

  /** A list sorted newest first is determined by the events of its moments. */
  lemma {:induction false} SortedIsUnique<D>(a: seq<Event<D>>, b: seq<Event<D>>)
    requires Sorted(a, true) && Sorted(b, true) && SameMoments(a, b)
    ensures a == b
  {
    if a == [] || b == [] {
      if a != [] {
        SameLastMoment(a, b);
      }
      if b != [] {
        SameLastMoment(b, a);
      }
    } else {
      SameLastMoment(a, b);
      SameLastMoment(b, a);
      var x, y := a[|a| - 1], b[|b| - 1];
      var t := x.timestamp;
      assert At(a, t) == At(b, t);
      assert x == At(a, t)[|At(a, t)| - 1] == y;
      DropLast(a, b, x);
      SortedIsUnique(a[..|a| - 1], b[..|b| - 1]);
      assert a == a[..|a| - 1] + [x] && b == b[..|b| - 1] + [x];
    }
  }

  lemma DropLast<D>(a: seq<Event<D>>, b: seq<Event<D>>, x: Event<D>)
    requires a != [] && b != [] && a[|a| - 1] == x == b[|b| - 1] && SameMoments(a, b)
    ensures SameMoments(a[..|a| - 1], b[..|b| - 1])
  {
    var c, d := a[..|a| - 1], b[..|b| - 1];
    forall t
      ensures At(c, t) == At(d, t)
    {
      var tail := if x.timestamp == t then [x] else [];
      assert At(a, t) == At(c, t) + tail && At(b, t) == At(d, t) + tail;
      assert At(c, t) == At(a, t)[..|At(a, t)| - |tail|];
      assert At(d, t) == At(b, t)[..|At(b, t)| - |tail|];
    }
  }

  // ----- Collapsing the log -------------------------------------------------------------

  function Collapsed<D>(events: seq<Event<D>>, key: Event<D> -> string): seq<Event<D>> {
    StableSort(Dictionary(StableSort(events, false), key), true)
  }

  /** The newest event with an id; of those of one moment, the one listed last. */
  function LastWrite<D>(events: seq<Event<D>>, key: Event<D> -> string, id: string): Option<Event<D>> {
    if events == [] then None
    else
      var last, e := LastWrite(events[..|events| - 1], key, id), events[|events| - 1];
      if key(e) == id && (last.None? || last.value.timestamp <= e.timestamp) then Some(e) else last
  }

  lemma {:induction false} LastWriteIsLatest<D>(events: seq<Event<D>>, key: Event<D> -> string, id: string)
    ensures var last := LastWrite(events, key, id);
      && (last.Some? ==> last.value in events && key(last.value) == id)
      && (forall e :: e in events && key(e) == id ==> last.Some? && e.timestamp <= last.value.timestamp)
  {
    if events != [] {
      var init, e := events[..|events| - 1], events[|events| - 1];
      LastWriteIsLatest(init, key, id);
      assert events == init + [e];
    }
  }

  lemma {:induction false} LastOfInsert<D>(events: seq<Event<D>>, key: Event<D> -> string, e: Event<D>, id: string)
    requires Sorted(events, false)
    ensures LastOf(events, key, id).Some? ==> LastOf(events, key, id).value in events
    ensures LastOf(Insert(events, e, false), key, id) ==
      if key(e) == id && (LastOf(events, key, id).None? || LastOf(events, key, id).value.timestamp <= e.timestamp)
      then Some(e) else LastOf(events, key, id)
  {
    if events == [] {
      LastOfAppended(events, key, e, id);
    } else {
      var init, last := events[..|events| - 1], events[|events| - 1];
      LastOfInsert(init, key, e, id);
      if InOrder(last, e, false) {
        LastOfAppended(events, key, e, id);
      } else {
        LastOfAppended(Insert(init, e, false), key, last, id);
      }
    }
  }

  lemma {:induction false} LastOfSorted<D>(events: seq<Event<D>>, key: Event<D> -> string, id: string)
    ensures LastOf(StableSort(events, false), key, id) == LastWrite(events, key, id)
  {
    hide Insert, Sorted;
    if events != [] {
      var init := events[..|events| - 1];
      LastOfSorted(init, key, id);
      StableSortSorted(init, false);
      LastOfInsert(StableSort(init, false), key, events[|events| - 1], id);
    }
  }

  /** The collapsed log has one event per id, newest first, and under each id the last one written. */
  lemma CollapseIsLastWriteWins<D>(events: seq<Event<D>>, key: Event<D> -> string, id: string)
    ensures Sorted(Collapsed(events, key), true)
    ensures UniqueKeys(Collapsed(events, key), key)
    ensures LastOf(Collapsed(events, key), key, id) == LastWrite(events, key, id)
  {
    hide StableSort, Dictionary, UniqueKeys, LastOf, LastWrite, Sorted;
    var sorted := StableSort(events, false);
    DictionaryHolds(sorted, key, id);
    LastOfSorted(events, key, id);
    StableSortSorted(Dictionary(sorted, key), true);
    LastOfPermuted(Dictionary(sorted, key), StableSort(Dictionary(sorted, key), true), key, id);
  }

  /** Collapsing what was collapsed changes nothing, not even the order of events of one moment. */
  lemma CollapseIsIdempotent<D>(events: seq<Event<D>>, key: Event<D> -> string)
    ensures Collapsed(Collapsed(events, key), key) == Collapsed(events, key)
  {
    hide StableSort, Dictionary, UniqueKeys, LastOf, LastWrite, Sorted, At;
    var once := Collapsed(events, key);
    CollapseIsLastWriteWins(events, key, "");
    var ascending := StableSort(once, false);
    StableSortSorted(once, false);
    LastOfPermuted(once, ascending, key, "");
    DictionaryOfUnique(ascending, key);
    var again := StableSort(ascending, true);
    StableSortSorted(ascending, true);
    forall t
      ensures At(again, t) == At(once, t)
    {
      SortIsStable(ascending, true, t);
      SortIsStable(once, false, t);
    }
    SortedIsUnique(again, once);
  }

  ghost predicate LaterThan<D>(now: int, events: seq<Event<D>>) {
    forall e :: e in events ==> e.timestamp < now
  }

  /** A later event takes over its id, wherever the log lists it; no other id notices. */
  lemma {:induction false} LaterWriteWins<D>(before: seq<Event<D>>, after: seq<Event<D>>, key: Event<D> -> string,
                                        e: Event<D>, id: string)
    requires LaterThan(e.timestamp, before + after)
    ensures LastWrite(before + [e] + after, key, id) == if key(e) == id then Some(e) else LastWrite(before + after, key, id)
  {
    hide LastWrite;
    var all := before + [e] + after;
    if after == [] {
      assert all == before + [e] && before + after == before;
      LastWriteAppended(before, key, e, id);
      LastWriteIsLatest(before, key, id);
    } else {
      var init, last := after[..|after| - 1], after[|after| - 1];
      assert before + after == before + init + [last];
      assert all == before + [e] + init + [last];
      LastWriteAppended(before + [e] + init, key, last, id);
      LastWriteAppended(before + init, key, last, id);
      assert last in before + after;
      LaterWriteWins(before, init, key, e, id);
    }
  }

  lemma LastWriteAppended<D>(events: seq<Event<D>>, key: Event<D> -> string, e: Event<D>, id: string)
    ensures var last := LastWrite(events, key, id);
      LastWrite(events + [e], key, id) ==
      if key(e) == id && (last.None? || last.value.timestamp <= e.timestamp) then Some(e) else last
  {
    assert (events + [e])[..|events|] == events;
  }

  /** The program's collapse: a sort, a dictionary built in a loop, and a second sort. Every id of the log comes
      out once, with its last write; the newest comes first, and events of one moment keep the order in which
      the ids were first met. */
  method Collapse<D>(events: seq<Event<D>>, key: Event<D> -> string) returns (collapsed: seq<Event<D>>)
    ensures Sorted(collapsed, true) && UniqueKeys(collapsed, key)
    ensures forall id :: LastOf(collapsed, key, id) == LastWrite(events, key, id)
    ensures forall t :: At(collapsed, t) == At(Dictionary(StableSort(events, false), key), t)
    ensures collapsed == Collapsed(events, key)
  {
    var entries := Build(StableSort(events, false), key);
    collapsed := StableSort(entries, true);
    CollapseIsLastWriteWins(events, key, "");
    forall id
      ensures LastOf(collapsed, key, id) == LastWrite(events, key, id)
    {
      CollapseIsLastWriteWins(events, key, id);
    }
    forall t
      ensures At(collapsed, t) == At(entries, t)
    {
      SortIsStable(entries, true, t);
    }
  }
}
