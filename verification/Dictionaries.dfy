/** Insertion-ordered dictionaries, as Python's `dict` and JavaScript's `Map` keep them: the entries carry their
    own key, a repeated key keeps its place and takes the new entry. */
module Dictionaries {
  import opened Options

  function PositionOf<T, K(==)>(entries: seq<T>, key: T -> K, k: K): (i: nat)
    ensures i <= |entries|
  {
    if entries == [] || key(entries[0]) == k then 0 else 1 + PositionOf(entries[1..], key, k)
  }

  lemma {:induction false} PositionIsFirst<T, K>(entries: seq<T>, key: T -> K, k: K)
    ensures var i := PositionOf(entries, key, k);
      && (i < |entries| ==> key(entries[i]) == k)
      && (forall j :: 0 <= j < i ==> key(entries[j]) != k)
  {
    if entries != [] && key(entries[0]) != k {
      PositionIsFirst(entries[1..], key, k);
    }
  }

  function Put<T, K(==)>(entries: seq<T>, key: T -> K, e: T): seq<T> {
    var p := PositionOf(entries, key, key(e));
    if p == |entries| then entries + [e] else entries[p := e]
  }

  /** The dictionary that a list of entries builds. */
  function Dictionary<T, K(==)>(rows: seq<T>, key: T -> K): seq<T> {
    if rows == [] then [] else Put(Dictionary(rows[..|rows| - 1], key), key, rows[|rows| - 1])
  }

  predicate UniqueKeys<T, K(==)>(entries: seq<T>, key: T -> K) {
    forall i, j :: 0 <= i < j < |entries| ==> key(entries[i]) != key(entries[j])
  }

  /** The last entry with a key. */
  function LastOf<T, K(==)>(entries: seq<T>, key: T -> K, k: K): Option<T> {
    if entries == [] then None
    else if key(entries[|entries| - 1]) == k then Some(entries[|entries| - 1])
    else LastOf(entries[..|entries| - 1], key, k)
  }

  lemma LastOfAppended<T, K>(entries: seq<T>, key: T -> K, e: T, k: K)
    ensures LastOf(entries + [e], key, k) == if key(e) == k then Some(e) else LastOf(entries, key, k)
  {
    assert (entries + [e])[..|entries|] == entries;
  }

  lemma {:induction false} LastOfReplaced<T, K>(entries: seq<T>, key: T -> K, e: T, p: nat, k: K)
    requires p < |entries| && UniqueKeys(entries, key) && key(entries[p]) == key(e)
    ensures LastOf(entries[p := e], key, k) == if key(e) == k then Some(e) else LastOf(entries, key, k)
  {
    var n := |entries| - 1;
    if p < n {
      LastOfReplaced(entries[..n], key, e, p, k);
      assert entries[p := e][..n] == entries[..n][p := e];
    } else {
      assert entries[p := e][..n] == entries[..n];
    }
  }

  lemma PutSets<T, K>(entries: seq<T>, key: T -> K, e: T, k: K)
    requires UniqueKeys(entries, key)
    ensures UniqueKeys(Put(entries, key, e), key)
    ensures LastOf(Put(entries, key, e), key, k) == if key(e) == k then Some(e) else LastOf(entries, key, k)
  {
    hide LastOf, PositionOf;
    var p := PositionOf(entries, key, key(e));
    PositionIsFirst(entries, key, key(e));
    if p == |entries| {
      LastOfAppended(entries, key, e, k);
    } else {
      LastOfReplaced(entries, key, e, p, k);
    }
  }

  /** A dictionary has every key of its rows once, with the last row of that key. */
  lemma {:induction false} DictionaryHolds<T, K>(rows: seq<T>, key: T -> K, k: K)
    ensures UniqueKeys(Dictionary(rows, key), key)
    ensures LastOf(Dictionary(rows, key), key, k) == LastOf(rows, key, k)
  {
    hide Put;
    if rows != [] {
      DictionaryHolds(rows[..|rows| - 1], key, k);
      PutSets(Dictionary(rows[..|rows| - 1], key), key, rows[|rows| - 1], k);
    }
  }

  /** Rows that do not repeat a key are their own dictionary. */
  lemma {:induction false} DictionaryOfUnique<T, K>(rows: seq<T>, key: T -> K)
    requires UniqueKeys(rows, key)
    ensures Dictionary(rows, key) == rows
  {
    if rows != [] {
      var n := |rows| - 1;
      DictionaryOfUnique(rows[..n], key);
      PositionIsFirst(rows[..n], key, key(rows[n]));
      assert PositionOf(rows[..n], key, key(rows[n])) == n;
      assert rows == rows[..n] + [rows[n]];
    }
  }

  method Build<T, K(==)>(rows: seq<T>, key: T -> K) returns (entries: seq<T>)
    ensures entries == Dictionary(rows, key)
  {
    entries := [];
    for i := 0 to |rows|
      invariant entries == Dictionary(rows[..i], key)
    {
      assert rows[..i + 1][..i] == rows[..i];
      entries := Put(entries, key, rows[i]);
    }
    assert rows[..|rows|] == rows;
  }

  // ----- Order does not matter ----------------------------------------------------------

  lemma LastOfIsIn<T, K>(entries: seq<T>, key: T -> K, k: K)
    ensures LastOf(entries, key, k).Some? ==>
      LastOf(entries, key, k).value in multiset(entries) && key(LastOf(entries, key, k).value) == k
    ensures LastOf(entries, key, k).None? ==> forall e :: e in multiset(entries) ==> key(e) != k
  {
    if entries != [] {
      var n := |entries| - 1;
      assert entries == entries[..n] + [entries[n]];
      LastOfIsIn(entries[..n], key, k);
    }
  }

  /** Each key is carried by one entry, and that entry is listed once. */
  ghost predicate OnePerKey<T, K>(m: multiset<T>, key: T -> K) {
    && (forall e :: e in m ==> m[e] == 1)
    && (forall e, f :: e in m && f in m && key(e) == key(f) ==> e == f)
  }

  lemma {:induction false} KeysOnce<T, K>(entries: seq<T>, key: T -> K)
    requires UniqueKeys(entries, key)
    ensures OnePerKey(multiset(entries), key)
  {
    if entries != [] {
      var n := |entries| - 1;
      KeysOnce(entries[..n], key);
      assert entries == entries[..n] + [entries[n]];
      assert forall e :: e in multiset(entries[..n]) ==> e in entries[..n] && key(e) != key(entries[n]);
    }
  }

  lemma {:induction false} UniqueFromCounts<T, K>(entries: seq<T>, key: T -> K)
    requires OnePerKey(multiset(entries), key)
    ensures UniqueKeys(entries, key)
  {
    if entries != [] {
      var n := |entries| - 1;
      assert entries == entries[..n] + [entries[n]];
      assert multiset(entries) == multiset(entries[..n]) + multiset{entries[n]};
      assert multiset(entries)[entries[n]] == 1;
      assert entries[n] !in multiset(entries[..n]);
      assert forall e :: e in multiset(entries[..n]) ==> e in multiset(entries);
      UniqueFromCounts(entries[..n], key);
      forall i | 0 <= i < n
        ensures key(entries[i]) != key(entries[n])
      {
        assert entries[..n][i] in multiset(entries[..n]);
      }
    }
  }

  /** Listing a dictionary in another order does not change what it holds. */
  lemma LastOfPermuted<T, K>(a: seq<T>, b: seq<T>, key: T -> K, k: K)
    requires multiset(a) == multiset(b) && UniqueKeys(a, key)
    ensures UniqueKeys(b, key) && LastOf(a, key, k) == LastOf(b, key, k)
  {
    KeysOnce(a, key);
    UniqueFromCounts(b, key);
    LastOfIsIn(a, key, k);
    LastOfIsIn(b, key, k);
    var x, y := LastOf(a, key, k), LastOf(b, key, k);
    if x.Some? {
      assert x.value in multiset(b);
    }
    if y.Some? {
      assert y.value in multiset(a);
    }
  }

  lemma HeldIffLast<T, K>(entries: seq<T>, key: T -> K, e: T)
    requires UniqueKeys(entries, key)
    ensures e in entries <==> LastOf(entries, key, key(e)) == Some(e)
  {
    KeysOnce(entries, key);
    LastOfIsIn(entries, key, key(e));
  }
}
