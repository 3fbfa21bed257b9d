/** The `.sort(...)` that turns the aggregated entries into `statsData`:
    points ordered by the instant their key denotes. */
module Sorting {
  import opened Series

  /** Keys never decrease along the series. */
  predicate Ascending(es: seq<Entry>) {
    forall i, j :: 0 <= i < j < |es| ==> es[i].key <= es[j].key
  }

  /** Keys strictly increase along the series. */
  predicate StrictlyAscending(es: seq<Entry>) {
    forall i, j :: 0 <= i < j < |es| ==> es[i].key < es[j].key
  }

  /** Places `e` before the first point whose key is not smaller. */
  function Insert(e: Entry, es: seq<Entry>): (r: seq<Entry>)
    ensures |r| == |es| + 1
  {
    if |es| == 0 then [e]
    else if e.key <= es[0].key then [e] + es
    else [es[0]] + Insert(e, es[1..])
  }

  /** The sort by ascending time. The comparator subtracts the two keys'
      instants, so only the keys decide the order. */
  function SortByTime(es: seq<Entry>): (r: seq<Entry>)
    ensures |r| == |es|
  {
    if |es| == 0 then [] else Insert(es[0], SortByTime(es[1..]))
  }

  lemma {:induction false} InsertPermutes(e: Entry, es: seq<Entry>)
    ensures multiset(Insert(e, es)) == multiset(es) + multiset{e}
    decreases |es|
  {
    if |es| > 0 {
      assert es == [es[0]] + es[1..];
      if e.key > es[0].key {
        InsertPermutes(e, es[1..]);
      }
    }
  }

  /** A point of `Insert(e, es)` is `e` or a point of `es`. */
  lemma {:induction false} InsertMember(e: Entry, es: seq<Entry>, j: int)
    requires 0 <= j < |Insert(e, es)|
    ensures Insert(e, es)[j] == e || exists i :: 0 <= i < |es| && es[i] == Insert(e, es)[j]
    decreases |es|
  {
    if |es| > 0 && e.key > es[0].key && j > 0 {
      InsertMember(e, es[1..], j - 1);
      if Insert(e, es)[j] != e {
        var i :| 0 <= i < |es[1..]| && es[1..][i] == Insert(e, es)[j];
        assert es[i + 1] == Insert(e, es)[j];
      }
    }
  }

  /** Inserting into a sorted series keeps it sorted. */
  lemma {:induction false} InsertAscending(e: Entry, es: seq<Entry>)
    requires Ascending(es)
    ensures Ascending(Insert(e, es))
    decreases |es|
  {
    if |es| > 0 && e.key > es[0].key {
      var rest := Insert(e, es[1..]);
      InsertAscending(e, es[1..]);
      forall j | 0 <= j < |rest|
        ensures es[0].key <= rest[j].key
      {
        InsertMember(e, es[1..], j);
      }
      assert Insert(e, es) == [es[0]] + rest;
    }
  }

  /** Inserting a new key into a strictly sorted series keeps it strictly
      sorted. */
  lemma {:induction false} InsertStrictlyAscending(e: Entry, es: seq<Entry>)
    requires StrictlyAscending(es)
    requires forall i :: 0 <= i < |es| ==> es[i].key != e.key
    ensures StrictlyAscending(Insert(e, es))
    decreases |es|
  {
    if |es| > 0 && e.key > es[0].key {
      var rest := Insert(e, es[1..]);
      InsertStrictlyAscending(e, es[1..]);
      forall j | 0 <= j < |rest|
        ensures es[0].key < rest[j].key
      {
        InsertMember(e, es[1..], j);
      }
      assert Insert(e, es) == [es[0]] + rest;
    }
  }

  lemma {:induction false} SortByTimePermutes(es: seq<Entry>)
    ensures multiset(SortByTime(es)) == multiset(es)
    decreases |es|
  {
    if |es| > 0 {
      SortByTimePermutes(es[1..]);
      InsertPermutes(es[0], SortByTime(es[1..]));
      assert es == [es[0]] + es[1..];
    }
  }

  /** A point of the sorted series is a point of the input. */
  lemma SortedMember(es: seq<Entry>, i: int)
    requires 0 <= i < |SortByTime(es)|
    ensures exists j :: 0 <= j < |es| && es[j] == SortByTime(es)[i]
  {
    SortByTimePermutes(es);
    assert SortByTime(es)[i] in multiset(es);
  }

  /** `statsData` is a permutation of the aggregated entries, ordered by
      non-decreasing time, and strictly increasing when the keys are
      distinct, as the keys of a `Map` are. */
  lemma {:induction false} SortByTimeSorts(es: seq<Entry>)
    ensures multiset(SortByTime(es)) == multiset(es)
    ensures Ascending(SortByTime(es))
    ensures DistinctKeys(es) ==> StrictlyAscending(SortByTime(es))
    decreases |es|
  {
    SortByTimePermutes(es);
    if |es| > 0 {
      var rest := SortByTime(es[1..]);
      SortByTimeSorts(es[1..]);
      if DistinctKeys(es) {
        forall i | 0 <= i < |rest|
          ensures rest[i].key != es[0].key
        {
          SortedMember(es[1..], i);
        }
      }
      InsertAscending(es[0], rest);
      if DistinctKeys(es) {
        InsertStrictlyAscending(es[0], rest);
      }
    }
  }
}
