/** The aggregation loop: the fetched rows are grouped by their stored
    `minuteTimestamp`, each key counting the rows that carry it. */
module Aggregation {
  import opened Series

  /** `aggregatedData`, a JavaScript `Map`: its keys in insertion order and
      the count stored under each. */
  datatype CountMap = CountMap(order: seq<int>, counts: map<int, nat>) {

    ghost predicate Valid() {
      && (forall i, j :: 0 <= i < j < |order| ==> order[i] != order[j])
      && (forall k :: k in counts <==> k in order)
    }

    /** `set(k, v)`: a new key goes to the end of the order, an existing one
        keeps its place. */
    function Set(k: int, v: nat): (r: CountMap)
      ensures Valid() ==> r.Valid()
      ensures k in r.counts && r.counts[k] == v
      ensures order <= r.order && |r.order| <= |order| + 1
      ensures forall x :: x in r.counts && x != k ==> x in counts && r.counts[x] == counts[x]
    {
      CountMap(if k in counts then order else order + [k], counts[k := v])
    }

    /** `entries()` mapped to `{timestamp, count}` points, in insertion order. */
    function Entries(): (es: seq<Entry>)
      requires Valid()
      ensures |es| == |order|
      ensures forall i :: 0 <= i < |es| ==> es[i].key == order[i] && es[i].count == counts[order[i]]
      ensures DistinctKeys(es)
    {
      assert forall i :: 0 <= i < |order| ==> order[i] in order;
      seq(|order|, i requires 0 <= i < |order| && order[i] in counts => Entry(order[i], counts[order[i]]))
    }
  }

  /** The `forEach` over the fetched rows, each row given by its stored key. */
  function Aggregate(items: seq<int>): (m: CountMap)
    ensures m.Valid()
    ensures forall k :: k in m.counts <==> k in items
    ensures forall k :: k in m.counts ==> m.counts[k] == multiset(items)[k] >= 1
  {
    if |items| == 0 then CountMap([], map[])
    else
      var init := items[..|items| - 1];
      var k := items[|items| - 1];
      var m := Aggregate(init);
      assert items == init + [k];
      m.Set(k, Lookup(m.counts, k) + 1)
  }

  /** The counts of the aggregated entries add up to the number of rows. */
  lemma AggregateTotal(items: seq<int>)
    ensures Total(Aggregate(items).Entries()) == |items|
  {
    var m := Aggregate(items);
    forall i | 0 <= i < |items|
      ensures items[i] in m.counts
    {
      assert items[i] in items;
    }
    EntriesTotal(m, items);
  }

  /** A map that counts the occurrences of the keys of `items`, holding
      every one of them, has entries totalling `|items|`. */
  lemma EntriesTotal(m: CountMap, items: seq<int>)
    requires m.Valid()
    requires forall i :: 0 <= i < |items| ==> items[i] in m.counts
    requires forall k :: k in m.counts ==> m.counts[k] == multiset(items)[k]
    ensures Total(m.Entries()) == |items|
  {
    var es := m.Entries();
    TotalCountsOccurrences(es, items);
    EntriesKeys(m);
    OccurrencesOfAll(items, Keys(es));
  }

  lemma EntriesKeys(m: CountMap)
    requires m.Valid()
    ensures Keys(m.Entries()) == m.counts.Keys
  {
    var es := m.Entries();
    forall k | k in m.counts
      ensures k in Keys(es)
    {
      var j :| 0 <= j < |m.order| && m.order[j] == k;
      assert es[j].key == k;
    }
  }

  /** The table rebuilt from the entries is the map they were read from. */
  lemma EntriesToMap(m: CountMap)
    requires m.Valid()
    ensures ToMap(m.Entries()) == m.counts
  {
    var t := ToMap(m.Entries());
    assert t.Keys == m.counts.Keys by {
      EntriesKeys(m);
    }
    forall k | k in m.counts
      ensures t[k] == m.counts[k]
    {
      EntryInTable(m, k);
    }
  }

  /** The table rebuilt from the entries holds the count of every key. */
  lemma EntryInTable(m: CountMap, k: int)
    requires m.Valid()
    requires k in m.counts
    ensures k in ToMap(m.Entries()) && ToMap(m.Entries())[k] == m.counts[k]
  {
    var j :| 0 <= j < |m.order| && m.order[j] == k;
    ToMapHolds(m.Entries(), j);
  }
}
