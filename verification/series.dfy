/** The `{timestamp, count}` points the handler passes around, the lookup
    table built from them, and counting of stored keys. */
module Series {

  /** One point: a key (an instant in milliseconds) and how many events it
      stands for. */
  datatype Entry = Entry(key: int, count: nat)

  predicate DistinctKeys(es: seq<Entry>) {
    forall i, j :: 0 <= i < j < |es| ==> es[i].key != es[j].key
  }

  function Keys(es: seq<Entry>): (ks: set<int>)
    ensures forall i :: 0 <= i < |es| ==> es[i].key in ks
    ensures forall k :: k in ks ==> exists i :: 0 <= i < |es| && es[i].key == k
  {
    set e | e in es :: e.key
  }

  /** Sum of the counts of a series. */
  function Total(es: seq<Entry>): nat {
    if |es| == 0 then 0 else es[0].count + Total(es[1..])
  }

  /** `new Map(data.map(item => [item.timestamp, item.count]))`: a later
      point with the same key overwrites an earlier one. */
  function ToMap(es: seq<Entry>): (m: map<int, nat>)
    ensures m.Keys == Keys(es)
  {
    if |es| == 0 then map[]
    else
      var last := es[|es| - 1];
      assert Keys(es) == Keys(es[..|es| - 1]) + {last.key};
      ToMap(es[..|es| - 1])[last.key := last.count]
  }

  /** `dataMap.get(key) || 0`: the stored count, or 0 for a missing key
      (a stored count is never 0, so `||` only replaces a miss). */
  function Lookup(m: map<int, nat>, k: int): (c: nat)
    ensures c != 0 <==> k in m && m[k] != 0
    ensures c != 0 ==> c == m[k]
  {
    if k in m then m[k] else 0
  }

  /** How many of the stored keys `xs` lie in `s`. */
  function Occurrences(xs: seq<int>, s: set<int>): nat {
    if |xs| == 0 then 0
    else (if xs[0] in s then 1 else 0) + Occurrences(xs[1..], s)
  }

  /** With distinct keys, the table holds every point's own count. */
  lemma {:induction false} ToMapHolds(es: seq<Entry>, i: int)
    requires DistinctKeys(es)
    requires 0 <= i < |es|
    ensures es[i].key in ToMap(es) && ToMap(es)[es[i].key] == es[i].count
    decreases |es|
  {
    var init := es[..|es| - 1];
    if i < |es| - 1 {
      assert init[i] == es[i];
      ToMapHolds(init, i);
      assert es[|es| - 1].key != es[i].key;
    }
  }

  /** Two orderings of the same points with distinct keys build the same
      table. */
  lemma ToMapPermutation(a: seq<Entry>, b: seq<Entry>)
    requires DistinctKeys(a) && DistinctKeys(b)
    requires multiset(a) == multiset(b)
    ensures ToMap(a) == ToMap(b)
  {
    forall k | k in ToMap(a)
      ensures k in ToMap(b) && ToMap(b)[k] == ToMap(a)[k]
    {
      var i :| 0 <= i < |a| && a[i].key == k;
      ToMapHolds(a, i);
      assert a[i] in multiset(b);
      var j :| 0 <= j < |b| && b[j] == a[i];
      ToMapHolds(b, j);
    }
    forall k | k in ToMap(b)
      ensures k in ToMap(a)
    {
      var j :| 0 <= j < |b| && b[j].key == k;
      assert b[j] in multiset(a);
      var i :| 0 <= i < |a| && a[i] == b[j];
    }
  }

  /** Widening `s` by one key adds that key's occurrences. */
  lemma {:induction false} OccurrencesAddKey(xs: seq<int>, s: set<int>, k: int)
    requires k !in s
    ensures Occurrences(xs, s + {k}) == Occurrences(xs, s) + multiset(xs)[k]
    decreases |xs|
  {
    if |xs| > 0 {
      assert xs == [xs[0]] + xs[1..];
      assert multiset(xs) == multiset{xs[0]} + multiset(xs[1..]);
      OccurrencesAddKey(xs[1..], s, k);
    }
  }

  /** A set holding every stored key holds all of them. */
  lemma {:induction false} OccurrencesOfAll(xs: seq<int>, s: set<int>)
    requires forall i :: 0 <= i < |xs| ==> xs[i] in s
    ensures Occurrences(xs, s) == |xs|
    decreases |xs|
  {
    if |xs| > 0 {
      OccurrencesOfAll(xs[1..], s);
    }
  }

  /** Points with distinct keys whose counts are the occurrence counts of
      `xs` total the number of stored keys they cover. */
  lemma {:induction false} TotalCountsOccurrences(es: seq<Entry>, xs: seq<int>)
    requires DistinctKeys(es)
    requires forall i :: 0 <= i < |es| ==> es[i].count == multiset(xs)[es[i].key]
    ensures Total(es) == Occurrences(xs, Keys(es))
    decreases |es|
  {
    if |es| == 0 {
      assert Keys(es) == {};
      OccurrencesNone(xs);
    } else {
      var rest := es[1..];
      assert Keys(es) == Keys(rest) + {es[0].key};
      assert es[0].key !in Keys(rest);
      TotalCountsOccurrences(rest, xs);
      OccurrencesAddKey(xs, Keys(rest), es[0].key);
    }
  }

  lemma {:induction false} OccurrencesNone(xs: seq<int>)
    ensures Occurrences(xs, {}) == 0
    decreases |xs|
  {
    if |xs| > 0 {
      OccurrencesNone(xs[1..]);
    }
  }
}
