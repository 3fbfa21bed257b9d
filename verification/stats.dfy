/** The stats handler's computation, from the `range` parameter, the current
    instant and the fetched rows to the gap-filled series it answers with.
    Each fetched row is given by its stored `minuteTimestamp`. */
module Stats {
  import opened Arith
  import opened Window
  import opened TimeKeys
  import opened Series
  import opened Aggregation
  import opened Sorting
  import opened GapFill

  /** `statsData`: the aggregated entries sorted by time. */
  function StatsData(fetched: seq<int>): (sd: seq<Entry>)
    ensures |sd| == |Aggregate(fetched).order|
  {
    SortByTime(Aggregate(fetched).Entries())
  }

  /** `filledData`, the series the handler answers with. It is never empty
      and opens with the bucket that holds the window start. */
  function StatsSeries(q: QueryValue, now: int, offset: int, fetched: seq<int>): (out: seq<Entry>)
    ensures |out| > 0
    ensures out[0].key == TimeKey(Start(Selector(q), now), Selector(q), offset)
  {
    var r := Selector(q);
    FillMissingTimepoints(StatsData(fetched), Start(r, now), now, r, offset)
  }

  /** The number of buckets each selector yields. */
  function ExpectedBuckets(r: Range): nat {
    match r
    case Hour => 61
    case Day => 1441
    case Week => 8
    case Unrecognised => 1
  }

  /** `statsData` is a permutation of the aggregated entries, in strictly
      increasing time order, and its counts add up to the number of rows. */
  lemma StatsDataSorted(fetched: seq<int>)
    ensures multiset(StatsData(fetched)) == multiset(Aggregate(fetched).Entries())
    ensures StrictlyAscending(StatsData(fetched))
    ensures Total(StatsData(fetched)) == |fetched|
  {
    var sd := StatsData(fetched);
    SortByTimeSorts(Aggregate(fetched).Entries());
    StatsDataCounts(fetched);
    TotalCountsOccurrences(sd, fetched);
    StatsDataCoversRows(fetched);
    OccurrencesOfAll(fetched, Keys(sd));
  }

  /** Every point of `statsData` counts the rows stored under its key. */
  lemma StatsDataCounts(fetched: seq<int>)
    ensures var sd := StatsData(fetched);
            forall i :: 0 <= i < |sd| ==> sd[i].count == multiset(fetched)[sd[i].key]
  {
    var sd := StatsData(fetched);
    forall i | 0 <= i < |sd|
      ensures sd[i].count == multiset(fetched)[sd[i].key]
    {
      SortedMember(Aggregate(fetched).Entries(), i);
    }
  }

  /** Every fetched row's key is a key of `statsData`. */
  lemma StatsDataCoversRows(fetched: seq<int>)
    ensures forall i :: 0 <= i < |fetched| ==> fetched[i] in Keys(StatsData(fetched))
  {
    var m := Aggregate(fetched);
    var es := m.Entries();
    var sd := StatsData(fetched);
    SortByTimePermutes(es);
    EntriesKeys(m);
    forall i | 0 <= i < |fetched|
      ensures fetched[i] in Keys(sd)
    {
      assert fetched[i] in Keys(es);
      var j :| 0 <= j < |es| && es[j].key == fetched[i];
      assert es[j] in multiset(sd);
    }
  }

  /** The lookup table the fill builds from `statsData` is the aggregation
      itself: sorting loses nothing and adds nothing. */
  lemma StatsTable(fetched: seq<int>)
    ensures ToMap(StatsData(fetched)) == Aggregate(fetched).counts
  {
    var m := Aggregate(fetched);
    SortByTimeSorts(m.Entries());
    ToMapPermutation(StatsData(fetched), m.Entries());
    EntriesToMap(m);
  }

  /** The series is the walk over the window with the aggregation as its
      table. */
  lemma StatsSeriesIsWalk(q: QueryValue, now: int, offset: int, fetched: seq<int>)
    ensures StatsSeries(q, now, offset, fetched)
         == Walk(Aggregate(fetched).counts, Start(Selector(q), now), now, Selector(q), offset)
  {
    StatsTable(fetched);
  }

  /** Every bucket counts exactly the fetched rows whose stored key is the
      bucket's key; a key with no rows gets 0. */
  lemma StatsCounts(q: QueryValue, now: int, offset: int, fetched: seq<int>)
    ensures var out := StatsSeries(q, now, offset, fetched);
            forall i :: 0 <= i < |out| ==> out[i].count == multiset(fetched)[out[i].key]
  {
    StatsTable(fetched);
  }

  /** The bucket count per selector: 61 minutes for "hour", 1441 for "day",
      8 days for "week", and a single bucket for anything else. */
  lemma BucketCounts(q: QueryValue, now: int, offset: int, fetched: seq<int>)
    ensures |StatsSeries(q, now, offset, fetched)| == ExpectedBuckets(Selector(q))
  {
  }

  /** Bucket `i` is keyed at the `i`-th step from the window start, the keys
      are one step apart, and the series runs strictly forward in time. */
  lemma StatsKeys(q: QueryValue, now: int, offset: int, fetched: seq<int>)
    ensures var r := Selector(q);
            var out := StatsSeries(q, now, offset, fetched);
            && (forall i :: 0 <= i < |out| ==> out[i].key == TimeKey(Start(r, now) + i * Increment(r), r, offset))
            && (forall i :: 0 <= i < |out| - 1 ==> out[i + 1].key == out[i].key + Increment(r))
            && StrictlyAscending(out)
  {
    var r := Selector(q);
    var table := Aggregate(fetched).counts;
    StatsSeriesIsWalk(q, now, offset, fetched);
    WalkKeysStep(table, Start(r, now), now, r, offset);
    WalkStrictlyAscending(table, Start(r, now), now, r, offset);
  }

  /** For "hour" and "day" the last bucket is the minute that holds `now`;
      for "week" it is the local day that holds `now`. */
  lemma LastBucketIsNow(q: QueryValue, now: int, offset: int, fetched: seq<int>)
    requires Selector(q) != Unrecognised
    ensures var out := StatsSeries(q, now, offset, fetched);
            out[|out| - 1].key == TimeKey(now, Selector(q), offset)
  {
    var r := Selector(q);
    StatsSeriesIsWalk(q, now, offset, fetched);
    var n := if r == Hour then 60 else if r == Day then 1440 else 7;
    assert Start(r, now) + n * Increment(r) == now;
    WalkLastKey(Aggregate(fetched).counts, Start(r, now), now, r, offset, n);
  }

  /** Rows whose stored key is a bucket key are each counted once; every
      other row is dropped. */
  lemma StatsTotal(q: QueryValue, now: int, offset: int, fetched: seq<int>)
    ensures var out := StatsSeries(q, now, offset, fetched);
            Total(out) == Occurrences(fetched, Keys(out))
  {
    var out := StatsSeries(q, now, offset, fetched);
    StatsCounts(q, now, offset, fetched);
    StatsKeys(q, now, offset, fetched);
    TotalCountsOccurrences(out, fetched);
  }

  /** When every row's key is a bucket key, no row is lost. */
  lemma StatsTotalOnGrid(q: QueryValue, now: int, offset: int, fetched: seq<int>)
    requires var out := StatsSeries(q, now, offset, fetched);
             forall i :: 0 <= i < |fetched| ==> exists j :: 0 <= j < |out| && out[j].key == fetched[i]
    ensures Total(StatsSeries(q, now, offset, fetched)) == |fetched|
  {
    var out := StatsSeries(q, now, offset, fetched);
    StatsTotal(q, now, offset, fetched);
    OccurrencesOfAll(fetched, Keys(out));
  }

  /** An unrecognised selector yields one bucket, keyed at the exact instant
      one hour before `now` and untruncated: it counts only rows stored at
      that very millisecond. */
  lemma UnrecognisedSingleBucket(q: QueryValue, now: int, offset: int, fetched: seq<int>)
    requires Selector(q) == Unrecognised
    ensures var out := StatsSeries(q, now, offset, fetched);
            |out| == 1 && out[0].key == now - 3600000 && out[0].count == multiset(fetched)[now - 3600000]
  {
    StatsCounts(q, now, offset, fetched);
  }

  /** Under "week" a row whose stored minute key is not a local midnight is
      dropped: if no row is stored at midnight, every bucket is 0. */
  lemma WeekDropsMinuteKeys(now: int, offset: int, fetched: seq<int>)
    requires forall k :: k in fetched ==> (k + offset) % DayMs != 0
    ensures var out := StatsSeries(Single("week"), now, offset, fetched);
            |out| == 8 && forall i :: 0 <= i < |out| ==> out[i].count == 0
  {
    var table := Aggregate(fetched).counts;
    assert Selector(Single("week")) == Week;
    StatsSeriesIsWalk(Single("week"), now, offset, fetched);
    NoMidnightInTable(offset, fetched);
    WeekZeroWithoutMidnights(table, now - 7 * DayMs, now, offset);
    assert |Walk(table, now - 7 * DayMs, now, Week, offset)| == 8;
  }

  lemma NoMidnightInTable(offset: int, fetched: seq<int>)
    requires forall k :: k in fetched ==> (k + offset) % DayMs != 0
    ensures forall k :: k in Aggregate(fetched).counts ==> !Aligned(k, DayMs, offset)
  {
  }

  /** The store returns only rows keyed at or after the window start. The
      first bucket's key is the boundary at or before the start, so unless
      the start lies exactly on a boundary, the first bucket is always 0. */
  lemma FirstBucketBeforeFetch(q: QueryValue, now: int, offset: int, fetched: seq<int>)
    requires forall i :: 0 <= i < |fetched| ==> fetched[i] >= Start(Selector(q), now)
    requires TimeKey(Start(Selector(q), now), Selector(q), offset) != Start(Selector(q), now)
    ensures var out := StatsSeries(q, now, offset, fetched);
            |out| > 0 && out[0].count == 0
  {
    var r := Selector(q);
    var table := Aggregate(fetched).counts;
    var out := Walk(table, Start(r, now), now, r, offset);
    StatsSeriesIsWalk(q, now, offset, fetched);
    assert out[0].key == TimeKey(Start(r, now), r, offset);
  }

  /** Under "hour" the 61 bucket keys end with the minute that holds `now`
      and the minute before it, and every earlier key precedes both. */
  lemma HourKeys(q: QueryValue, now: int, offset: int, fetched: seq<int>)
    requires Selector(q) == Hour
    ensures var out := StatsSeries(q, now, offset, fetched);
            && |out| == 61
            && out[60].key == TimeKey(now, Hour, offset)
            && out[59].key == out[60].key - MinuteMs
            && forall i :: 0 <= i < 59 ==> out[i].key < out[59].key
  {
    LastBucketIsNow(q, now, offset, fetched);
    StatsKeys(q, now, offset, fetched);
  }

  /** One visit in the current minute, "hour" selected (or no range given):
      61 buckets, the last one 1 and all others 0. */
  lemma OneVisitThisMinute(q: QueryValue, now: int, offset: int)
    requires Selector(q) == Hour
    ensures var out := StatsSeries(q, now, offset, [TimeKey(now, Hour, offset)]);
            && |out| == 61
            && out[60].count == 1
            && forall i :: 0 <= i < 60 ==> out[i].count == 0
  {
    var fetched := [TimeKey(now, Hour, offset)];
    var out := StatsSeries(q, now, offset, fetched);
    HourKeys(q, now, offset, fetched);
    StatsCounts(q, now, offset, fetched);
    forall i | 0 <= i < 60
      ensures out[i].count == 0
    {
      assert out[i].key !in fetched;
    }
  }

  /** Two visits one minute apart, the later in the current minute, "hour"
      selected (or no range given): the two last buckets are 1 and all
      others 0. */
  lemma TwoVisitsAMinuteApart(q: QueryValue, now: int, offset: int)
    requires Selector(q) == Hour
    ensures var m := TimeKey(now, Hour, offset);
            var out := StatsSeries(q, now, offset, [m - MinuteMs, m]);
            && |out| == 61
            && out[59].count == 1 && out[60].count == 1
            && forall i :: 0 <= i < 59 ==> out[i].count == 0
  {
    var m := TimeKey(now, Hour, offset);
    var fetched := [m - MinuteMs, m];
    HourKeys(q, now, offset, fetched);
    StatsCounts(q, now, offset, fetched);
    LastTwoCounted(StatsSeries(q, now, offset, fetched), m - MinuteMs, m);
  }

  /** A 61-point series whose two last keys are `a` and `b`, whose earlier
      keys precede `a`, and which counts the rows `[a, b]`. */
  lemma LastTwoCounted(out: seq<Entry>, a: int, b: int)
    requires |out| == 61 && a < b
    requires out[59].key == a && out[60].key == b
    requires forall i :: 0 <= i < 59 ==> out[i].key < a
    requires forall i :: 0 <= i < |out| ==> out[i].count == multiset([a, b])[out[i].key]
    ensures out[59].count == 1 && out[60].count == 1
    ensures forall i :: 0 <= i < 59 ==> out[i].count == 0
  {
    forall i | 0 <= i < 59
      ensures out[i].count == 0
    {
      assert out[i].key !in [a, b];
    }
  }

  /** No fetched rows, as when the page filter matches nothing, "week"
      selected: 8 daily buckets, all 0. */
  lemma NoRowsWeek(now: int, offset: int)
    ensures var out := StatsSeries(Single("week"), now, offset, []);
            |out| == 8 && forall i :: 0 <= i < |out| ==> out[i].count == 0
  {
    StatsCounts(Single("week"), now, offset, []);
  }
}
