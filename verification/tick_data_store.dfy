/**
 * The columnar tick store (`TickDataStore`, include/data/tick_data_store.h):
 * per instrument, one column per field of a market-data tick, all of the
 * same length.
 *
 * The sort is modelled as a stable insertion sort of row indices by
 * timestamp; the source's `std::sort` leaves the order of equal timestamps
 * unspecified, and the stable order is one of the orders it may produce.
 */
module TickDataStore {
  import opened Types
  import opened MapSums
  import opened IndexSort

  datatype TickData = TickData(
    timestamps: seq<int>,
    bidPrices: seq<real>,
    askPrices: seq<real>,
    bidSizes: seq<nat>,
    askSizes: seq<nat>,
    lastPrices: seq<real>,
    volumes: seq<nat>,
    open: seq<real>,
    high: seq<real>,
    low: seq<real>,
    close: seq<real>,
    date: seq<string>)

  type Store = map<string, TickData>

  const NoData: TickData := TickData([], [], [], [], [], [], [], [], [], [], [], [])

  /** Extremes of a 64-bit time point, the sentinels of the statistics. */
  const TimeMax: int := 0x7fff_ffff_ffff_ffff
  const TimeMin: int := -0x8000_0000_0000_0000

  /** All columns have the same length. */
  predicate ValidData(d: TickData) {
    var n := |d.timestamps|;
    |d.bidPrices| == n && |d.askPrices| == n && |d.bidSizes| == n && |d.askSizes| == n
    && |d.lastPrices| == n && |d.volumes| == n && |d.open| == n && |d.high| == n
    && |d.low| == n && |d.close| == n && |d.date| == n
  }

  predicate Valid(s: Store) {
    forall k :: k in s ==> ValidData(s[k])
  }

  function Size(d: TickData): nat {
    |d.timestamps|
  }

  /** `TickData::get_tick`: row `i`, instrument left empty for the caller to fill. */
  function GetTick(d: TickData, i: nat): MarketDataTick
    requires ValidData(d) && i < Size(d)
  {
    MarketDataTick(d.timestamps[i], "", d.bidPrices[i], d.askPrices[i], d.bidSizes[i],
                   d.askSizes[i], d.lastPrices[i], d.volumes[i], d.open[i], d.high[i],
                   d.low[i], d.close[i], d.date[i])
  }

  /** `TickData::add_tick`: one more value in every column. */
  function AddTick(d: TickData, t: MarketDataTick): (r: TickData)
    requires ValidData(d)
    ensures ValidData(r) && Size(r) == Size(d) + 1
    ensures GetTick(r, Size(d)) == t.(instrument := "")
    ensures forall i :: 0 <= i < Size(d) ==> GetTick(r, i) == GetTick(d, i)
  {
    TickData(d.timestamps + [t.timestamp], d.bidPrices + [t.bidPrice], d.askPrices + [t.askPrice],
             d.bidSizes + [t.bidSize], d.askSizes + [t.askSize], d.lastPrices + [t.lastPrice],
             d.volumes + [t.volume], d.open + [t.open], d.high + [t.high], d.low + [t.low],
             d.close + [t.close], d.date + [t.date])
  }

  /** Every row, with the instrument filled in. */
  function Rows(d: TickData, instrument: string): (r: seq<MarketDataTick>)
    requires ValidData(d)
    ensures |r| == Size(d)
  {
    seq(Size(d), i requires 0 <= i < Size(d) && ValidData(d) => GetTick(d, i).(instrument := instrument))
  }

  /** The data held for an instrument; the empty columns when it is unknown. */
  function DataOf(s: Store, instrument: string): TickData {
    Lookup(s, instrument, NoData)
  }

  /** `TickDataStore::size`: 0 for an unknown instrument. */
  function InstrumentSize(s: Store, instrument: string): (r: nat)
    ensures instrument !in s ==> r == 0
  {
    Size(DataOf(s, instrument))
  }

  /** `TickDataStore::add_tick`. */
  function StoreAddTick(s: Store, instrument: string, t: MarketDataTick): (r: Store)
    requires Valid(s)
    ensures Valid(r) && instrument in r
    ensures InstrumentSize(r, instrument) == InstrumentSize(s, instrument) + 1
    ensures GetTickAt(r, instrument, InstrumentSize(s, instrument)) == Some(t.(instrument := instrument))
    ensures forall i :: 0 <= i < InstrumentSize(s, instrument) ==> GetTickAt(r, instrument, i) == GetTickAt(s, instrument, i)
    ensures forall k :: k != instrument ==> DataOf(r, k) == DataOf(s, k)
  {
    s[instrument := AddTick(DataOf(s, instrument), t)]
  }

  function AppendTicks(d: TickData, ticks: seq<MarketDataTick>): (r: TickData)
    requires ValidData(d)
    ensures ValidData(r) && Size(r) == Size(d) + |ticks|
    decreases |ticks|
  {
    if ticks == [] then d
    else AppendTicks(AddTick(d, ticks[0]), ticks[1..])
  }

  /** Appending keeps the old rows. */
  lemma {:induction false} AppendTicksKeepsRows(d: TickData, ticks: seq<MarketDataTick>, i: nat)
    requires ValidData(d) && i < Size(d)
    ensures GetTick(AppendTicks(d, ticks), i) == GetTick(d, i)
    decreases |ticks|
  {
    if ticks != [] {
      AppendTicksKeepsRows(AddTick(d, ticks[0]), ticks[1..], i);
    }
  }

  /** Appending puts tick `j` at row `Size(d) + j`, so the ticks keep their input order. */
  lemma {:induction false} AppendTicksRows(d: TickData, ticks: seq<MarketDataTick>, j: nat)
    requires ValidData(d) && j < |ticks|
    ensures GetTick(AppendTicks(d, ticks), Size(d) + j) == ticks[j].(instrument := "")
    decreases |ticks|
  {
    var d1 := AddTick(d, ticks[0]);
    if j == 0 {
      AppendTicksKeepsRows(d1, ticks[1..], Size(d));
    } else {
      AppendTicksRows(d1, ticks[1..], j - 1);
      assert ticks[j] == ticks[1..][j - 1];
    }
  }

  /** `add_ticks`: the instrument gets an entry even when `ticks` is empty. */
  function AddTicks(s: Store, instrument: string, ticks: seq<MarketDataTick>): (r: Store)
    requires Valid(s)
    ensures Valid(r) && instrument in r
    ensures InstrumentSize(r, instrument) == InstrumentSize(s, instrument) + |ticks|
    ensures forall k :: k != instrument ==> DataOf(r, k) == DataOf(s, k)
  {
    s[instrument := AppendTicks(DataOf(s, instrument), ticks)]
  }

  /** `get_tick_at`: none for an unknown instrument or an index past the end. */
  function GetTickAt(s: Store, instrument: string, index: nat): (r: Option<MarketDataTick>)
    requires Valid(s)
    ensures r.None? <==> instrument !in s || index >= InstrumentSize(s, instrument)
    ensures r.Some? ==> r.value == Rows(s[instrument], instrument)[index]
  {
    if instrument !in s || index >= Size(s[instrument]) then None
    else Some(GetTick(s[instrument], index).(instrument := instrument))
  }

  /** Ticks added in one call are read back at the positions after the old ones. */
  lemma AddTicksReadBack(s: Store, instrument: string, ticks: seq<MarketDataTick>, j: nat)
    requires Valid(s) && j < |ticks|
    ensures GetTickAt(AddTicks(s, instrument, ticks), instrument, InstrumentSize(s, instrument) + j)
      == Some(ticks[j].(instrument := instrument))
  {
    var d := DataOf(s, instrument);
    var r := AddTicks(s, instrument, ticks);
    assert r[instrument] == AppendTicks(d, ticks);
    AppendTicksRows(d, ticks, j);
  }

  /** Adding ticks leaves the instrument's earlier rows where they were. */
  lemma AddTicksKeepsOld(s: Store, instrument: string, ticks: seq<MarketDataTick>, i: nat)
    requires Valid(s) && i < InstrumentSize(s, instrument)
    ensures GetTickAt(AddTicks(s, instrument, ticks), instrument, i) == GetTickAt(s, instrument, i)
  {
    var d := DataOf(s, instrument);
    var r := AddTicks(s, instrument, ticks);
    assert r[instrument] == AppendTicks(d, ticks);
    AppendTicksKeepsRows(d, ticks, i);
  }

  /* ---------------- range queries ---------------- */

  predicate Within(t: MarketDataTick, start: int, end: int) {
    start <= t.timestamp <= end
  }

  /** Reference: the rows within `[start, end]`, in order. */
  function InRange(rows: seq<MarketDataTick>, start: int, end: int): seq<MarketDataTick> {
    if rows == [] then []
    else (if Within(rows[0], start, end) then [rows[0]] else []) + InRange(rows[1..], start, end)
  }

  lemma {:induction false} InRangeAppend(a: seq<MarketDataTick>, b: seq<MarketDataTick>, start: int, end: int)
    ensures InRange(a + b, start, end) == InRange(a, start, end) + InRange(b, start, end)
  {
    if a == [] {
      assert a + b == b;
    } else {
      assert (a + b)[1..] == a[1..] + b;
      InRangeAppend(a[1..], b, start, end);
    }
  }

  /** A row is returned exactly when it is stored and its time is in range. */
  lemma {:induction false} InRangeMembers(rows: seq<MarketDataTick>, start: int, end: int, t: MarketDataTick)
    ensures t in InRange(rows, start, end) <==> t in rows && Within(t, start, end)
  {
    if rows != [] {
      InRangeMembers(rows[1..], start, end, t);
      assert rows == [rows[0]] + rows[1..];
    }
  }

  /** `get_ticks_range`: the rows with start <= timestamp <= end, in stored order. */
  method GetTicksRange(s: Store, instrument: string, start: int, end: int) returns (r: seq<MarketDataTick>)
    requires Valid(s)
    ensures instrument !in s ==> r == []
    ensures instrument in s ==> r == InRange(Rows(s[instrument], instrument), start, end)
  {
    if instrument !in s {
      return [];
    }
    var d := s[instrument];
    var rows := Rows(d, instrument);
    r := [];
    var i := 0;
    while i < Size(d)
      invariant 0 <= i <= Size(d)
      invariant r == InRange(rows[..i], start, end)
    {
      var t := GetTick(d, i).(instrument := instrument);
      assert rows[..i + 1] == rows[..i] + [t];
      InRangeAppend(rows[..i], [t], start, end);
      if start <= d.timestamps[i] && d.timestamps[i] <= end {
        r := r + [t];
      }
      i := i + 1;
    }
    assert rows[..i] == rows;
  }

  /* ---------------- clearing ---------------- */

  /** `clear()`: drops every instrument. */
  function ClearAll(s: Store): (r: Store)
    ensures forall k :: InstrumentSize(r, k) == 0
  {
    map[]
  }

  /** `clear(instrument)`: empties that instrument's columns, if it is known. */
  function ClearInstrument(s: Store, instrument: string): (r: Store)
    requires Valid(s)
    ensures Valid(r) && r.Keys == s.Keys
    ensures InstrumentSize(r, instrument) == 0
    ensures forall k :: k != instrument ==> DataOf(r, k) == DataOf(s, k)
  {
    if instrument in s then s[instrument := NoData] else s
  }

  /* ---------------- sorting ---------------- */

  /** `reorder_vectors`: every column through the same index vector. */
  function ReorderAll(d: TickData, idx: seq<nat>): (r: TickData)
    requires ValidData(d) && InBounds(idx, Size(d))
    ensures ValidData(r) && Size(r) == |idx|
    ensures forall k :: 0 <= k < |idx| ==> GetTick(r, k) == GetTick(d, idx[k])
  {
    TickData(Reorder(d.timestamps, idx), Reorder(d.bidPrices, idx), Reorder(d.askPrices, idx),
             Reorder(d.bidSizes, idx), Reorder(d.askSizes, idx), Reorder(d.lastPrices, idx),
             Reorder(d.volumes, idx), Reorder(d.open, idx), Reorder(d.high, idx),
             Reorder(d.low, idx), Reorder(d.close, idx), Reorder(d.date, idx))
  }

  /**
   * One instrument's sort: timestamps end up non-decreasing, and row k is
   * the old row `SortIndices(...)[k]`, a permutation of the old row numbers,
   * with all columns moved together.
   */
  function SortData(d: TickData): (r: TickData)
    requires ValidData(d)
    ensures ValidData(r) && Size(r) == Size(d)
    ensures NonDecreasing(r.timestamps)
    ensures forall k :: 0 <= k < Size(d) ==> GetTick(r, k) == GetTick(d, SortIndices(d.timestamps)[k])
  {
    var idx := SortIndices(d.timestamps);
    var r := ReorderAll(d, idx);
    assert forall a, b :: 0 <= a < b < |idx| ==> r.timestamps[a] == d.timestamps[idx[a]] <= d.timestamps[idx[b]] == r.timestamps[b];
    r
  }

  /** `sort_by_timestamp`: sorts every instrument. */
  function SortByTimestamp(s: Store): (r: Store)
    requires Valid(s)
    ensures Valid(r) && r.Keys == s.Keys
    ensures forall k :: k in s ==> r[k] == SortData(s[k])
  {
    map k | k in s :: SortData(s[k])
  }

  /** Sorting permutes the rows: the same ticks, each as many times as before. */
  lemma SortPermutesRows(d: TickData, instrument: string)
    requires ValidData(d)
    ensures multiset(Rows(SortData(d), instrument)) == multiset(Rows(d, instrument))
  {
    var rows := Rows(d, instrument);
    var idx := SortIndices(d.timestamps);
    var sorted := Rows(SortData(d), instrument);
    forall k | 0 <= k < |idx|
      ensures sorted[k] == Reorder(rows, idx)[k]
    {
      assert sorted[k] == GetTick(d, idx[k]).(instrument := instrument);
    }
    assert sorted == Reorder(rows, idx);
    SortIndicesPermute(rows, d.timestamps);
  }

  /** Sorting a column that is already sorted changes no timestamp. */
  lemma SortIsIdempotentOnTimes(d: TickData)
    requires ValidData(d)
    ensures SortData(SortData(d)).timestamps == SortData(d).timestamps
  {
    var ts := SortData(d).timestamps;
    assert SortData(SortData(d)).timestamps == Reorder(ts, SortIndices(ts));
    SortIndicesPermute(ts, ts);
    SortedUnique(ts, Reorder(ts, SortIndices(ts)));
  }

  /* ---------------- statistics ---------------- */

  datatype Statistics = Statistics(
    totalTicks: nat, totalInstruments: nat, earliestTime: int, latestTime: int)

  ghost function Sizes(s: Store): map<string, int> {
    map k | k in s :: Size(s[k])
  }

  /** Row `i` of instrument `k` exists. */
  ghost predicate HasTick(s: Store, k: string, i: int) {
    k in s && 0 <= i < |s[k].timestamps|
  }

  /** Every timestamp of the instruments in `ks` lies in `[lo, hi]`. */
  ghost predicate Bounded(s: Store, ks: set<string>, lo: int, hi: int) {
    forall k, i :: k in ks && HasTick(s, k, i) ==> lo <= s[k].timestamps[i] <= hi
  }

  /** The instruments in `ks` hold no ticks. */
  ghost predicate NoTicks(s: Store, ks: set<string>) {
    forall k :: k in ks && k in s ==> s[k].timestamps == []
  }

  lemma BoundedAdd(s: Store, ks: set<string>, k: string, lo: int, hi: int, lo': int, hi': int)
    requires k in s && Bounded(s, ks, lo, hi) && lo' <= lo && hi <= hi'
    requires forall i :: 0 <= i < |s[k].timestamps| ==> lo' <= s[k].timestamps[i] <= hi'
    ensures Bounded(s, ks + {k}, lo', hi')
  {
  }

  lemma NoTicksAdd(s: Store, ks: set<string>, k: string)
    requires k in s
    ensures NoTicks(s, ks + {k}) <==> NoTicks(s, ks) && s[k].timestamps == []
  {
  }

  function SeqMin(ts: seq<int>): (m: int)
    requires ts != []
    ensures m in ts && forall i :: 0 <= i < |ts| ==> m <= ts[i]
  {
    if |ts| == 1 then ts[0] else Min(ts[0], SeqMin(ts[1..]))
  }

  function SeqMax(ts: seq<int>): (m: int)
    requires ts != []
    ensures m in ts && forall i :: 0 <= i < |ts| ==> ts[i] <= m
  {
    if |ts| == 1 then ts[0] else if ts[0] >= SeqMax(ts[1..]) then ts[0] else SeqMax(ts[1..])
  }

  /** `total_ticks`: the sum of the instruments' sizes. */
  method TotalTicks(s: Store) returns (total: nat)
    ensures total == Sum(Sizes(s))
  {
    total := 0;
    var todo := s.Keys;
    assert Sizes(s).Keys == todo;
    while todo != {}
      invariant todo <= s.Keys
      invariant total + SumOn(Sizes(s), todo) == Sum(Sizes(s))
      decreases todo
    {
      var k :| k in todo;
      SumOnRemove(Sizes(s), todo, k);
      total := total + Size(s[k]);
      todo := todo - {k};
    }
  }

  /**
   * The earliest and latest timestamp over all instruments, starting from
   * the sentinels: the earliest from the largest time point, the latest
   * from the smallest. Each result is a stored timestamp unless it is still
   * its sentinel, and both are the sentinels exactly when no tick is stored.
   */
  method TimeBounds(s: Store) returns (earliest: int, latest: int)
    ensures Bounded(s, s.Keys, earliest, latest)
    ensures earliest == TimeMax || exists k, i :: HasTick(s, k, i) && s[k].timestamps[i] == earliest
    ensures latest == TimeMin || exists k, i :: HasTick(s, k, i) && s[k].timestamps[i] == latest
    ensures NoTicks(s, s.Keys) ==> earliest == TimeMax && latest == TimeMin
    ensures !NoTicks(s, s.Keys) ==> earliest <= latest
  {
    earliest, latest := TimeMax, TimeMin;
    ghost var ek, ei, lk, li := "", 0, "", 0;
    var todo := s.Keys;
    ghost var done: set<string> := {};
    while todo != {}
      invariant todo <= s.Keys && done == s.Keys - todo
      invariant Bounded(s, done, earliest, latest)
      invariant earliest == TimeMax || (HasTick(s, ek, ei) && s[ek].timestamps[ei] == earliest)
      invariant latest == TimeMin || (HasTick(s, lk, li) && s[lk].timestamps[li] == latest)
      invariant NoTicks(s, done) ==> earliest == TimeMax && latest == TimeMin
      invariant !NoTicks(s, done) ==> earliest <= latest
      decreases todo
    {
      var k :| k in todo;
      var ts := s[k].timestamps;
      ghost var e0, l0 := earliest, latest;
      if ts != [] {
        var lo, hi := SeqMin(ts), SeqMax(ts);
        if lo < earliest {
          earliest := lo;
          ek := k;
          ei :| 0 <= ei < |ts| && ts[ei] == lo;
        }
        if hi > latest {
          latest := hi;
          lk := k;
          li :| 0 <= li < |ts| && ts[li] == hi;
        }
        assert earliest <= ts[0] <= latest;
      }
      BoundedAdd(s, done, k, e0, l0, earliest, latest);
      NoTicksAdd(s, done, k);
      todo := todo - {k};
      done := done + {k};
    }
    if earliest != TimeMax {
      assert HasTick(s, ek, ei);
    }
    if latest != TimeMin {
      assert HasTick(s, lk, li);
    }
  }

  /**
   * `get_statistics`: the number of instruments and ticks, and the earliest
   * and latest timestamp. An empty store reports `now` for both times.
   */
  method GetStatistics(s: Store, now: int) returns (st: Statistics)
    ensures st.totalInstruments == |s|
    ensures st.totalTicks == Sum(Sizes(s))
    ensures |s| == 0 ==> st.earliestTime == now && st.latestTime == now
    ensures |s| > 0 ==> Bounded(s, s.Keys, st.earliestTime, st.latestTime)
    ensures |s| > 0 && !NoTicks(s, s.Keys) ==> st.earliestTime <= st.latestTime
    ensures |s| > 0 && NoTicks(s, s.Keys) ==> st.earliestTime == TimeMax && st.latestTime == TimeMin
  {
    var total := TotalTicks(s);
    if |s| == 0 {
      return Statistics(total, 0, now, now);
    }
    var earliest, latest := TimeBounds(s);
    st := Statistics(total, |s|, earliest, latest);
  }
}
