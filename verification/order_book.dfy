/**
 * The per-instrument limit order book of `include/execution/order_book.h`.
 *
 * Each side is a `std::map` from price to level in the source. Here each side
 * is a sequence of levels kept strictly ascending by price (the map's key
 * uniqueness and ordering); `WellFormed` is that representation invariant.
 *
 * The source walks the bid side with `rbegin()` on a map ordered by
 * `std::greater`, which visits the LOWEST bid first, and it never pops the
 * per-level FIFO queue. `Mode` selects between that behaviour (`AsWritten`)
 * and the evidently intended one (`Intended`: highest bid first, queue
 * consumed front to back, cancellation by order id).
 */
module OrderBook {
  import opened Types

  /** One arrival in a level's FIFO queue. */
  datatype Entry = Entry(id: nat, volume: nat)

  /** A price level: aggregate volume and the FIFO queue of arrivals. */
  datatype Level = Level(price: int, total: nat, queue: seq<Entry>)

  /** Both sides are stored ascending by price. */
  datatype Book = Book(instrument: string, bids: seq<Level>, asks: seq<Level>)

  datatype Mode = AsWritten | Intended

  /** How far a sweep may walk: market orders are unbounded, limit orders are not. */
  datatype Bound = Unbounded | AtMost(limit: int) | AtLeast(limit: int)

  datatype Sweep = Sweep(fills: seq<Fill>, rest: seq<Level>, left: nat)

  datatype Execution = Execution(book: Book, fills: seq<Fill>)

  datatype Removal = Removal(level: Level, removed: nat)

  datatype DepthLevel = DepthLevel(price: int, volume: nat)

  datatype BookStats = BookStats(
    bidLevels: nat,
    askLevels: nat,
    totalBidVolume: nat,
    totalAskVolume: nat,
    bestBid: Option<int>,
    bestAsk: Option<int>,
    spread: Option<int>)


  // ---------------------------------------------------------------------
  // Sequences of levels
  // ---------------------------------------------------------------------

  /** The prices present on a side. */
  function Keys(ls: seq<Level>): set<int> {
    set i | 0 <= i < |ls| :: ls[i].price
  }

  predicate Ascending(ls: seq<Level>) {
    forall i, j :: 0 <= i < j < |ls| ==> ls[i].price < ls[j].price
  }

  predicate Descending(ls: seq<Level>) {
    forall i, j :: 0 <= i < j < |ls| ==> ls[i].price > ls[j].price
  }

  /** Level for level, `a` and `c` are at the same prices. */
  predicate SamePrices(a: seq<Level>, c: seq<Level>) {
    |a| == |c| && forall i :: 0 <= i < |a| ==> a[i].price == c[i].price
  }

  /** The prices of `a` are those of the last |a| levels of `b`. */
  predicate PriceSuffix(a: seq<Level>, b: seq<Level>) {
    |a| <= |b| && SamePrices(a, b[|b| - |a|..])
  }

  /** The prices of `a` are those of the first |a| levels of `b`. */
  predicate PricePrefix(a: seq<Level>, b: seq<Level>) {
    |a| <= |b| && forall i :: 0 <= i < |a| ==> a[i].price == b[i].price
  }

  /** No level with zero aggregate volume. */
  predicate Positive(ls: seq<Level>) {
    forall i :: 0 <= i < |ls| ==> ls[i].total > 0
  }

  function QueueVolume(q: seq<Entry>): nat {
    if |q| == 0 then 0 else q[0].volume + QueueVolume(q[1..])
  }

  /** Each level's aggregate volume equals the sum of its queued volumes. */
  predicate Consistent(ls: seq<Level>) {
    forall i :: 0 <= i < |ls| ==> ls[i].total == QueueVolume(ls[i].queue)
  }

  function Total(ls: seq<Level>): nat {
    if |ls| == 0 then 0 else ls[0].total + Total(ls[1..])
  }

  function FillVolume(fs: seq<Fill>): nat {
    if |fs| == 0 then 0 else fs[0].quantity + FillVolume(fs[1..])
  }

  function Reverse(ls: seq<Level>): (r: seq<Level>)
    ensures |r| == |ls|
    ensures forall i :: 0 <= i < |ls| ==> r[i] == ls[|ls| - 1 - i]
  {
    seq(|ls|, i requires 0 <= i < |ls| => ls[|ls| - 1 - i])
  }

  /** The representation invariant of the two `std::map`s: unique, ordered prices. */
  predicate WellFormed(b: Book) {
    Ascending(b.bids) && Ascending(b.asks)
  }

  /** Every bid is priced strictly below every ask. */
  predicate Uncrossed(b: Book) {
    forall i, j :: 0 <= i < |b.bids| && 0 <= j < |b.asks| ==> b.bids[i].price < b.asks[j].price
  }

  // ---------------------------------------------------------------------
  // Lemmas about sequences of levels
  // ---------------------------------------------------------------------

  lemma KeysCons(l: Level, ls: seq<Level>)
    ensures Keys([l] + ls) == {l.price} + Keys(ls)
  {
    var s := [l] + ls;
    forall p | p in Keys(s) ensures p in {l.price} + Keys(ls) {
      var i :| 0 <= i < |s| && s[i].price == p;
      if i > 0 { assert ls[i - 1].price == p; }
    }
    forall p | p in Keys(ls) ensures p in Keys(s) {
      var i :| 0 <= i < |ls| && ls[i].price == p;
      assert s[i + 1].price == p;
    }
    assert s[0].price == l.price;
  }

  lemma KeysOfPriceSuffix(a: seq<Level>, b: seq<Level>)
    requires PriceSuffix(a, b)
    ensures Keys(a) <= Keys(b)
    ensures Ascending(b) ==> Ascending(a)
    ensures Descending(b) ==> Descending(a)
  {
    var c := b[|b| - |a|..];
    forall p | p in Keys(a) ensures p in Keys(b) {
      var i :| 0 <= i < |a| && a[i].price == p;
      assert c[i] == b[|b| - |a| + i];
    }
    if Ascending(b) {
      forall i, j | 0 <= i < j < |a| ensures a[i].price < a[j].price {
        assert c[i] == b[|b| - |a| + i] && c[j] == b[|b| - |a| + j];
      }
    }
    if Descending(b) {
      forall i, j | 0 <= i < j < |a| ensures a[i].price > a[j].price {
        assert c[i] == b[|b| - |a| + i] && c[j] == b[|b| - |a| + j];
      }
    }
  }

  lemma KeysOfPricePrefix(a: seq<Level>, b: seq<Level>)
    requires PricePrefix(a, b)
    ensures Keys(a) <= Keys(b)
    ensures Ascending(b) ==> Ascending(a)
  {
    forall p | p in Keys(a) ensures p in Keys(b) {
      var i :| 0 <= i < |a| && a[i].price == p;
      assert b[i].price == p;
    }
  }

  lemma {:induction false} TotalAppend(a: seq<Level>, b: seq<Level>)
    ensures Total(a + b) == Total(a) + Total(b)
    decreases |a|
  {
    if |a| == 0 {
      assert a + b == b;
    } else {
      assert (a + b)[1..] == a[1..] + b;
      TotalAppend(a[1..], b);
    }
  }

  lemma {:induction false} QueueVolumeAppend(a: seq<Entry>, b: seq<Entry>)
    ensures QueueVolume(a + b) == QueueVolume(a) + QueueVolume(b)
    decreases |a|
  {
    if |a| == 0 {
      assert a + b == b;
    } else {
      assert (a + b)[1..] == a[1..] + b;
      QueueVolumeAppend(a[1..], b);
    }
  }

  /** Reversing a side does not change its volume. */
  lemma {:induction false} TotalReverse(ls: seq<Level>)
    ensures Total(Reverse(ls)) == Total(ls)
    decreases |ls|
  {
    if |ls| > 0 {
      assert Reverse(ls) == Reverse(ls[1..]) + [ls[0]];
      TotalAppend(Reverse(ls[1..]), [ls[0]]);
      TotalReverse(ls[1..]);
    }
  }



  lemma ReverseDescending(ls: seq<Level>)
    requires Ascending(ls)
    ensures Descending(Reverse(ls))
  {
    var r := Reverse(ls);
    forall i, j | 0 <= i < j < |r| ensures r[i].price > r[j].price {
      assert r[i] == ls[|ls| - 1 - i] && r[j] == ls[|ls| - 1 - j];
    }
  }


  lemma ReverseLevels(ls: seq<Level>)
    ensures Positive(ls) ==> Positive(Reverse(ls))
    ensures Consistent(ls) ==> Consistent(Reverse(ls))
  {
    var r := Reverse(ls);
    if Positive(ls) {
      forall i | 0 <= i < |r| ensures r[i].total > 0 {
        assert r[i] == ls[|ls| - 1 - i];
      }
    }
    if Consistent(ls) {
      forall i | 0 <= i < |r| ensures r[i].total == QueueVolume(r[i].queue) {
        assert r[i] == ls[|ls| - 1 - i];
      }
    }
  }

  /** Reversing a price suffix of a reversed side gives a price prefix of the side. */
  lemma ReversedSuffixIsPrefix(rest: seq<Level>, bids: seq<Level>)
    requires PriceSuffix(rest, Reverse(bids))
    ensures PricePrefix(Reverse(rest), bids)
  {
    var w := Reverse(bids);
    forall i | 0 <= i < |rest| ensures Reverse(rest)[i].price == bids[i].price {
      var j := |rest| - 1 - i;
      assert w[|w| - |rest|..][j] == w[|w| - |rest| + j];
    }
  }

  // ---------------------------------------------------------------------
  // BookLevel
  // ---------------------------------------------------------------------

  /** `BookLevel::add_order`: grow the aggregate, append to the queue tail. */
  function LevelAdd(lv: Level, id: nat, volume: nat): (r: Level)
    ensures r.price == lv.price
  {
    Level(lv.price, lv.total + volume, lv.queue + [Entry(id, volume)])
  }

  /** Adding to a level grows it by `volume` and keeps it equal to its queue's sum. */
  lemma LevelAddKeepsConsistent(lv: Level, id: nat, volume: nat)
    ensures LevelAdd(lv, id, volume).total == lv.total + volume
    ensures LevelAdd(lv, id, volume).queue[..|lv.queue|] == lv.queue
    ensures LevelAdd(lv, id, volume).queue[|lv.queue|] == Entry(id, volume)
    ensures lv.total == QueueVolume(lv.queue) ==>
              LevelAdd(lv, id, volume).total == QueueVolume(LevelAdd(lv, id, volume).queue)
  {
    QueueVolumeAppend(lv.queue, [Entry(id, volume)]);
    assert QueueVolume([Entry(id, volume)]) == volume;
  }

  /** Volume queued under the first entry carrying `id`, or 0. */
  function QueuedVolumeOf(q: seq<Entry>, id: nat): nat {
    if |q| == 0 then 0 else if q[0].id == id then q[0].volume else QueuedVolumeOf(q[1..], id)
  }

  /**
   * Cancel up to `volume` of the first queue entry carrying `id`; the entry
   * leaves the queue when nothing of it remains.
   */
  function RemoveFromQueue(q: seq<Entry>, id: nat, volume: nat): (r: (seq<Entry>, nat))
    ensures r.1 == Min(volume, QueuedVolumeOf(q, id))
    ensures QueueVolume(r.0) + r.1 == QueueVolume(q)
    ensures |r.0| <= |q|
  {
    if |q| == 0 then ([], 0)
    else if q[0].id == id then
      var take := Min(volume, q[0].volume);
      if take == q[0].volume then (q[1..], take)
      else
        assert ([Entry(id, q[0].volume - take)] + q[1..])[1..] == q[1..];
        ([Entry(id, q[0].volume - take)] + q[1..], take)
    else
      var r := RemoveFromQueue(q[1..], id, volume);
      assert ([q[0]] + r.0)[1..] == r.0;
      ([q[0]] + r.0, r.1)
  }

  lemma {:induction false} QueuedVolumeBounded(q: seq<Entry>, id: nat)
    ensures QueuedVolumeOf(q, id) <= QueueVolume(q)
    decreases |q|
  {
    if |q| > 0 && q[0].id != id {
      QueuedVolumeBounded(q[1..], id);
    }
  }

  /**
   * `BookLevel::remove_order`. As written it ignores `id` and takes up to
   * `volume` from the aggregate alone; as intended it cancels volume of the
   * order `id` in the queue and the aggregate together.
   */
  function LevelRemove(lv: Level, id: nat, volume: nat, mode: Mode): (r: Removal)
    ensures r.level.price == lv.price
    ensures r.removed <= volume && r.removed <= lv.total
    ensures r.level.total == lv.total - r.removed
    ensures mode == AsWritten ==> r.removed == Min(volume, lv.total) && r.level.queue == lv.queue
    ensures mode == Intended && lv.total == QueueVolume(lv.queue) ==>
              r.removed == Min(volume, QueuedVolumeOf(lv.queue, id))
              && r.level.total == QueueVolume(r.level.queue)
  {
    match mode
    case AsWritten =>
      if lv.total >= volume then Removal(Level(lv.price, lv.total - volume, lv.queue), volume)
      else Removal(Level(lv.price, 0, lv.queue), lv.total)
    case Intended =>
      var rq := RemoveFromQueue(lv.queue, id, volume);
      QueuedVolumeBounded(lv.queue, id);
      var removed := Min(rq.1, lv.total);
      Removal(Level(lv.price, lv.total - removed, rq.0), removed)
  }

  /**
   * Consume `k` from the front of a queue: earliest arrivals are used up
   * first, the entry reached last keeps its id, later entries are untouched.
   */
  function PopFifo(q: seq<Entry>, k: nat): (r: seq<Entry>)
    ensures k <= QueueVolume(q) ==> QueueVolume(r) == QueueVolume(q) - k
    ensures |r| <= |q|
    ensures |r| > 0 ==> r[0].id == q[|q| - |r|].id && r[1..] == q[|q| - |r| + 1..]
    decreases |q|
  {
    if k == 0 || |q| == 0 then q
    else if q[0].volume <= k then PopFifo(q[1..], k - q[0].volume)
    else
      assert ([Entry(q[0].id, q[0].volume - k)] + q[1..])[1..] == q[1..];
      [Entry(q[0].id, q[0].volume - k)] + q[1..]
  }

  /** Matching takes `take` from a level: as written from the aggregate only. */
  function Consume(lv: Level, take: nat, mode: Mode): (r: Level)
    requires take <= lv.total
    ensures r.price == lv.price && r.total == lv.total - take
    ensures mode == AsWritten ==> r.queue == lv.queue
    ensures mode == Intended && lv.total == QueueVolume(lv.queue) ==> r.total == QueueVolume(r.queue)
  {
    match mode
    case AsWritten => Level(lv.price, lv.total - take, lv.queue)
    case Intended => Level(lv.price, lv.total - take, PopFifo(lv.queue, take))
  }

  // ---------------------------------------------------------------------
  // Lookup, insertion and removal on one side
  // ---------------------------------------------------------------------

  function VolumeAt(ls: seq<Level>, p: int): nat {
    if |ls| == 0 then 0 else if ls[0].price == p then ls[0].total else VolumeAt(ls[1..], p)
  }

  lemma {:induction false} VolumeAtAbsent(ls: seq<Level>, p: int)
    requires p !in Keys(ls)
    ensures VolumeAt(ls, p) == 0
    decreases |ls|
  {
    if |ls| > 0 {
      assert ls == [ls[0]] + ls[1..];
      KeysCons(ls[0], ls[1..]);
      VolumeAtAbsent(ls[1..], p);
    }
  }

  lemma VolumeOffKeys(ls: seq<Level>, p: int)
    ensures p !in Keys(ls) ==> VolumeAt(ls, p) == 0
  {
    if p !in Keys(ls) {
      VolumeAtAbsent(ls, p);
    }
  }

  function NewLevel(price: int, id: nat, volume: nat): Level {
    Level(price, volume, [Entry(id, volume)])
  }

  /**
   * `bids_[price].add_order(id, volume)` (likewise for asks): add to the level
   * at `price`, creating it in price order when absent. A zero volume still
   * creates the level, as `operator[]` does.
   */
  function InsertLevel(ls: seq<Level>, price: int, id: nat, volume: nat): (r: seq<Level>)
    ensures Total(r) == Total(ls) + volume
    ensures Keys(r) == Keys(ls) + {price}
    decreases |ls|
  {
    if |ls| == 0 then
      assert Keys([NewLevel(price, id, volume)]) == {price} by {
        KeysCons(NewLevel(price, id, volume), []);
      }
      [NewLevel(price, id, volume)]
    else if ls[0].price == price then
      var r := [LevelAdd(ls[0], id, volume)] + ls[1..];
      assert r[1..] == ls[1..];
      assert ls == [ls[0]] + ls[1..];
      KeysCons(ls[0], ls[1..]);
      KeysCons(r[0], ls[1..]);
      r
    else if price < ls[0].price then
      var r := [NewLevel(price, id, volume)] + ls;
      assert r[1..] == ls;
      KeysCons(r[0], ls);
      r
    else
      var t := InsertLevel(ls[1..], price, id, volume);
      var r := [ls[0]] + t;
      assert r[1..] == t;
      assert ls == [ls[0]] + ls[1..];
      KeysCons(ls[0], ls[1..]);
      KeysCons(ls[0], t);
      r
  }

  /** Insertion keeps a side ordered by price. */
  lemma {:induction false} InsertKeepsAscending(ls: seq<Level>, price: int, id: nat, volume: nat)
    requires Ascending(ls)
    ensures Ascending(InsertLevel(ls, price, id, volume))
    decreases |ls|
  {
    if |ls| == 0 {
      ConsAscending(NewLevel(price, id, volume), []);
    } else if ls[0].price == price {
      ConsAscending(LevelAdd(ls[0], id, volume), ls[1..]);
    } else if price < ls[0].price {
      ConsAscending(NewLevel(price, id, volume), ls);
    } else {
      InsertKeepsAscending(ls[1..], price, id, volume);
      InsertTailKeepsAscending(ls, price, id, volume);
    }
  }

  lemma InsertTailKeepsAscending(ls: seq<Level>, price: int, id: nat, volume: nat)
    requires Ascending(ls) && |ls| > 0 && ls[0].price < price
    requires Ascending(InsertLevel(ls[1..], price, id, volume))
    ensures Ascending(InsertLevel(ls, price, id, volume))
  {
    var t := InsertLevel(ls[1..], price, id, volume);
    assert InsertLevel(ls, price, id, volume) == [ls[0]] + t;
    assert t[0].price in Keys(t);
    if t[0].price != price {
      var m :| 0 <= m < |ls[1..]| && ls[1..][m].price == t[0].price;
      assert ls[m + 1].price == t[0].price;
    }
    ConsAscending(ls[0], t);
  }

  /** A level below the head of an ordered side extends it in order. */
  lemma ConsAscending(l: Level, ls: seq<Level>)
    requires Ascending(ls) && (|ls| == 0 || l.price < ls[0].price)
    ensures Ascending([l] + ls)
  {
    var r := [l] + ls;
    forall i, j | 0 <= i < j < |r| ensures r[i].price < r[j].price {
      assert r[j] == ls[j - 1];
      if i > 0 {
        assert r[i] == ls[i - 1];
      } else if j > 1 {
        assert ls[0].price < ls[j - 1].price;
      }
    }
  }

  /** Insertion adds `volume` at `price` and nothing anywhere else. */
  lemma {:induction false} InsertVolume(ls: seq<Level>, price: int, id: nat, volume: nat, p: int)
    requires Ascending(ls)
    ensures VolumeAt(InsertLevel(ls, price, id, volume), p)
              == VolumeAt(ls, p) + (if p == price then volume else 0)
    decreases |ls|
  {
    var r := InsertLevel(ls, price, id, volume);
    if |ls| == 0 {
    } else if ls[0].price == price {
      assert r[1..] == ls[1..];
    } else if price < ls[0].price {
      assert r[1..] == ls;
      if p == price {
        forall m | 0 <= m < |ls| ensures ls[m].price != price {
          assert ls[0].price <= ls[m].price;
        }
        VolumeAtAbsent(ls, price);
      }
    } else {
      InsertVolume(ls[1..], price, id, volume, p);
      assert r[1..] == InsertLevel(ls[1..], price, id, volume);
    }
  }

  /** Insertion of a positive volume never leaves a zero level; queues stay in step. */
  lemma {:induction false} InsertKeepsLevels(ls: seq<Level>, price: int, id: nat, volume: nat)
    ensures volume > 0 && Positive(ls) ==> Positive(InsertLevel(ls, price, id, volume))
    ensures Consistent(ls) ==> Consistent(InsertLevel(ls, price, id, volume))
    decreases |ls|
  {
    var r := InsertLevel(ls, price, id, volume);
    assert QueueVolume([Entry(id, volume)]) == volume;
    if |ls| == 0 {
    } else if ls[0].price == price {
      LevelAddKeepsConsistent(ls[0], id, volume);
      assert r[1..] == ls[1..];
    } else if price < ls[0].price {
      assert r[1..] == ls;
    } else {
      InsertKeepsLevels(ls[1..], price, id, volume);
      assert r[1..] == InsertLevel(ls[1..], price, id, volume);
    }
  }

  /**
   * Remove from the level at `price`, erasing the level once its aggregate
   * reaches zero; a price with no level leaves the side unchanged.
   */
  function RemoveAt(ls: seq<Level>, price: int, id: nat, volume: nat, mode: Mode): (r: (seq<Level>, nat))
    ensures price !in Keys(ls) ==> r == (ls, 0)
    ensures Keys(r.0) <= Keys(ls)
    ensures r.1 <= volume
    ensures Total(r.0) + r.1 == Total(ls)
    decreases |ls|
  {
    if |ls| == 0 then (ls, 0)
    else
      assert ls == [ls[0]] + ls[1..];
      KeysCons(ls[0], ls[1..]);
      if ls[0].price == price then
        var rm := LevelRemove(ls[0], id, volume, mode);
        if rm.level.total == 0 then (ls[1..], rm.removed)
        else
          KeysCons(rm.level, ls[1..]);
          assert ([rm.level] + ls[1..])[1..] == ls[1..];
          ([rm.level] + ls[1..], rm.removed)
      else
        var t := RemoveAt(ls[1..], price, id, volume, mode);
        KeysCons(ls[0], t.0);
        assert ([ls[0]] + t.0)[1..] == t.0;
        ([ls[0]] + t.0, t.1)
  }

  /** Removal keeps a side ordered. */
  lemma {:induction false} RemoveKeepsAscending(ls: seq<Level>, price: int, id: nat, volume: nat, mode: Mode)
    requires Ascending(ls)
    ensures Ascending(RemoveAt(ls, price, id, volume, mode).0)
    decreases |ls|
  {
    if |ls| > 0 {
      if ls[0].price == price {
        RemoveHeadKeepsAscending(ls, id, volume, mode);
      } else {
        RemoveKeepsAscending(ls[1..], price, id, volume, mode);
        RemoveTailKeepsAscending(ls, price, id, volume, mode);
      }
    }
  }

  lemma RemoveHeadKeepsAscending(ls: seq<Level>, id: nat, volume: nat, mode: Mode)
    requires Ascending(ls) && |ls| > 0
    ensures Ascending(RemoveAt(ls, ls[0].price, id, volume, mode).0)
  {
    var r := RemoveAt(ls, ls[0].price, id, volume, mode);
    var rm := LevelRemove(ls[0], id, volume, mode);
    if rm.level.total != 0 {
      assert r.0 == [rm.level] + ls[1..];
      forall i, j | 0 <= i < j < |r.0| ensures r.0[i].price < r.0[j].price {
        assert r.0[j] == ls[j];
        if i > 0 { assert r.0[i] == ls[i]; }
      }
    } else {
      assert r.0 == ls[1..];
    }
  }

  lemma RemoveTailKeepsAscending(ls: seq<Level>, price: int, id: nat, volume: nat, mode: Mode)
    requires Ascending(ls) && |ls| > 0 && ls[0].price != price
    requires Ascending(RemoveAt(ls[1..], price, id, volume, mode).0)
    ensures Ascending(RemoveAt(ls, price, id, volume, mode).0)
  {
    var t := RemoveAt(ls[1..], price, id, volume, mode);
    assert RemoveAt(ls, price, id, volume, mode).0 == [ls[0]] + t.0;
    if |t.0| > 0 {
      assert t.0[0].price in Keys(t.0);
      var m :| 0 <= m < |ls[1..]| && ls[1..][m].price == t.0[0].price;
      assert ls[m + 1].price == t.0[0].price;
    }
    ConsAscending(ls[0], t.0);
  }

  /** Removal touches only the volume at `price`; as written it takes min(volume, resting). */
  lemma {:induction false} RemoveVolume(ls: seq<Level>, price: int, id: nat, volume: nat, mode: Mode, p: int)
    requires Ascending(ls)
    ensures p != price ==> VolumeAt(RemoveAt(ls, price, id, volume, mode).0, p) == VolumeAt(ls, p)
    ensures VolumeAt(RemoveAt(ls, price, id, volume, mode).0, price)
              == VolumeAt(ls, price) - RemoveAt(ls, price, id, volume, mode).1
    ensures mode == AsWritten ==>
              RemoveAt(ls, price, id, volume, mode).1 == Min(volume, VolumeAt(ls, price))
    decreases |ls|
  {
    var r := RemoveAt(ls, price, id, volume, mode);
    if |ls| > 0 {
      if ls[0].price == price {
        forall m | 0 <= m < |ls[1..]| ensures ls[1..][m].price != price {
          assert ls[0].price < ls[m + 1].price;
        }
        VolumeAtAbsent(ls[1..], price);
        var rm := LevelRemove(ls[0], id, volume, mode);
        if rm.level.total != 0 {
          assert r.0[1..] == ls[1..];
        } else {
          assert r.0 == ls[1..];
        }
      } else {
        var t := RemoveAt(ls[1..], price, id, volume, mode);
        RemoveVolume(ls[1..], price, id, volume, mode, p);
        assert r.0 == [ls[0]] + t.0;
        assert r.0[1..] == t.0;
      }
    }
  }

  /** Removal erases emptied levels and keeps queues in step in the intended mode. */
  lemma {:induction false} RemoveKeepsLevels(ls: seq<Level>, price: int, id: nat, volume: nat, mode: Mode)
    ensures Positive(ls) ==> Positive(RemoveAt(ls, price, id, volume, mode).0)
    ensures mode == Intended && Consistent(ls) ==> Consistent(RemoveAt(ls, price, id, volume, mode).0)
    decreases |ls|
  {
    var r := RemoveAt(ls, price, id, volume, mode);
    if |ls| > 0 {
      if ls[0].price == price {
        var rm := LevelRemove(ls[0], id, volume, mode);
        if rm.level.total != 0 {
          assert r.0[1..] == ls[1..];
        }
      } else {
        RemoveKeepsLevels(ls[1..], price, id, volume, mode);
        assert r.0[1..] == RemoveAt(ls[1..], price, id, volume, mode).0;
      }
    }
  }

  // ---------------------------------------------------------------------
  // Matching
  // ---------------------------------------------------------------------

  predicate Crosses(bound: Bound, price: int) {
    match bound
    case Unbounded => true
    case AtMost(p) => price <= p
    case AtLeast(p) => price >= p
  }

  /** The fill emitted for one level (commission is left at zero). */
  function MakeFill(o: Order, ts: int, instrument: string, price: int, qty: nat): Fill {
    Fill(o.id, ts, instrument, o.strategy, o.side, price, qty, 0)
  }

  /**
   * The matching loop: walk the contra side in `walk` order while volume
   * remains and the level is within `bound`, emitting one fill per level and
   * erasing every level whose aggregate reaches zero.
   */
  function SweepLevels(walk: seq<Level>, remaining: nat, bound: Bound, o: Order, ts: int,
                       instrument: string, mode: Mode): (r: Sweep)
    ensures |r.fills| <= |walk| && |r.rest| <= |walk|
    decreases |walk|
  {
    if |walk| == 0 || remaining == 0 || !Crosses(bound, walk[0].price) then
      Sweep([], walk, remaining)
    else
      var take := Min(remaining, walk[0].total);
      var f := MakeFill(o, ts, instrument, walk[0].price, take);
      var lv := Consume(walk[0], take, mode);
      var s := SweepLevels(walk[1..], remaining - take, bound, o, ts, instrument, mode);
      if lv.total == 0 then Sweep([f] + s.fills, s.rest, s.left)
      else Sweep([f] + s.fills, [lv] + s.rest, s.left)
  }

  /**
   * A step that exhausts the head level: one fill of the whole level, which
   * is erased, and the sweep goes on with what remains.
   */
  lemma SweepFull(walk: seq<Level>, remaining: nat, bound: Bound, o: Order, ts: int,
                  instrument: string, mode: Mode)
    requires |walk| > 0 && 0 < remaining && walk[0].total <= remaining && Crosses(bound, walk[0].price)
    ensures var s := SweepLevels(walk[1..], remaining - walk[0].total, bound, o, ts, instrument, mode);
      var r := SweepLevels(walk, remaining, bound, o, ts, instrument, mode);
      && r.fills == [MakeFill(o, ts, instrument, walk[0].price, walk[0].total)] + s.fills
      && r.rest == s.rest
      && r.left == s.left
  {
  }

  /**
   * A step that does not exhaust the head level ends the sweep there: one
   * fill, the head level reduced in place, nothing left over.
   */
  lemma SweepPartial(walk: seq<Level>, remaining: nat, bound: Bound, o: Order, ts: int,
                     instrument: string, mode: Mode)
    requires |walk| > 0 && 0 < remaining < walk[0].total && Crosses(bound, walk[0].price)
    ensures var r := SweepLevels(walk, remaining, bound, o, ts, instrument, mode);
      && r.fills == [MakeFill(o, ts, instrument, walk[0].price, remaining)]
      && r.rest == [Consume(walk[0], remaining, mode)] + walk[1..]
      && r.left == 0
  {
    assert SweepLevels(walk[1..], 0, bound, o, ts, instrument, mode) == Sweep([], walk[1..], 0);
  }

  /** The cases of the matching loop: nothing to do, a partial step, a full step. */
  predicate Halts(walk: seq<Level>, remaining: nat, bound: Bound) {
    |walk| == 0 || remaining == 0 || !Crosses(bound, walk[0].price)
  }

  lemma SweepHalts(walk: seq<Level>, remaining: nat, bound: Bound, o: Order, ts: int,
                   instrument: string, mode: Mode)
    requires Halts(walk, remaining, bound)
    ensures SweepLevels(walk, remaining, bound, o, ts, instrument, mode) == Sweep([], walk, remaining)
  {
  }

  /**
   * Matching conserves volume: what is filled plus what is left is what was
   * asked for, and what is filled is exactly what leaves the side.
   */
  lemma {:induction false} SweepConserves(walk: seq<Level>, remaining: nat, bound: Bound, o: Order, ts: int,
                                          instrument: string, mode: Mode)
    ensures Conserves(SweepLevels(walk, remaining, bound, o, ts, instrument, mode), walk, remaining)
    decreases |walk|
  {
    if Halts(walk, remaining, bound) {
      SweepHalts(walk, remaining, bound, o, ts, instrument, mode);
    } else if remaining < walk[0].total {
      SweepConservesPartial(walk, remaining, bound, o, ts, instrument, mode);
    } else {
      SweepConserves(walk[1..], remaining - walk[0].total, bound, o, ts, instrument, mode);
      SweepConservesFull(walk, remaining, bound, o, ts, instrument, mode);
    }
  }

  /** Filled plus left is what was asked; filled is what left the side. */
  predicate Conserves(r: Sweep, walk: seq<Level>, remaining: nat) {
    && FillVolume(r.fills) + r.left == remaining
    && Total(r.rest) + FillVolume(r.fills) == Total(walk)
  }

  lemma SweepConservesPartial(walk: seq<Level>, remaining: nat, bound: Bound, o: Order, ts: int,
                              instrument: string, mode: Mode)
    requires |walk| > 0 && 0 < remaining < walk[0].total && Crosses(bound, walk[0].price)
    ensures Conserves(SweepLevels(walk, remaining, bound, o, ts, instrument, mode), walk, remaining)
  {
    var r := SweepLevels(walk, remaining, bound, o, ts, instrument, mode);
    SweepPartial(walk, remaining, bound, o, ts, instrument, mode);
    assert FillVolume(r.fills) == remaining;
    assert Total(walk) == walk[0].total + Total(walk[1..]);
    assert r.rest[1..] == walk[1..];
    assert Total(r.rest) == r.rest[0].total + Total(walk[1..]);
  }

  lemma SweepConservesFull(walk: seq<Level>, remaining: nat, bound: Bound, o: Order, ts: int,
                           instrument: string, mode: Mode)
    requires |walk| > 0 && 0 < remaining && walk[0].total <= remaining && Crosses(bound, walk[0].price)
    requires Conserves(SweepLevels(walk[1..], remaining - walk[0].total, bound, o, ts, instrument, mode),
                       walk[1..], remaining - walk[0].total)
    ensures Conserves(SweepLevels(walk, remaining, bound, o, ts, instrument, mode), walk, remaining)
  {
    var r := SweepLevels(walk, remaining, bound, o, ts, instrument, mode);
    var s := SweepLevels(walk[1..], remaining - walk[0].total, bound, o, ts, instrument, mode);
    SweepFull(walk, remaining, bound, o, ts, instrument, mode);
    assert r.fills[1..] == s.fills;
    assert FillVolume(r.fills) == walk[0].total + FillVolume(s.fills);
    assert Total(walk) == walk[0].total + Total(walk[1..]);
  }

  /**
   * The i-th fill is for the i-th level walked, at that level's price, and
   * only levels within the bound are filled.
   */
  predicate FillsFollowWalk(fills: seq<Fill>, walk: seq<Level>, bound: Bound, o: Order, ts: int, instrument: string) {
    |fills| <= |walk| &&
    forall i :: 0 <= i < |fills| ==>
      fills[i] == MakeFill(o, ts, instrument, walk[i].price, fills[i].quantity)
      && Crosses(bound, walk[i].price)
  }

  lemma {:induction false} SweepFills(walk: seq<Level>, remaining: nat, bound: Bound, o: Order, ts: int,
                                      instrument: string, mode: Mode)
    ensures FillsFollowWalk(SweepLevels(walk, remaining, bound, o, ts, instrument, mode).fills,
                            walk, bound, o, ts, instrument)
    decreases |walk|
  {
    if Halts(walk, remaining, bound) {
      SweepHalts(walk, remaining, bound, o, ts, instrument, mode);
    } else if remaining < walk[0].total {
      SweepPartial(walk, remaining, bound, o, ts, instrument, mode);
    } else {
      SweepFills(walk[1..], remaining - walk[0].total, bound, o, ts, instrument, mode);
      SweepFillsFull(walk, remaining, bound, o, ts, instrument, mode);
    }
  }

  lemma SweepFillsFull(walk: seq<Level>, remaining: nat, bound: Bound, o: Order, ts: int,
                       instrument: string, mode: Mode)
    requires |walk| > 0 && 0 < remaining && walk[0].total <= remaining && Crosses(bound, walk[0].price)
    requires FillsFollowWalk(SweepLevels(walk[1..], remaining - walk[0].total, bound, o, ts, instrument, mode).fills,
                             walk[1..], bound, o, ts, instrument)
    ensures FillsFollowWalk(SweepLevels(walk, remaining, bound, o, ts, instrument, mode).fills,
                            walk, bound, o, ts, instrument)
  {
    var r := SweepLevels(walk, remaining, bound, o, ts, instrument, mode);
    var s := SweepLevels(walk[1..], remaining - walk[0].total, bound, o, ts, instrument, mode);
    SweepFull(walk, remaining, bound, o, ts, instrument, mode);
    forall i | 1 <= i < |r.fills|
      ensures r.fills[i] == MakeFill(o, ts, instrument, walk[i].price, r.fills[i].quantity)
      ensures Crosses(bound, walk[i].price)
    {
      assert r.fills[i] == s.fills[i - 1];
      assert walk[1..][i - 1] == walk[i];
    }
  }

  /** What survives a sweep is the tail of the walk, price for price. */
  lemma {:induction false} SweepRest(walk: seq<Level>, remaining: nat, bound: Bound, o: Order, ts: int,
                                     instrument: string, mode: Mode)
    ensures PriceSuffix(SweepLevels(walk, remaining, bound, o, ts, instrument, mode).rest, walk)
    decreases |walk|
  {
    if Halts(walk, remaining, bound) {
      SweepHalts(walk, remaining, bound, o, ts, instrument, mode);
      assert walk[|walk| - |walk|..] == walk;
    } else if remaining < walk[0].total {
      SweepRestPartial(walk, remaining, bound, o, ts, instrument, mode);
    } else {
      SweepRest(walk[1..], remaining - walk[0].total, bound, o, ts, instrument, mode);
      SweepRestFull(walk, remaining, bound, o, ts, instrument, mode);
    }
  }

  lemma SweepRestPartial(walk: seq<Level>, remaining: nat, bound: Bound, o: Order, ts: int,
                         instrument: string, mode: Mode)
    requires |walk| > 0 && 0 < remaining < walk[0].total && Crosses(bound, walk[0].price)
    ensures PriceSuffix(SweepLevels(walk, remaining, bound, o, ts, instrument, mode).rest, walk)
  {
    var r := SweepLevels(walk, remaining, bound, o, ts, instrument, mode);
    SweepPartial(walk, remaining, bound, o, ts, instrument, mode);
    assert walk[|walk| - |r.rest|..] == walk;
    forall i | 1 <= i < |r.rest| ensures r.rest[i].price == walk[i].price {
      assert r.rest[i] == walk[1..][i - 1];
    }
  }

  lemma SweepRestFull(walk: seq<Level>, remaining: nat, bound: Bound, o: Order, ts: int,
                      instrument: string, mode: Mode)
    requires |walk| > 0 && 0 < remaining && walk[0].total <= remaining && Crosses(bound, walk[0].price)
    requires PriceSuffix(SweepLevels(walk[1..], remaining - walk[0].total, bound, o, ts, instrument, mode).rest, walk[1..])
    ensures PriceSuffix(SweepLevels(walk, remaining, bound, o, ts, instrument, mode).rest, walk)
  {
    var s := SweepLevels(walk[1..], remaining - walk[0].total, bound, o, ts, instrument, mode);
    SweepFull(walk, remaining, bound, o, ts, instrument, mode);
    assert walk[1..][|walk| - 1 - |s.rest|..] == walk[|walk| - |s.rest|..];
  }

  /** A sweep stops with volume left only when the side is exhausted or beyond the bound. */
  predicate StopsAtBound(r: Sweep, bound: Bound) {
    r.left > 0 ==> |r.rest| == 0 || !Crosses(bound, r.rest[0].price)
  }

  lemma {:induction false} SweepStops(walk: seq<Level>, remaining: nat, bound: Bound, o: Order, ts: int,
                                      instrument: string, mode: Mode)
    ensures StopsAtBound(SweepLevels(walk, remaining, bound, o, ts, instrument, mode), bound)
    decreases |walk|
  {
    if Halts(walk, remaining, bound) {
      SweepHalts(walk, remaining, bound, o, ts, instrument, mode);
    } else if remaining < walk[0].total {
      SweepPartial(walk, remaining, bound, o, ts, instrument, mode);
    } else {
      SweepStops(walk[1..], remaining - walk[0].total, bound, o, ts, instrument, mode);
      SweepFull(walk, remaining, bound, o, ts, instrument, mode);
    }
  }

  /** No zero level survives and no fill is empty. */
  predicate PositiveSweep(r: Sweep) {
    Positive(r.rest) && forall i :: 0 <= i < |r.fills| ==> r.fills[i].quantity > 0
  }

  /** On a side without zero levels, matching fills positive amounts and leaves no zero level. */
  lemma {:induction false} SweepKeepsPositive(walk: seq<Level>, remaining: nat, bound: Bound, o: Order,
                                              ts: int, instrument: string, mode: Mode)
    requires Positive(walk)
    ensures PositiveSweep(SweepLevels(walk, remaining, bound, o, ts, instrument, mode))
    decreases |walk|
  {
    if Halts(walk, remaining, bound) {
      SweepHalts(walk, remaining, bound, o, ts, instrument, mode);
    } else if remaining < walk[0].total {
      SweepPositivePartial(walk, remaining, bound, o, ts, instrument, mode);
    } else {
      SweepKeepsPositive(walk[1..], remaining - walk[0].total, bound, o, ts, instrument, mode);
      SweepPositiveFull(walk, remaining, bound, o, ts, instrument, mode);
    }
  }

  lemma SweepPositivePartial(walk: seq<Level>, remaining: nat, bound: Bound, o: Order, ts: int,
                             instrument: string, mode: Mode)
    requires |walk| > 0 && 0 < remaining < walk[0].total && Crosses(bound, walk[0].price)
    requires Positive(walk)
    ensures PositiveSweep(SweepLevels(walk, remaining, bound, o, ts, instrument, mode))
  {
    var r := SweepLevels(walk, remaining, bound, o, ts, instrument, mode);
    SweepPartial(walk, remaining, bound, o, ts, instrument, mode);
    forall i | 1 <= i < |r.rest| ensures r.rest[i].total > 0 {
      assert r.rest[i] == walk[1..][i - 1];
    }
  }

  lemma SweepPositiveFull(walk: seq<Level>, remaining: nat, bound: Bound, o: Order, ts: int,
                          instrument: string, mode: Mode)
    requires |walk| > 0 && 0 < remaining && walk[0].total <= remaining && Crosses(bound, walk[0].price)
    requires Positive(walk)
    requires PositiveSweep(SweepLevels(walk[1..], remaining - walk[0].total, bound, o, ts, instrument, mode))
    ensures PositiveSweep(SweepLevels(walk, remaining, bound, o, ts, instrument, mode))
  {
    var r := SweepLevels(walk, remaining, bound, o, ts, instrument, mode);
    var s := SweepLevels(walk[1..], remaining - walk[0].total, bound, o, ts, instrument, mode);
    SweepFull(walk, remaining, bound, o, ts, instrument, mode);
    forall i | 1 <= i < |r.fills| ensures r.fills[i].quantity > 0 {
      assert r.fills[i] == s.fills[i - 1];
    }
  }

  /** In the intended mode matching keeps every level equal to its queue's volume. */
  lemma {:induction false} SweepKeepsConsistent(walk: seq<Level>, remaining: nat, bound: Bound, o: Order,
                                                ts: int, instrument: string)
    requires Consistent(walk)
    ensures Consistent(SweepLevels(walk, remaining, bound, o, ts, instrument, Intended).rest)
    decreases |walk|
  {
    var r := SweepLevels(walk, remaining, bound, o, ts, instrument, Intended);
    if Halts(walk, remaining, bound) {
      SweepHalts(walk, remaining, bound, o, ts, instrument, Intended);
    } else if remaining < walk[0].total {
      SweepPartial(walk, remaining, bound, o, ts, instrument, Intended);
      assert r.rest[0].total == QueueVolume(r.rest[0].queue);
      forall i | 1 <= i < |r.rest| ensures r.rest[i].total == QueueVolume(r.rest[i].queue) {
        assert r.rest[i] == walk[1..][i - 1];
      }
    } else {
      SweepFull(walk, remaining, bound, o, ts, instrument, Intended);
      SweepKeepsConsistent(walk[1..], remaining - walk[0].total, bound, o, ts, instrument);
    }
  }

  /** The order in which the source's loops visit the bid side. */
  function BidWalk(bids: seq<Level>, mode: Mode): seq<Level> {
    match mode
    case AsWritten => bids
    case Intended => Reverse(bids)
  }

  /**
   * Turning a swept bid walk back into a side: it holds only prices the side
   * held and stays ordered.
   */
  lemma BidSideAfterSweep(bids: seq<Level>, rest: seq<Level>, mode: Mode)
    requires PriceSuffix(rest, BidWalk(bids, mode))
    ensures Keys(BidWalk(rest, mode)) <= Keys(bids)
    ensures Ascending(bids) ==> Ascending(BidWalk(rest, mode))
  {
    match mode
    case AsWritten =>
      KeysOfPriceSuffix(rest, bids);
    case Intended =>
      ReversedSuffixIsPrefix(rest, bids);
      KeysOfPricePrefix(Reverse(rest), bids);
  }

  /** The bid walk is the bid side in some order: same volume, same levels. */
  lemma BidWalkLevels(ls: seq<Level>, mode: Mode)
    ensures Total(BidWalk(ls, mode)) == Total(ls)
    ensures Positive(ls) ==> Positive(BidWalk(ls, mode))
    ensures Consistent(ls) ==> Consistent(BidWalk(ls, mode))
  {
    if mode == Intended {
      TotalReverse(ls);
      ReverseLevels(ls);
    }
  }

  // ---------------------------------------------------------------------
  // OrderBook operations
  // ---------------------------------------------------------------------

  /** The levels of one side. */
  function SideOf(b: Book, side: Side): seq<Level> {
    if side == Buy then b.bids else b.asks
  }

  /** `OrderBook::add_order`: rest the order's quantity at its price on its side. */
  function AddOrder(b: Book, o: Order): (r: Book)
    ensures r.instrument == b.instrument
    ensures o.side == Buy ==> r.asks == b.asks
    ensures o.side == Sell ==> r.bids == b.bids
    ensures Total(SideOf(r, o.side)) == Total(SideOf(b, o.side)) + o.quantity
    ensures Keys(SideOf(r, o.side)) == Keys(SideOf(b, o.side)) + {o.price}
  {
    if o.side == Buy then b.(bids := InsertLevel(b.bids, o.price, o.id, o.quantity))
    else b.(asks := InsertLevel(b.asks, o.price, o.id, o.quantity))
  }

  /**
   * Resting an order adds its quantity at its price on its side, changes no
   * other (side, price), and keeps the book well formed.
   */
  lemma AddOrderVolume(b: Book, o: Order, s: Side, p: int)
    requires WellFormed(b)
    ensures WellFormed(AddOrder(b, o))
    ensures GetVolumeAtPrice(AddOrder(b, o), s, p)
              == GetVolumeAtPrice(b, s, p) + (if s == o.side && p == o.price then o.quantity else 0)
  {
    var ls := SideOf(b, o.side);
    InsertKeepsAscending(ls, o.price, o.id, o.quantity);
    InsertVolume(ls, o.price, o.id, o.quantity, p);
  }

  /** Resting a positive quantity leaves no zero level; queues stay in step. */
  lemma AddOrderKeepsLevels(b: Book, o: Order)
    ensures o.quantity > 0 && Positive(b.bids) && Positive(b.asks) ==>
              Positive(AddOrder(b, o).bids) && Positive(AddOrder(b, o).asks)
    ensures Consistent(b.bids) && Consistent(b.asks) ==>
              Consistent(AddOrder(b, o).bids) && Consistent(AddOrder(b, o).asks)
  {
    InsertKeepsLevels(SideOf(b, o.side), o.price, o.id, o.quantity);
  }

  /** `OrderBook::remove_order`. */
  function RemoveOrder(b: Book, id: nat, side: Side, price: int, volume: nat, mode: Mode): (r: Book)
    ensures r.instrument == b.instrument
    ensures side == Buy ==> r.asks == b.asks
    ensures side == Sell ==> r.bids == b.bids
    ensures Keys(SideOf(r, side)) <= Keys(SideOf(b, side))
    ensures price !in Keys(SideOf(b, side)) ==> r == b
  {
    if side == Buy then b.(bids := RemoveAt(b.bids, price, id, volume, mode).0)
    else b.(asks := RemoveAt(b.asks, price, id, volume, mode).0)
  }

  /**
   * Cancelling takes volume only at (side, price), as written exactly
   * min(requested, resting) of it, and keeps the book well formed.
   */
  lemma RemoveOrderVolume(b: Book, id: nat, side: Side, price: int, volume: nat, mode: Mode, s: Side, p: int)
    requires WellFormed(b)
    ensures WellFormed(RemoveOrder(b, id, side, price, volume, mode))
    ensures s != side || p != price ==>
              GetVolumeAtPrice(RemoveOrder(b, id, side, price, volume, mode), s, p) == GetVolumeAtPrice(b, s, p)
    ensures GetVolumeAtPrice(RemoveOrder(b, id, side, price, volume, mode), side, price) <= GetVolumeAtPrice(b, side, price)
    ensures mode == AsWritten ==>
              GetVolumeAtPrice(RemoveOrder(b, id, side, price, volume, mode), side, price)
                == GetVolumeAtPrice(b, side, price) - Min(volume, GetVolumeAtPrice(b, side, price))
  {
    RemoveKeepsAscending(SideOf(b, side), price, id, volume, mode);
    RemoveVolume(SideOf(b, side), price, id, volume, mode, p);
  }

  /** Cancelling erases emptied levels and, intended, keeps queues in step. */
  lemma RemoveOrderKeepsLevels(b: Book, id: nat, side: Side, price: int, volume: nat, mode: Mode)
    ensures Positive(b.bids) && Positive(b.asks) ==>
              Positive(RemoveOrder(b, id, side, price, volume, mode).bids)
              && Positive(RemoveOrder(b, id, side, price, volume, mode).asks)
    ensures mode == Intended && Consistent(b.bids) && Consistent(b.asks) ==>
              Consistent(RemoveOrder(b, id, side, price, volume, mode).bids)
              && Consistent(RemoveOrder(b, id, side, price, volume, mode).asks)
  {
    RemoveKeepsLevels(SideOf(b, side), price, id, volume, mode);
  }

  /** The side an order of `side` matches against, in the order the source visits it. */
  function ContraWalk(b: Book, side: Side, mode: Mode): seq<Level> {
    if side == Buy then b.asks else BidWalk(b.bids, mode)
  }

  /** The side after a sweep of `ContraWalk` left `rest`. */
  function AfterSweep(b: Book, side: Side, rest: seq<Level>, mode: Mode): Book {
    if side == Buy then b.(asks := rest) else b.(bids := BidWalk(rest, mode))
  }

  /**
   * `OrderBook::execute_market_order`: sweep the contra side (asks ascending
   * for a buy, the bid walk for a sell), one fill per level touched; whatever
   * is left unfilled is dropped, never rested.
   */
  function ExecuteMarketOrder(b: Book, o: Order, ts: int, mode: Mode): (r: Execution)
    ensures r.book.instrument == b.instrument
    ensures o.side == Buy ==> r.book.bids == b.bids
    ensures o.side == Sell ==> r.book.asks == b.asks
    ensures |r.fills| <= |ContraWalk(b, o.side, mode)|
    ensures forall i :: 0 <= i < |r.fills| ==>
              r.fills[i] == MakeFill(o, ts, b.instrument, ContraWalk(b, o.side, mode)[i].price, r.fills[i].quantity)
  {
    var walk := ContraWalk(b, o.side, mode);
    var s := SweepLevels(walk, o.quantity, Unbounded, o, ts, b.instrument, mode);
    SweepFills(walk, o.quantity, Unbounded, o, ts, b.instrument, mode);
    Execution(AfterSweep(b, o.side, s.rest, mode), s.fills)
  }

  /**
   * A market order fills as much as it asks for or as the contra side holds,
   * whichever is less, and exactly that much leaves the contra side.
   */
  lemma MarketOrderConservesVolume(b: Book, o: Order, ts: int, mode: Mode)
    ensures var e := ExecuteMarketOrder(b, o, ts, mode);
      && FillVolume(e.fills) == Min(o.quantity, Total(SideOf(b, Opposite(o.side))))
      && Total(SideOf(e.book, Opposite(o.side))) == Total(SideOf(b, Opposite(o.side))) - FillVolume(e.fills)
  {
    var walk := ContraWalk(b, o.side, mode);
    var s := SweepLevels(walk, o.quantity, Unbounded, o, ts, b.instrument, mode);
    SweepConserves(walk, o.quantity, Unbounded, o, ts, b.instrument, mode);
    SweepStops(walk, o.quantity, Unbounded, o, ts, b.instrument, mode);
    BidWalkLevels(b.bids, mode);
    BidWalkLevels(s.rest, mode);
  }

  lemma UncrossedWhenKeysShrink(b: Book, r: Book)
    requires Uncrossed(b)
    requires Keys(r.bids) <= Keys(b.bids) && Keys(r.asks) <= Keys(b.asks)
    ensures Uncrossed(r)
  {
    forall i, j | 0 <= i < |r.bids| && 0 <= j < |r.asks|
      ensures r.bids[i].price < r.asks[j].price
    {
      assert r.bids[i].price in Keys(r.bids);
      assert r.asks[j].price in Keys(r.asks);
      CrossPair(b, r.bids[i].price, r.asks[j].price);
    }
  }

  /** In an uncrossed book any bid price is below any ask price. */
  lemma CrossPair(b: Book, x: int, y: int)
    requires Uncrossed(b) && x in Keys(b.bids) && y in Keys(b.asks)
    ensures x < y
  {
    var m :| 0 <= m < |b.bids| && b.bids[m].price == x;
    var n :| 0 <= n < |b.asks| && b.asks[n].price == y;
  }

  /** A sweep keeps the book well formed and only ever removes prices. */
  lemma SweepKeepsShape(b: Book, side: Side, rest: seq<Level>, mode: Mode)
    requires WellFormed(b)
    requires PriceSuffix(rest, ContraWalk(b, side, mode))
    ensures WellFormed(AfterSweep(b, side, rest, mode))
    ensures Keys(AfterSweep(b, side, rest, mode).bids) <= Keys(b.bids)
    ensures Keys(AfterSweep(b, side, rest, mode).asks) <= Keys(b.asks)
  {
    if side == Buy {
      KeysOfPriceSuffix(rest, b.asks);
    } else {
      BidSideAfterSweep(b.bids, rest, mode);
    }
  }

  /** A market order keeps the book well formed and an uncrossed book uncrossed. */
  lemma MarketOrderKeepsShape(b: Book, o: Order, ts: int, mode: Mode)
    requires WellFormed(b)
    ensures WellFormed(ExecuteMarketOrder(b, o, ts, mode).book)
    ensures Uncrossed(b) ==> Uncrossed(ExecuteMarketOrder(b, o, ts, mode).book)
  {
    var s := SweepLevels(ContraWalk(b, o.side, mode), o.quantity, Unbounded, o, ts, b.instrument, mode);
    SweepRest(ContraWalk(b, o.side, mode), o.quantity, Unbounded, o, ts, b.instrument, mode);
    SweepKeepsShape(b, o.side, s.rest, mode);
    if Uncrossed(b) {
      UncrossedWhenKeysShrink(b, AfterSweep(b, o.side, s.rest, mode));
    }
  }

  /**
   * A market order leaves no zero level and fills only positive amounts; in
   * the intended mode every level keeps agreeing with its queue.
   */
  lemma MarketOrderKeepsLevels(b: Book, o: Order, ts: int, mode: Mode)
    ensures Positive(b.bids) && Positive(b.asks) ==>
              var e := ExecuteMarketOrder(b, o, ts, mode);
              Positive(e.book.bids) && Positive(e.book.asks)
              && forall i :: 0 <= i < |e.fills| ==> e.fills[i].quantity > 0
    ensures mode == Intended && Consistent(b.bids) && Consistent(b.asks) ==>
              Consistent(ExecuteMarketOrder(b, o, ts, mode).book.bids)
              && Consistent(ExecuteMarketOrder(b, o, ts, mode).book.asks)
  {
    var walk := ContraWalk(b, o.side, mode);
    var s := SweepLevels(walk, o.quantity, Unbounded, o, ts, b.instrument, mode);
    BidWalkLevels(b.bids, mode);
    BidWalkLevels(s.rest, mode);
    if Positive(b.bids) && Positive(b.asks) {
      SweepKeepsPositive(walk, o.quantity, Unbounded, o, ts, b.instrument, mode);
    }
    if mode == Intended && Consistent(b.bids) && Consistent(b.asks) {
      SweepKeepsConsistent(walk, o.quantity, Unbounded, o, ts, b.instrument);
    }
  }

  /** The price an order of `side` is willing to trade at: at most its limit for a buy. */
  function LimitBound(o: Order): Bound {
    if o.side == Buy then AtMost(o.price) else AtLeast(o.price)
  }

  /**
   * `OrderBook::execute_limit_order`: sweep only levels within the limit, then
   * rest any remainder on the order's own side at its limit price.
   */
  function ExecuteLimitOrder(b: Book, o: Order, ts: int, mode: Mode): (r: Execution)
    ensures r.book.instrument == b.instrument
    ensures FillVolume(r.fills) <= o.quantity
    ensures |r.fills| <= |ContraWalk(b, o.side, mode)|
    ensures forall i :: 0 <= i < |r.fills| ==>
              r.fills[i] == MakeFill(o, ts, b.instrument, ContraWalk(b, o.side, mode)[i].price, r.fills[i].quantity)
              && Crosses(LimitBound(o), r.fills[i].price)
  {
    var walk := ContraWalk(b, o.side, mode);
    var s := SweepLevels(walk, o.quantity, LimitBound(o), o, ts, b.instrument, mode);
    SweepConserves(walk, o.quantity, LimitBound(o), o, ts, b.instrument, mode);
    SweepFills(walk, o.quantity, LimitBound(o), o, ts, b.instrument, mode);
    var b1 := AfterSweep(b, o.side, s.rest, mode);
    if s.left > 0 then Execution(AddOrder(b1, o.(quantity := s.left)), s.fills)
    else Execution(b1, s.fills)
  }

  /**
   * Volume is conserved by a limit order: what is filled leaves the contra
   * side, and what is not rests on the order's own side.
   */
  lemma LimitOrderConservesVolume(b: Book, o: Order, ts: int, mode: Mode)
    ensures var e := ExecuteLimitOrder(b, o, ts, mode);
      && Total(SideOf(e.book, Opposite(o.side))) == Total(SideOf(b, Opposite(o.side))) - FillVolume(e.fills)
      && Total(SideOf(e.book, o.side)) == Total(SideOf(b, o.side)) + (o.quantity - FillVolume(e.fills))
  {
    var s := SweepLevels(ContraWalk(b, o.side, mode), o.quantity, LimitBound(o), o, ts, b.instrument, mode);
    SweepConserves(ContraWalk(b, o.side, mode), o.quantity, LimitBound(o), o, ts, b.instrument, mode);
    BidWalkLevels(b.bids, mode);
    BidWalkLevels(s.rest, mode);
  }

  /**
   * A limit buy that is not completely filled rests its remainder as a bid at
   * its limit, after which no ask at or below the limit remains.
   */
  lemma LimitBuyRestsRemainder(b: Book, o: Order, ts: int, mode: Mode)
    requires WellFormed(b) && o.side == Buy
    ensures var e := ExecuteLimitOrder(b, o, ts, mode);
      var left := o.quantity - FillVolume(e.fills);
      left > 0 ==>
        && GetVolumeAtPrice(e.book, Buy, o.price) == GetVolumeAtPrice(b, Buy, o.price) + left
        && forall j :: 0 <= j < |e.book.asks| ==> e.book.asks[j].price > o.price
  {
    var s := SweepLevels(b.asks, o.quantity, AtMost(o.price), o, ts, b.instrument, mode);
    SweepConserves(b.asks, o.quantity, AtMost(o.price), o, ts, b.instrument, mode);
    SweepRest(b.asks, o.quantity, AtMost(o.price), o, ts, b.instrument, mode);
    SweepStops(b.asks, o.quantity, AtMost(o.price), o, ts, b.instrument, mode);
    if s.left > 0 {
      KeysOfPriceSuffix(s.rest, b.asks);
      InsertVolume(b.bids, o.price, o.id, s.left, o.price);
      forall j | 0 <= j < |s.rest| ensures s.rest[j].price > o.price {
        assert s.rest[0].price <= s.rest[j].price;
      }
    }
  }

  /** A limit order keeps the book well formed. */
  lemma LimitOrderKeepsShape(b: Book, o: Order, ts: int, mode: Mode)
    requires WellFormed(b)
    ensures WellFormed(ExecuteLimitOrder(b, o, ts, mode).book)
  {
    var s := SweepLevels(ContraWalk(b, o.side, mode), o.quantity, LimitBound(o), o, ts, b.instrument, mode);
    SweepRest(ContraWalk(b, o.side, mode), o.quantity, LimitBound(o), o, ts, b.instrument, mode);
    SweepKeepsShape(b, o.side, s.rest, mode);
    if s.left > 0 {
      AddOrderVolume(AfterSweep(b, o.side, s.rest, mode), o.(quantity := s.left), o.side, o.price);
    }
  }

  /**
   * A limit order leaves no zero level and, in the intended mode, keeps every
   * level agreeing with its queue.
   */
  lemma LimitOrderKeepsLevels(b: Book, o: Order, ts: int, mode: Mode)
    ensures Positive(b.bids) && Positive(b.asks) ==>
              Positive(ExecuteLimitOrder(b, o, ts, mode).book.bids)
              && Positive(ExecuteLimitOrder(b, o, ts, mode).book.asks)
    ensures mode == Intended && Consistent(b.bids) && Consistent(b.asks) ==>
              Consistent(ExecuteLimitOrder(b, o, ts, mode).book.bids)
              && Consistent(ExecuteLimitOrder(b, o, ts, mode).book.asks)
  {
    var walk := ContraWalk(b, o.side, mode);
    var s := SweepLevels(walk, o.quantity, LimitBound(o), o, ts, b.instrument, mode);
    BidWalkLevels(b.bids, mode);
    BidWalkLevels(s.rest, mode);
    if Positive(b.bids) && Positive(b.asks) {
      SweepKeepsPositive(walk, o.quantity, LimitBound(o), o, ts, b.instrument, mode);
    }
    if mode == Intended && Consistent(b.bids) && Consistent(b.asks) {
      SweepKeepsConsistent(walk, o.quantity, LimitBound(o), o, ts, b.instrument);
    }
    if s.left > 0 {
      AddOrderKeepsLevels(AfterSweep(b, o.side, s.rest, mode), o.(quantity := s.left));
    }
  }

  /** Every level of `ls` is priced below `p`. */
  predicate BelowAll(ls: seq<Level>, p: int) {
    forall i :: 0 <= i < |ls| ==> ls[i].price < p
  }

  /** Resting a sell above every bid keeps a book uncrossed. */
  lemma AddAskKeepsUncrossed(b: Book, o: Order)
    requires Uncrossed(b) && o.side == Sell
    requires forall i :: 0 <= i < |b.bids| ==> b.bids[i].price < o.price
    ensures Uncrossed(AddOrder(b, o))
  {
    var r := AddOrder(b, o);
    forall i, j | 0 <= i < |r.bids| && 0 <= j < |r.asks|
      ensures r.bids[i].price < r.asks[j].price
    {
      assert r.asks[j].price in Keys(r.asks);
      if r.asks[j].price != o.price {
        var n :| 0 <= n < |b.asks| && b.asks[n].price == r.asks[j].price;
      }
    }
  }

  /** Resting a buy below every ask keeps a book uncrossed. */
  lemma AddBidKeepsUncrossed(b: Book, o: Order)
    requires Uncrossed(b) && o.side == Buy
    requires forall j :: 0 <= j < |b.asks| ==> o.price < b.asks[j].price
    ensures Uncrossed(AddOrder(b, o))
  {
    var r := AddOrder(b, o);
    forall i, j | 0 <= i < |r.bids| && 0 <= j < |r.asks|
      ensures r.bids[i].price < r.asks[j].price
    {
      assert r.bids[i].price in Keys(r.bids);
      if r.bids[i].price != o.price {
        var m :| 0 <= m < |b.bids| && b.bids[m].price == r.bids[i].price;
      }
    }
  }

  /**
   * A limit buy leaves an uncrossed book uncrossed in either mode: asks are
   * walked lowest first, and a remainder rests below every surviving ask.
   */
  lemma LimitBuyKeepsBookUncrossed(b: Book, o: Order, ts: int, mode: Mode)
    requires WellFormed(b) && Uncrossed(b) && o.side == Buy
    ensures Uncrossed(ExecuteLimitOrder(b, o, ts, mode).book)
  {
    var s := SweepLevels(b.asks, o.quantity, AtMost(o.price), o, ts, b.instrument, mode);
    SweepRest(b.asks, o.quantity, AtMost(o.price), o, ts, b.instrument, mode);
    SweepStops(b.asks, o.quantity, AtMost(o.price), o, ts, b.instrument, mode);
    var b1 := b.(asks := s.rest);
    KeysOfPriceSuffix(s.rest, b.asks);
    UncrossedWhenKeysShrink(b, b1);
    if s.left > 0 {
      forall j | 0 <= j < |s.rest| ensures o.price < s.rest[j].price {
        assert s.rest[0].price <= s.rest[j].price;
      }
      AddBidKeepsUncrossed(b1, o.(quantity := s.left));
    }
  }

  /**
   * In the intended mode a limit sell also keeps the book uncrossed: bids are
   * walked highest first, so a remainder rests above every surviving bid.
   * As written this fails (see `AsWrittenLimitSellCrossesBook`).
   */
  lemma IntendedLimitSellKeepsBookUncrossed(b: Book, o: Order, ts: int)
    requires WellFormed(b) && Uncrossed(b) && o.side == Sell
    ensures Uncrossed(ExecuteLimitOrder(b, o, ts, Intended).book)
  {
    var walk := Reverse(b.bids);
    var s := SweepLevels(walk, o.quantity, AtLeast(o.price), o, ts, b.instrument, Intended);
    SweepRest(walk, o.quantity, AtLeast(o.price), o, ts, b.instrument, Intended);
    var b1 := b.(bids := Reverse(s.rest));
    BidSideAfterSweep(b.bids, s.rest, Intended);
    UncrossedWhenKeysShrink(b, b1);
    if s.left > 0 {
      IntendedSellLeavesBidsBelow(b, o, ts);
      assert BelowAll(b1.bids, o.price);
      RestingSellKeepsUncrossed(b1, o, s.left);
    }
  }

  lemma RestingSellKeepsUncrossed(b1: Book, o: Order, left: nat)
    requires Uncrossed(b1) && o.side == Sell
    requires BelowAll(b1.bids, o.price)
    ensures Uncrossed(AddOrder(b1, o.(quantity := left)))
  {
    AddAskKeepsUncrossed(b1, o.(quantity := left));
  }

  /**
   * When an intended limit sell keeps volume over, every surviving bid is
   * below its limit.
   */
  lemma IntendedSellLeavesBidsBelow(b: Book, o: Order, ts: int)
    requires WellFormed(b) && o.side == Sell
    ensures var s := SweepLevels(Reverse(b.bids), o.quantity, AtLeast(o.price), o, ts, b.instrument, Intended);
      s.left > 0 ==> BelowAll(Reverse(s.rest), o.price)
  {
    var walk := Reverse(b.bids);
    var s := SweepLevels(walk, o.quantity, AtLeast(o.price), o, ts, b.instrument, Intended);
    SweepRest(walk, o.quantity, AtLeast(o.price), o, ts, b.instrument, Intended);
    SweepStops(walk, o.quantity, AtLeast(o.price), o, ts, b.instrument, Intended);
    if s.left > 0 {
      ReverseDescending(b.bids);
      KeysOfPriceSuffix(s.rest, walk);
      forall i | 0 <= i < |Reverse(s.rest)| ensures Reverse(s.rest)[i].price < o.price {
        var k := |s.rest| - 1 - i;
        assert Reverse(s.rest)[i] == s.rest[k];
        assert s.rest[0].price >= s.rest[k].price;
      }
    }
  }

  // ---------------------------------------------------------------------
  // Queries
  // ---------------------------------------------------------------------

  /** `OrderBook::best_bid`: the first level of the bid walk. */
  function BestBid(b: Book, mode: Mode): (r: Option<int>)
    ensures r.None? <==> |b.bids| == 0
    ensures r.Some? ==> r.value in Keys(b.bids)
    ensures r.Some? && mode == AsWritten && WellFormed(b) ==>
              forall i :: 0 <= i < |b.bids| ==> r.value <= b.bids[i].price
    ensures r.Some? && mode == Intended && WellFormed(b) ==>
              forall i :: 0 <= i < |b.bids| ==> r.value >= b.bids[i].price
  {
    if |b.bids| == 0 then None
    else
      var w := BidWalk(b.bids, mode);
      assert w[0].price in Keys(b.bids) by {
        if mode == Intended { assert w[0] == b.bids[|b.bids| - 1]; }
      }
      Some(w[0].price)
  }

  /** `OrderBook::best_ask`: the lowest ask. */
  function BestAsk(b: Book): (r: Option<int>)
    ensures r.None? <==> |b.asks| == 0
    ensures r.Some? ==> r.value in Keys(b.asks)
    ensures r.Some? && WellFormed(b) ==> forall i :: 0 <= i < |b.asks| ==> r.value <= b.asks[i].price
  {
    if |b.asks| == 0 then None else Some(b.asks[0].price)
  }

  /** `OrderBook::spread`: best ask minus best bid, when both exist. */
  function Spread(b: Book, mode: Mode): (r: Option<int>)
    ensures r.Some? <==> |b.bids| > 0 && |b.asks| > 0
    ensures r.Some? ==> r.value == BestAsk(b).value - BestBid(b, mode).value
    ensures r.Some? && Uncrossed(b) ==> r.value > 0
  {
    match (BestBid(b, mode), BestAsk(b))
    case (Some(bid), Some(ask)) =>
      if Uncrossed(b) then CrossPair(b, bid, ask); Some(ask - bid) else Some(ask - bid)
    case _ => None
  }

  /** `OrderBook::mid_price`: halfway between best bid and best ask. */
  function MidPrice(b: Book, mode: Mode): (r: Option<real>)
    ensures r.Some? <==> |b.bids| > 0 && |b.asks| > 0
    ensures r.Some? ==> r.value - BestBid(b, mode).value as real == BestAsk(b).value as real - r.value
  {
    match (BestBid(b, mode), BestAsk(b))
    case (Some(bid), Some(ask)) => Some((bid as real + ask as real) / 2.0)
    case _ => None
  }

  /** The first `n` levels of a walk as (price, volume) pairs. */
  function Depth(walk: seq<Level>, n: nat): (r: seq<DepthLevel>)
    ensures |r| == Min(n, |walk|)
    ensures forall i :: 0 <= i < |r| ==> r[i] == DepthLevel(walk[i].price, walk[i].total)
  {
    var k := Min(n, |walk|);
    seq(k, i requires 0 <= i < k => DepthLevel(walk[i].price, walk[i].total))
  }

  /** The prices a depth listing shows. */
  function Listed(d: seq<DepthLevel>): set<int> {
    set i | 0 <= i < |d| :: d[i].price
  }

  lemma ListedAt(d: seq<DepthLevel>, k: nat)
    requires k < |d|
    ensures d[k].price in Listed(d)
  {
  }

  /** The volume a depth listing shows in total. */
  function DepthVolume(d: seq<DepthLevel>): nat {
    if |d| == 0 then 0 else d[0].volume + DepthVolume(d[1..])
  }

  /** On an ordered side, the volume at a level's own price is that level's volume. */
  lemma {:induction false} VolumeAtLevel(ls: seq<Level>, i: nat)
    requires Ascending(ls) && i < |ls|
    ensures VolumeAt(ls, ls[i].price) == ls[i].total
    decreases i
  {
    if i > 0 {
      assert ls[0].price < ls[i].price;
      assert ls[1..][i - 1] == ls[i];
      VolumeAtLevel(ls[1..], i - 1);
    }
  }

  /**
   * Listing the first `n` levels of an ordered side: each entry shows its
   * level's volume, and every price left out lies above all listed ones.
   */
  lemma DepthOfAscending(ls: seq<Level>, n: nat)
    requires Ascending(ls)
    ensures var d := Depth(ls, n);
      (forall i :: 0 <= i < |d| ==> d[i].price in Keys(ls) && d[i].volume == VolumeAt(ls, d[i].price))
      && (forall p :: p in Keys(ls) && p !in Listed(d) ==> forall i :: 0 <= i < |d| ==> d[i].price < p)
  {
    var d := Depth(ls, n);
    forall i | 0 <= i < |d|
      ensures d[i].price in Keys(ls) && d[i].volume == VolumeAt(ls, d[i].price)
    {
      VolumeAtLevel(ls, i);
    }
    forall p | p in Keys(ls) && p !in Listed(d)
      ensures forall i :: 0 <= i < |d| ==> d[i].price < p
    {
      var j :| 0 <= j < |ls| && ls[j].price == p;
    }
  }

  /**
   * Listing the first `n` levels of an ordered side from its top: each entry
   * shows its level's volume, and every price left out lies below all listed
   * ones.
   */
  lemma DepthOfDescending(ls: seq<Level>, n: nat)
    requires Ascending(ls)
    ensures var d := Depth(Reverse(ls), n);
      (forall i :: 0 <= i < |d| ==> d[i].price in Keys(ls) && d[i].volume == VolumeAt(ls, d[i].price))
      && (forall p :: p in Keys(ls) && p !in Listed(d) ==> forall i :: 0 <= i < |d| ==> d[i].price > p)
  {
    var d := Depth(Reverse(ls), n);
    forall i | 0 <= i < |d|
      ensures d[i].price in Keys(ls) && d[i].volume == VolumeAt(ls, d[i].price)
    {
      assert d[i].price == ls[|ls| - 1 - i].price;
      VolumeAtLevel(ls, |ls| - 1 - i);
    }
    forall p | p in Keys(ls) && p !in Listed(d)
      ensures forall i :: 0 <= i < |d| ==> d[i].price > p
    {
      var j :| 0 <= j < |ls| && ls[j].price == p;
      if |ls| - 1 - j < |d| {
        ListedAt(d, |ls| - 1 - j);
      }
      forall i | 0 <= i < |d|
        ensures d[i].price > p
      {
        assert d[i].price == ls[|ls| - 1 - i].price;
      }
    }
  }

  /** Listing a whole walk shows its whole volume. */
  lemma {:induction false} DepthVolumeOfWalk(walk: seq<Level>)
    ensures DepthVolume(Depth(walk, |walk|)) == Total(walk)
    decreases |walk|
  {
    if |walk| > 0 {
      assert Depth(walk, |walk|)[1..] == Depth(walk[1..], |walk| - 1);
      DepthVolumeOfWalk(walk[1..]);
    }
  }

  /**
   * `OrderBook::get_bids(levels)`, listed in bid-walk order: the first
   * `levels` bid prices of the walk, each with the volume resting there.
   * As written the walk starts at the lowest bid, so every bid left out is
   * above the listed ones; intended, it starts at the highest.
   */
  function GetBids(b: Book, levels: nat, mode: Mode): (r: seq<DepthLevel>)
    ensures |r| == Min(levels, |b.bids|)
    ensures forall i :: 0 <= i < |r| ==> r[i].price in Keys(b.bids)
    ensures mode == AsWritten && WellFormed(b) ==> forall i, j :: 0 <= i < j < |r| ==> r[i].price < r[j].price
    ensures mode == Intended && WellFormed(b) ==> forall i, j :: 0 <= i < j < |r| ==> r[i].price > r[j].price
    ensures WellFormed(b) ==> forall i :: 0 <= i < |r| ==> r[i].volume == GetVolumeAtPrice(b, Buy, r[i].price)
    ensures mode == AsWritten && WellFormed(b) ==>
      forall p :: p in Keys(b.bids) && p !in Listed(r) ==> forall i :: 0 <= i < |r| ==> r[i].price < p
    ensures mode == Intended && WellFormed(b) ==>
      forall p :: p in Keys(b.bids) && p !in Listed(r) ==> forall i :: 0 <= i < |r| ==> r[i].price > p
  {
    BidDepth(b.bids, levels, mode);
    Depth(BidWalk(b.bids, mode), levels)
  }

  /** The facts `GetBids` states, about the listing of a bid walk. */
  lemma BidDepth(bids: seq<Level>, levels: nat, mode: Mode)
    ensures var d := Depth(BidWalk(bids, mode), levels);
      (forall i :: 0 <= i < |d| ==> d[i].price in Keys(bids))
      && (mode == AsWritten && Ascending(bids) ==> forall i, j :: 0 <= i < j < |d| ==> d[i].price < d[j].price)
      && (mode == Intended && Ascending(bids) ==> forall i, j :: 0 <= i < j < |d| ==> d[i].price > d[j].price)
      && (Ascending(bids) ==> forall i :: 0 <= i < |d| ==> d[i].volume == VolumeAt(bids, d[i].price))
      && (mode == AsWritten && Ascending(bids) ==>
            forall p :: p in Keys(bids) && p !in Listed(d) ==> forall i :: 0 <= i < |d| ==> d[i].price < p)
      && (mode == Intended && Ascending(bids) ==>
            forall p :: p in Keys(bids) && p !in Listed(d) ==> forall i :: 0 <= i < |d| ==> d[i].price > p)
  {
    var d := Depth(BidWalk(bids, mode), levels);
    if Ascending(bids) {
      if mode == Intended {
        ReverseDescending(bids);
        DepthOfDescending(bids, levels);
      } else {
        DepthOfAscending(bids, levels);
      }
    } else {
      forall i | 0 <= i < |d|
        ensures d[i].price in Keys(bids)
      {
        if mode == Intended {
          assert d[i].price == bids[|bids| - 1 - i].price;
        }
      }
    }
  }

  /** `get_bids` lists first the level `best_bid` reports. */
  lemma BestBidHeadsGetBids(b: Book, levels: nat, mode: Mode)
    requires levels > 0 && |b.bids| > 0
    ensures GetBids(b, levels, mode)[0].price == BestBid(b, mode).value
  {
  }

  /** A sell sweep consumes bids in exactly the order `GetBids` lists them. */
  lemma MarketSellFollowsGetBids(b: Book, o: Order, ts: int, mode: Mode)
    requires o.side == Sell
    ensures |ExecuteMarketOrder(b, o, ts, mode).fills| <= |GetBids(b, |b.bids|, mode)|
    ensures forall i :: 0 <= i < |ExecuteMarketOrder(b, o, ts, mode).fills| ==>
              ExecuteMarketOrder(b, o, ts, mode).fills[i].price == GetBids(b, |b.bids|, mode)[i].price
  {
  }

  /** In the intended mode a market sell is filled at strictly falling prices, best bid first. */
  lemma IntendedMarketSellWalksDown(b: Book, o: Order, ts: int)
    requires WellFormed(b) && o.side == Sell
    ensures var f := ExecuteMarketOrder(b, o, ts, Intended).fills;
      (|f| > 0 ==> f[0].price == BestBid(b, Intended).value)
      && forall i, j :: 0 <= i < j < |f| ==> f[i].price > f[j].price
  {
    MarketSellFollowsGetBids(b, o, ts, Intended);
    if |ExecuteMarketOrder(b, o, ts, Intended).fills| > 0 {
      BestBidHeadsGetBids(b, |b.bids|, Intended);
    }
  }

  /**
   * `OrderBook::get_asks(levels)`: the `levels` lowest asks, lowest first,
   * each with the volume resting there; every ask left out is above them.
   */
  function GetAsks(b: Book, levels: nat): (r: seq<DepthLevel>)
    ensures |r| == Min(levels, |b.asks|)
    ensures WellFormed(b) ==> forall i, j :: 0 <= i < j < |r| ==> r[i].price < r[j].price
    ensures forall i :: 0 <= i < |r| ==> r[i].price in Keys(b.asks)
    ensures WellFormed(b) ==> forall i :: 0 <= i < |r| ==> r[i].volume == GetVolumeAtPrice(b, Sell, r[i].price)
    ensures WellFormed(b) ==>
      forall p :: p in Keys(b.asks) && p !in Listed(r) ==> forall i :: 0 <= i < |r| ==> r[i].price < p
    ensures |r| > 0 ==> r[0].price == BestAsk(b).value
  {
    if Ascending(b.asks) then DepthOfAscending(b.asks, levels); Depth(b.asks, levels)
    else Depth(b.asks, levels)
  }

  /** `OrderBook::get_volume_at_price`: 0 when the side has no level there. */
  function GetVolumeAtPrice(b: Book, side: Side, price: int): (r: nat)
    ensures price !in Keys(SideOf(b, side)) ==> r == 0
  {
    VolumeOffKeys(SideOf(b, side), price);
    VolumeAt(SideOf(b, side), price)
  }

  /** With no zero-volume level, a listed price always shows positive volume. */
  lemma {:induction false} ListedVolumePositive(ls: seq<Level>, p: int)
    requires Positive(ls) && p in Keys(ls)
    ensures VolumeAt(ls, p) > 0
    decreases |ls|
  {
    assert ls == [ls[0]] + ls[1..];
    KeysCons(ls[0], ls[1..]);
    if ls[0].price != p {
      ListedVolumePositive(ls[1..], p);
    }
  }

  /** `OrderBook::clear`. */
  function Clear(b: Book): (r: Book)
    ensures r.instrument == b.instrument
    ensures BestBid(r, AsWritten).None? && BestAsk(r).None?
    ensures forall s, p :: GetVolumeAtPrice(r, s, p) == 0
  {
    Book(b.instrument, [], [])
  }

  /** `OrderBook::get_stats`. */
  function GetStats(b: Book, mode: Mode): (r: BookStats)
    ensures r.bidLevels == |GetBids(b, |b.bids|, mode)| && r.askLevels == |GetAsks(b, |b.asks|)|
    ensures r.totalBidVolume == DepthVolume(GetBids(b, |b.bids|, mode))
    ensures r.totalAskVolume == DepthVolume(GetAsks(b, |b.asks|))
    ensures r.bestBid == BestBid(b, mode) && r.bestAsk == BestAsk(b) && r.spread == Spread(b, mode)
    ensures r.bidLevels == 0 <==> r.bestBid.None?
    ensures r.askLevels == 0 <==> r.bestAsk.None?
    ensures r.spread.Some? <==> r.bestBid.Some? && r.bestAsk.Some?
    ensures Positive(b.bids) ==> (r.totalBidVolume == 0 <==> r.bidLevels == 0)
    ensures Positive(b.asks) ==> (r.totalAskVolume == 0 <==> r.askLevels == 0)
  {
    BidWalkLevels(b.bids, mode);
    DepthVolumeOfWalk(BidWalk(b.bids, mode));
    DepthVolumeOfWalk(b.asks);
    BookStats(|b.bids|, |b.asks|, Total(b.bids), Total(b.asks), BestBid(b, mode), BestAsk(b), Spread(b, mode))
  }

  // ---------------------------------------------------------------------
  // Discrepancies of the code as written
  // ---------------------------------------------------------------------

  /** Bids at 99 and 101, no asks. */
  function TwoBidBook(): Book {
    Book("X", [NewLevel(99, 1, 1), NewLevel(101, 2, 1)], [])
  }

  function SellOrder(kind: OrderType, price: int): Order {
    Order(3, 0, "X", "s", Sell, kind, price, 1)
  }

  /** As written, a market sell is filled against the lowest bid, not the highest. */
  lemma AsWrittenMarketSellHitsLowestBid()
    ensures ExecuteMarketOrder(TwoBidBook(), SellOrder(Market, 0), 0, AsWritten).fills[0].price == 99
    ensures ExecuteMarketOrder(TwoBidBook(), SellOrder(Market, 0), 0, Intended).fills[0].price == 101
  {
    var b := TwoBidBook();
    var o := SellOrder(Market, 0);
    var s := SweepLevels(b.bids, 1, Unbounded, o, 0, "X", AsWritten);
    assert |s.fills| > 0;
    var t := SweepLevels(Reverse(b.bids), 1, Unbounded, o, 0, "X", Intended);
    assert Reverse(b.bids)[0].price == 101;
    assert |t.fills| > 0;
  }

  /**
   * As written, a limit sell at 100 against bids at 99 and 101 stops at the
   * lowest bid, fills nothing and rests an ask at 100 below the bid at 101.
   */
  lemma AsWrittenLimitSellCrossesBook()
    ensures WellFormed(TwoBidBook()) && Uncrossed(TwoBidBook())
    ensures ExecuteLimitOrder(TwoBidBook(), SellOrder(Limit, 100), 0, AsWritten).fills == []
    ensures !Uncrossed(ExecuteLimitOrder(TwoBidBook(), SellOrder(Limit, 100), 0, AsWritten).book)
  {
    var b := TwoBidBook();
    var o := SellOrder(Limit, 100);
    var s := SweepLevels(b.bids, 1, AtLeast(100), o, 0, "X", AsWritten);
    assert s == Sweep([], b.bids, 1);
    var r := ExecuteLimitOrder(b, o, 0, AsWritten).book;
    assert r.bids == b.bids;
    assert r.asks == [NewLevel(100, 3, 1)];
    assert r.bids[1].price == 101 && r.asks[0].price == 100;
  }

  /** One ask level of 10 whose queue holds a single order of 10. */
  function OneAskBook(): Book {
    Book("X", [], [NewLevel(101, 1, 10)])
  }

  function BuyFive(): Order {
    Order(2, 0, "X", "s", Buy, Market, 0, 5)
  }

  /**
   * As written, a partial match lowers the aggregate but not the queue: the
   * level no longer agrees with its own FIFO queue. Intended, it still does.
   */
  lemma AsWrittenMatchLeavesQueueStale()
    ensures Consistent(OneAskBook().asks)
    ensures !Consistent(ExecuteMarketOrder(OneAskBook(), BuyFive(), 0, AsWritten).book.asks)
    ensures Consistent(ExecuteMarketOrder(OneAskBook(), BuyFive(), 0, Intended).book.asks)
  {
    var b := OneAskBook();
    var q := [Entry(1, 10)];
    var q5 := [Entry(1, 5)];
    assert b.asks == [Level(101, 10, q)];
    assert q[1..] == [] && q5[1..] == [];
    assert QueueVolume(q) == 10;
    assert QueueVolume(q5) == 5;
    SweepPartial(b.asks, 5, Unbounded, BuyFive(), 0, "X", AsWritten);
    assert b.asks[1..] == [];
    var w := ExecuteMarketOrder(b, BuyFive(), 0, AsWritten).book.asks;
    assert w == [Level(101, 5, q)];
    assert w[0].total != QueueVolume(w[0].queue);
    SweepPartial(b.asks, 5, Unbounded, BuyFive(), 0, "X", Intended);
    assert PopFifo(q, 5) == q5;
    var t := ExecuteMarketOrder(b, BuyFive(), 0, Intended).book.asks;
    assert t == [Level(101, 5, q5)];
  }

  /** As written, cancelling order 7 takes volume that belongs to order 1. */
  lemma AsWrittenRemoveIgnoresOrderId()
    ensures GetVolumeAtPrice(RemoveOrder(OneAskBook(), 7, Sell, 101, 4, AsWritten), Sell, 101) == 6
    ensures GetVolumeAtPrice(RemoveOrder(OneAskBook(), 7, Sell, 101, 4, Intended), Sell, 101) == 10
  {
    var b := OneAskBook();
    var q := [Entry(1, 10)];
    assert b.asks == [Level(101, 10, q)];
    assert q[1..] == [];
    assert QueuedVolumeOf(q, 7) == 0;
    var rm := LevelRemove(b.asks[0], 7, 4, Intended);
    assert rm.removed == 0 && rm.level.total == 10;
    assert RemoveAt(b.asks, 101, 7, 4, Intended).0 == [rm.level] + b.asks[1..];
    var wm := LevelRemove(b.asks[0], 7, 4, AsWritten);
    assert wm.level.total == 6;
    assert RemoveAt(b.asks, 101, 7, 4, AsWritten).0 == [wm.level] + b.asks[1..];
  }
}
