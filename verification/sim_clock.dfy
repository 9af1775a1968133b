/**
 * The virtual clock of the simulation (`SimClock`, include/core/sim_clock.h):
 * a current time in integer nanoseconds and a queue of callbacks ordered by
 * execution time.
 *
 * Callbacks are opaque ids. Whether a callback throws a `std::exception`,
 * the only kind the clock catches, is given by the set `throws`; the clock
 * records it and carries on. The pending queue is kept as
 * a sequence sorted by time; among equal times, earlier-scheduled entries
 * come first.
 */
module SimClock {
  import opened Types

  datatype Scheduled = Scheduled(time: int, callback: nat)

  datatype Clock = Clock(now: int, pending: seq<Scheduled>)

  /** One callback run by the clock, and whether it completed without throwing. */
  datatype Firing = Firing(time: int, callback: nat, completed: bool)

  /** The due callbacks that ran, and the entries still pending. */
  datatype Drain = Drain(fired: seq<Firing>, rest: seq<Scheduled>)

  /** The result of `advance_to`: refused when asked to go backwards. */
  datatype Advance = Backwards | Advanced(clock: Clock, fired: seq<Firing>)

  predicate Sorted(ps: seq<Scheduled>) {
    forall i, j :: 0 <= i < j < |ps| ==> ps[i].time <= ps[j].time
  }

  predicate FiredInOrder(fs: seq<Firing>) {
    forall i, j :: 0 <= i < j < |fs| ==> fs[i].time <= fs[j].time
  }

  /** The well-formedness every operation keeps: the queue is sorted. */
  predicate Valid(c: Clock) {
    Sorted(c.pending)
  }

  function Entries(fs: seq<Firing>): seq<Scheduled> {
    seq(|fs|, i requires 0 <= i < |fs| => Scheduled(fs[i].time, fs[i].callback))
  }

  /** A clock started at `t`, with nothing scheduled. */
  function Start(t: int): (c: Clock)
    ensures Valid(c)
  {
    Clock(t, [])
  }

  /** Puts `e` after every entry due no later than it. */
  function Insert(ps: seq<Scheduled>, e: Scheduled): (r: seq<Scheduled>)
    ensures multiset(r) == multiset(ps) + multiset{e}
    ensures |r| == |ps| + 1
  {
    if ps == [] then [e]
    else if e.time < ps[0].time then [e] + ps
    else
      assert ps == [ps[0]] + ps[1..];
      [ps[0]] + Insert(ps[1..], e)
  }

  lemma {:induction false} InsertKeepsSorted(ps: seq<Scheduled>, e: Scheduled)
    requires Sorted(ps)
    ensures Sorted(Insert(ps, e))
  {
    if ps != [] && e.time >= ps[0].time {
      InsertKeepsSorted(ps[1..], e);
      var r := Insert(ps[1..], e);
      forall k | 0 <= k < |r|
        ensures ps[0].time <= r[k].time
      {
        assert r[k] in multiset(ps[1..]) + multiset{e};
        assert r[k] in multiset(r);
      }
    }
  }

  /** `schedule`: one more pending entry; the time does not move. */
  function Schedule(c: Clock, time: int, callback: nat): (r: Clock)
    ensures r.now == c.now
    ensures multiset(r.pending) == multiset(c.pending) + multiset{Scheduled(time, callback)}
    ensures Valid(c) ==> Valid(r)
  {
    InsertKeepsSortedIfSorted(c.pending, Scheduled(time, callback));
    Clock(c.now, Insert(c.pending, Scheduled(time, callback)))
  }

  lemma InsertKeepsSortedIfSorted(ps: seq<Scheduled>, e: Scheduled)
    ensures Sorted(ps) ==> Sorted(Insert(ps, e))
  {
    if Sorted(ps) {
      InsertKeepsSorted(ps, e);
    }
  }

  /** `schedule_delay`: schedules relative to the current time. */
  function ScheduleDelay(c: Clock, delay: int, callback: nat): (r: Clock)
    ensures r == Schedule(c, c.now + delay, callback)
  {
    Schedule(c, c.now + delay, callback)
  }

  /**
   * `process_scheduled_events`: runs entries from the front while they are
   * due at `t`. A callback that throws a `std::exception` is recorded and
   * the loop goes on.
   */
  function ProcessDue(ps: seq<Scheduled>, t: int, throws: set<nat>): (d: Drain)
    ensures |d.fired| <= |ps| && d.rest == ps[|d.fired|..]
    ensures Entries(d.fired) == ps[..|d.fired|]
    ensures forall i :: 0 <= i < |d.fired| ==> d.fired[i].time <= t
    ensures d.rest == [] || d.rest[0].time > t
  {
    if ps == [] || ps[0].time > t then Drain([], ps)
    else
      var d := ProcessDue(ps[1..], t, throws);
      var f := Firing(ps[0].time, ps[0].callback, ps[0].callback !in throws);
      assert Entries([f] + d.fired) == [ps[0]] + Entries(d.fired);
      Drain([f] + d.fired, d.rest)
  }

  /** `advance_to`: refuses to go back; otherwise moves to `t` and runs what is due. */
  function AdvanceTo(c: Clock, t: int, throws: set<nat>): (r: Advance)
    ensures t < c.now <==> r.Backwards?
    ensures r.Advanced? ==> r.clock.now == t
  {
    if t < c.now then Backwards
    else
      var d := ProcessDue(c.pending, t, throws);
      Advanced(Clock(t, d.rest), d.fired)
  }

  /** `advance_by`: advances relative to the current time. */
  function AdvanceBy(c: Clock, duration: int, throws: set<nat>): (r: Advance)
    ensures duration >= 0 ==> r.Advanced? && r.clock.now == c.now + duration
    ensures duration < 0 ==> r.Backwards?
  {
    AdvanceTo(c, c.now + duration, throws)
  }

  /** `reset`: moves to `t`, even backwards, and drops everything pending. */
  function Reset(c: Clock, t: int): (r: Clock)
    ensures r.now == t && !HasPendingEvents(r) && Valid(r)
  {
    Clock(t, [])
  }

  /** `has_pending_events`: some callback is still scheduled. */
  function HasPendingEvents(c: Clock): (r: bool)
    ensures r <==> exists e :: e in c.pending
  {
    if c.pending == [] then false
    else assert c.pending[0] in c.pending; true
  }

  /** `next_event_time`: the earliest pending time, if any. */
  function NextEventTime(c: Clock): (r: Option<int>)
    requires Valid(c)
    ensures r.None? <==> !HasPendingEvents(c)
    ensures r.Some? ==> exists i :: 0 <= i < |c.pending| && c.pending[i].time == r.value
    ensures r.Some? ==> forall i :: 0 <= i < |c.pending| ==> r.value <= c.pending[i].time
  {
    if c.pending == [] then None else Some(c.pending[0].time)
  }

  /**
   * After a successful `advance_to(t)`: exactly the entries due at `t` ran, in
   * order of time; everything later is still pending and still sorted; the
   * ran entries and the pending ones together are the old queue.
   */
  lemma {:induction false} AdvanceFiresExactlyTheDue(c: Clock, t: int, throws: set<nat>)
    requires Valid(c) && t >= c.now
    ensures var r := AdvanceTo(c, t, throws);
      r.Advanced?
      && Entries(r.fired) + r.clock.pending == c.pending
      && (forall i :: 0 <= i < |r.fired| ==> r.fired[i].time <= t)
      && (forall i :: 0 <= i < |r.clock.pending| ==> r.clock.pending[i].time > t)
      && FiredInOrder(r.fired)
      && Valid(r.clock)
  {
    var d := ProcessDue(c.pending, t, throws);
    assert c.pending[..|d.fired|] + c.pending[|d.fired|..] == c.pending;
    RestIsLater(c.pending, t, throws);
    FiredAreSorted(c.pending, t, throws);
  }

  /** On a sorted queue, everything left pending is later than `t`. */
  lemma RestIsLater(ps: seq<Scheduled>, t: int, throws: set<nat>)
    requires Sorted(ps)
    ensures var d := ProcessDue(ps, t, throws);
      Sorted(d.rest) && forall i :: 0 <= i < |d.rest| ==> d.rest[i].time > t
  {
    var d := ProcessDue(ps, t, throws);
    var n := |d.fired|;
    forall i | 0 <= i < |d.rest|
      ensures d.rest[i].time > t
    {
      assert d.rest[i] == ps[n + i];
      assert ps[n].time <= ps[n + i].time;
    }
  }

  /** On a sorted queue, callbacks run in order of time. */
  lemma FiredAreSorted(ps: seq<Scheduled>, t: int, throws: set<nat>)
    requires Sorted(ps)
    ensures FiredInOrder(ProcessDue(ps, t, throws).fired)
  {
    var d := ProcessDue(ps, t, throws);
    forall i, j | 0 <= i < j < |d.fired|
      ensures d.fired[i].time <= d.fired[j].time
    {
      assert Entries(d.fired)[i] == ps[i];
      assert Entries(d.fired)[j] == ps[j];
    }
  }

  /** Every due callback runs, whether or not callbacks before it throw a `std::exception`. */
  lemma {:induction false} ThrowingDoesNotStopTheDrain(ps: seq<Scheduled>, t: int, throws1: set<nat>, throws2: set<nat>)
    ensures Entries(ProcessDue(ps, t, throws1).fired) == Entries(ProcessDue(ps, t, throws2).fired)
    ensures ProcessDue(ps, t, throws1).rest == ProcessDue(ps, t, throws2).rest
  {
    if ps != [] && ps[0].time <= t {
      ThrowingDoesNotStopTheDrain(ps[1..], t, throws1, throws2);
    }
  }

  /** A callback scheduled for `time` runs on the first advance that reaches it. */
  lemma {:induction false} ScheduledCallbackFires(c: Clock, time: int, callback: nat, t: int, throws: set<nat>)
    requires Valid(c) && t >= c.now && t >= time
    ensures var r := AdvanceTo(Schedule(c, time, callback), t, throws);
      r.Advanced? && Scheduled(time, callback) in Entries(r.fired)
  {
    var s := Schedule(c, time, callback);
    AdvanceFiresExactlyTheDue(s, t, throws);
    var r := AdvanceTo(s, t, throws);
    assert Scheduled(time, callback) in multiset(s.pending);
    assert Scheduled(time, callback) in Entries(r.fired) + r.clock.pending;
  }

  /** Advancing again to the same time runs nothing. */
  lemma {:induction false} SecondAdvanceIsQuiet(c: Clock, t: int, throws: set<nat>, throws2: set<nat>)
    requires Valid(c) && t >= c.now
    ensures var r := AdvanceTo(c, t, throws);
      r.Advanced? && AdvanceTo(r.clock, t, throws2) == Advanced(r.clock, [])
  {
    AdvanceFiresExactlyTheDue(c, t, throws);
  }
}
