/**
 * The moving-average crossover algorithm (`calculate_moving_average` and
 * `SimpleMovingAverage::generate_signals`, src/algo/simple_moving_average.cpp)
 * over the bars of `DataPoint` (include/data_loader.h). Prices are `real`;
 * floating-point rounding is not modelled.
 */
module MovingAverage {
  /** One bar; only the close takes part in the algorithm. */
  datatype DataPoint = DataPoint(timestamp: string, open: real, high: real, low: real, close: real)

  /** The C++ `int` the windows are declared with. */
  type Int32 = x: int | -0x8000_0000 <= x < 0x8000_0000

  function Closes(data: seq<DataPoint>): (c: seq<real>)
    ensures |c| == |data| && forall i :: 0 <= i < |data| ==> c[i] == data[i].close
  {
    seq(|data|, i requires 0 <= i < |data| => data[i].close)
  }

  function Sum(s: seq<real>): real {
    if s == [] then 0.0 else Sum(s[..|s| - 1]) + s[|s| - 1]
  }

  function Mean(s: seq<real>): real
    requires s != []
  {
    Sum(s) / |s| as real
  }

  lemma {:induction false} SumFront(s: seq<real>)
    requires s != []
    ensures Sum(s) == s[0] + Sum(s[1..])
    decreases |s|
  {
    if |s| > 1 {
      SumFront(s[..|s| - 1]);
      assert s[..|s| - 1][1..] == s[1..][..|s| - 2];
    }
  }

  /** Extending a slice by one element on the right adds that element. */
  lemma SumSnoc(c: seq<real>, a: nat, b: nat)
    requires a <= b < |c|
    ensures Sum(c[a..b + 1]) == Sum(c[a..b]) + c[b]
  {
    assert c[a..b + 1][..b - a] == c[a..b];
  }

  /** Dropping the leftmost element of a slice subtracts it. */
  lemma SumDrop(c: seq<real>, a: nat, b: nat)
    requires a < b <= |c|
    ensures Sum(c[a + 1..b]) == Sum(c[a..b]) - c[a]
  {
    SumFront(c[a..b]);
    assert c[a..b][1..] == c[a + 1..b];
  }

  /**
   * The index from which the window is full. The loop compares an unsigned
   * index with the signed window, so a negative window is converted to
   * `window + 2^64`.
   */
  function Threshold(window: Int32): (t: int)
    requires window != 0
    ensures t > 0
    ensures window > 0 ==> t == window
  {
    if window > 0 then window else window + 0x1_0000_0000_0000_0000
  }

  /** The first index of the closes summed at position `i`. */
  function Lo(i: nat, t: int): nat {
    if i >= t then i - t else 0
  }

  /**
   * The value at `i`, from the closes directly: the sum of the last
   * `Threshold(window)` closes divided by the window once the window is
   * full; before that the mean of the closes so far; the first close at 0.
   */
  function AverageAt(c: seq<real>, window: Int32, i: nat): real
    requires window != 0 && i < |c|
  {
    var t := Threshold(window);
    if i >= t then Sum(c[i + 1 - t..i + 1]) / window as real
    else if i >= 1 then Sum(c[..i + 1]) / (i + 1) as real
    else c[0]
  }

  function Averages(c: seq<real>, window: Int32): (r: seq<real>)
    requires window != 0
    ensures |r| == |c| && forall i :: 0 <= i < |c| ==> r[i] == AverageAt(c, window, i)
  {
    seq(|c|, i requires 0 <= i < |c| => AverageAt(c, window, i))
  }

  /**
   * `calculate_moving_average`: one pass keeping a running sum that gains the
   * new close and, once the window is full, loses the close leaving it.
   */
  method CalculateMovingAverage(data: seq<DataPoint>, window: Int32) returns (ma: seq<real>)
    requires window != 0
    ensures |ma| == |data|
    ensures forall i :: 0 <= i < |data| ==> ma[i] == AverageAt(Closes(data), window, i)
  {
    var c := Closes(data);
    var t := Threshold(window);
    ma := [];
    var sum := 0.0;
    var i := 0;
    while i < |data|
      invariant 0 <= i <= |data| && |ma| == i
      invariant forall k :: 0 <= k < i ==> ma[k] == AverageAt(c, window, k)
      invariant sum == Sum(c[Lo(i, t)..i])
    {
      var s1 := if i >= t then sum + c[i] - c[i - t] else sum + c[i];
      var v := if i >= t then s1 / window as real else if i >= 1 then s1 / (i + 1) as real else c[i];
      assert s1 == Sum(c[Lo(i + 1, t)..i + 1]) && v == AverageAt(c, window, i) by {
        RunningSumStep(c, window, i, sum);
      }
      sum := s1;
      ma := ma + [v];
      i := i + 1;
    }
  }

  /** One step of the running sum: it moves to the next window, and the value computed from it is the average. */
  lemma RunningSumStep(c: seq<real>, window: Int32, i: nat, sum: real)
    requires window != 0 && i < |c|
    requires sum == Sum(c[Lo(i, Threshold(window))..i])
    ensures var t := Threshold(window);
      var s1 := if i >= t then sum + c[i] - c[i - t] else sum + c[i];
      s1 == Sum(c[Lo(i + 1, t)..i + 1])
      && (if i >= t then s1 / window as real else if i >= 1 then s1 / (i + 1) as real else c[i]) == AverageAt(c, window, i)
  {
    var t := Threshold(window);
    SumSnoc(c, Lo(i, t), i);
    if i >= t {
      SumDrop(c, i - t, i + 1);
    } else {
      assert c[0..i + 1] == c[..i + 1];
    }
  }

  /**
   * For a positive window, every value is the mean of the last
   * `min(i + 1, window)` closes: the first close at 0, the mean of the closes
   * so far while the window fills, the window's mean after.
   */
  lemma TrailingMean(c: seq<real>, window: Int32, i: nat)
    requires window > 0 && i < |c|
    ensures var n := if i + 1 < window then i + 1 else window;
      AverageAt(c, window, i) == Mean(c[i + 1 - n..i + 1])
  {
    if i + 1 > window {
      FullWindowMean(c, window, i);
    } else if i >= 1 {
      FillingWindowMean(c, window, i);
    } else {
      FirstMean(c, window);
    }
  }

  /** Once the window is full, the value is the mean of the last `window` closes. */
  lemma FullWindowMean(c: seq<real>, window: Int32, i: nat)
    requires 0 < window && window < i + 1 && i < |c|
    ensures AverageAt(c, window, i) == Mean(c[i + 1 - window..i + 1])
  {
    assert Threshold(window) == window;
    assert |c[i + 1 - window..i + 1]| == window as int;
  }

  /** While the window fills, the value is the mean of the closes so far. */
  lemma FillingWindowMean(c: seq<real>, window: Int32, i: nat)
    requires 0 < window && 1 <= i && i + 1 <= window && i < |c|
    ensures AverageAt(c, window, i) == Mean(c[0..i + 1])
  {
    assert Threshold(window) == window;
    assert c[0..i + 1] == c[..i + 1];
  }

  /** The first value is the first close. */
  lemma FirstMean(c: seq<real>, window: Int32)
    requires 0 < window && 0 < |c|
    ensures AverageAt(c, window, 0) == Mean(c[0..1])
  {
    var s := c[0..1];
    assert s[..0] == [];
    assert Sum(s) == c[0];
  }

  lemma {:induction false} SumBounds(s: seq<real>, lo: real, hi: real)
    requires forall k :: 0 <= k < |s| ==> lo <= s[k] <= hi
    ensures |s| as real * lo <= Sum(s) <= |s| as real * hi
    decreases |s|
  {
    if s != [] {
      SumBounds(s[..|s| - 1], lo, hi);
    }
  }

  lemma MeanBounds(s: seq<real>, lo: real, hi: real)
    requires s != [] && forall k :: 0 <= k < |s| ==> lo <= s[k] <= hi
    ensures lo <= Mean(s) <= hi
  {
    SumBounds(s, lo, hi);
    var n := |s| as real;
    assert Sum(s) / n <= hi by {
      assert Sum(s) <= n * hi;
    }
    assert lo <= Sum(s) / n by {
      assert n * lo <= Sum(s);
    }
  }

  /** With a positive window, every average lies between the lowest and the highest close. */
  lemma AverageWithinCloses(c: seq<real>, window: Int32, i: nat, lo: real, hi: real)
    requires window > 0 && i < |c|
    requires forall k :: 0 <= k < |c| ==> lo <= c[k] <= hi
    ensures lo <= AverageAt(c, window, i) <= hi
  {
    TrailingMean(c, window, i);
    var n := if i + 1 < window then i + 1 else window;
    var s := c[i + 1 - n..i + 1];
    assert forall k :: 0 <= k < |s| ==> s[k] == c[i + 1 - n + k];
    MeanBounds(s, lo, hi);
  }

  /** The short average crosses above the long one at `i`. */
  predicate CrossesAbove(s: seq<real>, l: seq<real>, i: nat)
    requires |s| == |l| && i < |s|
  {
    i >= 1 && s[i] > l[i] && s[i - 1] <= l[i - 1]
  }

  /** The short average crosses below the long one at `i`. */
  predicate CrossesBelow(s: seq<real>, l: seq<real>, i: nat)
    requires |s| == |l| && i < |s|
  {
    i >= 1 && s[i] < l[i] && s[i - 1] >= l[i - 1]
  }

  /** The signal loop of `generate_signals`, over the two average series. */
  method CrossSignals(s: seq<real>, l: seq<real>) returns (signals: seq<int>)
    requires |s| == |l|
    ensures |signals| == |s|
    ensures |s| > 0 ==> signals[0] == 0
    ensures forall i :: 0 <= i < |s| ==> signals[i] in {-1, 0, 1}
    ensures forall i :: 0 <= i < |s| ==>
      (signals[i] == 1 <==> CrossesAbove(s, l, i)) && (signals[i] == -1 <==> CrossesBelow(s, l, i))
  {
    if |s| == 0 {
      return [];
    }
    signals := [0];
    var i := 1;
    while i < |s|
      invariant 1 <= i <= |s| && |signals| == i
      invariant signals[0] == 0
      invariant forall k :: 0 <= k < i ==> signals[k] in {-1, 0, 1}
      invariant forall k :: 0 <= k < i ==>
        (signals[k] == 1 <==> CrossesAbove(s, l, k)) && (signals[k] == -1 <==> CrossesBelow(s, l, k))
    {
      var v := 0;
      if s[i] > l[i] && s[i - 1] <= l[i - 1] {
        v := 1;
      } else if s[i] < l[i] && s[i - 1] >= l[i - 1] {
        v := -1;
      }
      signals := signals + [v];
      i := i + 1;
    }
  }

  /**
   * `generate_signals`: 1 where the short average crosses above the long
   * one, -1 where it crosses below, 0 elsewhere and at the first bar.
   */
  method GenerateSignals(data: seq<DataPoint>, shortWindow: Int32, longWindow: Int32) returns (signals: seq<int>)
    requires shortWindow != 0 && longWindow != 0
    ensures |signals| == |data|
    ensures |data| > 0 ==> signals[0] == 0
    ensures forall i :: 0 <= i < |data| ==> signals[i] in {-1, 0, 1}
    ensures var s, l := Averages(Closes(data), shortWindow), Averages(Closes(data), longWindow);
      forall i :: 0 <= i < |data| ==>
        (signals[i] == 1 <==> CrossesAbove(s, l, i)) && (signals[i] == -1 <==> CrossesBelow(s, l, i))
  {
    var shortMa := CalculateMovingAverage(data, shortWindow);
    var longMa := CalculateMovingAverage(data, longWindow);
    assert shortMa == Averages(Closes(data), shortWindow);
    assert longMa == Averages(Closes(data), longWindow);
    signals := CrossSignals(shortMa, longMa);
  }

  /** Two buy signals, or two sell signals, are never on consecutive bars. */
  lemma NoRepeatOnNextBar(s: seq<real>, l: seq<real>, i: nat)
    requires |s| == |l| && i + 1 < |s|
    ensures !(CrossesAbove(s, l, i) && CrossesAbove(s, l, i + 1))
    ensures !(CrossesBelow(s, l, i) && CrossesBelow(s, l, i + 1))
  {
  }

  /**
   * Two buy signals can follow each other with no sell signal between them:
   * the short average may touch the long one without going below it.
   */
  lemma BuyCanRepeatWithoutSell()
    ensures var s, l := [0.0, 2.0, 1.0, 2.0], [1.0, 1.0, 1.0, 1.0];
      CrossesAbove(s, l, 1) && !CrossesBelow(s, l, 2) && CrossesAbove(s, l, 3)
  {
  }
}
