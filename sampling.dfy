/** The numpy building blocks the waveform generators are made of, with
    sample values as exact reals: the sample count `int(d / interval)`,
    `np.arange(n) * interval`, `np.full`, `np.linspace` and `np.repeat`. */
module Sampling {
  import opened Common

  /** `POINT_INTERVAL` of `src/pyBEEP/constants.py`: the hardware sample period (s). */
  const POINT_INTERVAL: real := 0.00036

  function Abs(x: real): (y: real)
    ensures y >= 0.0 && (y == x || y == -x)
  {
    if x < 0.0 then -x else x
  }

  type PositiveReal = r: real | r > 0.0 witness 1.0

  /** The numpy failures a generator can hit. */
  datatype WaveError =
    | NegativeDimension     // np.full / np.repeat / np.linspace asked for a negative count
    | EmptyConcatenation    // np.concatenate / np.vstack of an empty list
    | ZeroDivision          // a float divided by a zero scan rate

  /** `int(duration / interval)`: the number of samples of a duration. */
  function CountWith(duration: real, interval: PositiveReal): (n: int)
    ensures duration >= 0.0 ==> n >= 0
    ensures n >= 0 <==> duration / interval > -1.0
  {
    Trunc(duration / interval)
  }

  /** The sample count at the current driver's `POINT_INTERVAL`. */
  function Count(duration: real): int
  {
    CountWith(duration, POINT_INTERVAL)
  }

  lemma CountZero(interval: PositiveReal)
    ensures CountWith(0.0, interval) == 0
  {
  }

  /** `np.arange(n) * interval`. */
  function TimeAxis(n: nat, interval: real): (t: seq<real>)
    ensures |t| == n && IsTimeAxis(t, interval)
  {
    seq(n, i => i as real * interval)
  }

  /** An evenly spaced time vector: `time[i] = i * interval`. */
  predicate IsTimeAxis(t: seq<real>, interval: real)
  {
    forall i | 0 <= i < |t| :: t[i] == i as real * interval
  }

  /** The time axis starts at zero, is evenly spaced by the interval and
      strictly increasing. */
  lemma TimeAxisProperties(n: nat, interval: PositiveReal)
    ensures n > 0 ==> TimeAxis(n, interval)[0] == 0.0
    ensures forall i | 0 <= i < n - 1 :: TimeAxis(n, interval)[i + 1] - TimeAxis(n, interval)[i] == interval
    ensures forall i, j | 0 <= i < j < n :: TimeAxis(n, interval)[i] < TimeAxis(n, interval)[j]
  {
    var t := TimeAxis(n, interval);
    forall i, j | 0 <= i < j < n ensures t[i] < t[j] {
      assert t[j] - t[i] == (j - i) as real * interval;
    }
  }

  /** `np.full(n, x)`: fails on a negative count. */
  function Full<T>(n: int, x: T): (r: Result<seq<T>, WaveError>)
    ensures r.Ok? <==> n >= 0
    ensures r.Ok? ==> r.value == Fill(n, x)
  {
    if n < 0 then Err(NegativeDimension) else Ok(Fill(n, x))
  }

  /** Point `i` of `np.linspace(start, stop, num)` for `num >= 2`: numpy
      adds `i` steps of `(stop - start) / (num - 1)` to `start` and then sets
      the last point to `stop` exactly. */
  function LinspacePoint(start: real, stop: real, num: int, i: int): real
    requires num >= 2
  {
    if i == num - 1 then stop else start + i as real * ((stop - start) / (num - 1) as real)
  }

  /** `np.linspace(start, stop, num)`: `num` evenly spaced values whose last
      one is `stop`; a single value is `start`; a negative count fails. */
  function Linspace(start: real, stop: real, num: int): (r: Result<seq<real>, WaveError>)
    ensures r.Ok? <==> num >= 0
    ensures r.Err? ==> r.error == NegativeDimension
    ensures r.Ok? ==> |r.value| == num
    ensures r.Ok? && num >= 1 ==> r.value[0] == start
    ensures r.Ok? && num >= 2 ==> r.value[num - 1] == stop
  {
    if num < 0 then Err(NegativeDimension)
    else if num < 2 then Ok(seq(num, i => start))
    else Ok(seq(num, i => LinspacePoint(start, stop, num, i)))
  }

  /** Linspace points lie in order between `start` and `stop` when `start <= stop`. */
  lemma LinspacePointsOrdered(start: real, stop: real, num: int, i: int, j: int)
    requires num >= 2 && 0 <= i <= j < num && start <= stop
    ensures start <= LinspacePoint(start, stop, num, i) <= LinspacePoint(start, stop, num, j) <= stop
  {
    var x, y, last := i as real, j as real, (num - 1) as real;
    var step := (stop - start) / last;
    QuotientTimes(stop - start, last);
    ScaledOrder(x, y, last, step);
    OrderedOffsets(start, stop, x * step, y * step, i == num - 1, j == num - 1,
                   LinspacePoint(start, stop, num, i), LinspacePoint(start, stop, num, j));
  }

  lemma OrderedOffsets(start: real, stop: real, a: real, b: real, iLast: bool, jLast: bool, vi: real, vj: real)
    requires 0.0 <= a <= b <= stop - start && (iLast ==> jLast)
    requires vi == (if iLast then stop else start + a) && vj == (if jLast then stop else start + b)
    ensures start <= vi <= vj <= stop
  {
  }

  lemma ScaledOrder(x: real, y: real, z: real, step: real)
    requires 0.0 <= x <= y <= z && step >= 0.0
    ensures 0.0 <= x * step <= y * step <= z * step
  {
    NonNegProduct(x, step);
    NonNegProduct(y - x, step);
    NonNegProduct(z - y, step);
    assert y * step - x * step == (y - x) * step;
    assert z * step - y * step == (z - y) * step;
  }

  lemma NonNegProduct(u: real, v: real)
    requires u >= 0.0 && v >= 0.0
    ensures u * v >= 0.0
  {
  }

  lemma QuotientTimes(a: real, b: real)
    requires a >= 0.0 && b > 0.0
    ensures a / b >= 0.0 && b * (a / b) == a && (a / b) * b == a
  {
  }

  /** A numpy linspace stays between `start` and `stop`, in order, when
      `start <= stop`. */
  lemma LinspaceOrdered(start: real, stop: real, num: int)
    requires num >= 0 && start <= stop
    ensures forall i | 0 <= i < num :: start <= Linspace(start, stop, num).value[i] <= stop
    ensures forall i, j | 0 <= i <= j < num :: Linspace(start, stop, num).value[i] <= Linspace(start, stop, num).value[j]
  {
    if num >= 2 {
      forall i, j | 0 <= i <= j < num
        ensures start <= LinspacePoint(start, stop, num, i) <= LinspacePoint(start, stop, num, j) <= stop
      {
        LinspacePointsOrdered(start, stop, num, i, j);
      }
    }
  }

  /** `np.repeat(xs, k)` for a non-negative `k`: every element `k` times. */
  function Repeat<T>(xs: seq<T>, k: nat): (r: seq<T>)
    ensures |r| == |xs| * k
  {
    if xs == [] then [] else Fill(k, xs[0]) + Repeat(xs[1..], k)
  }

  /** `np.repeat(xs, k)`, which fails when `k` is negative. */
  function RepeatOrFail<T>(xs: seq<T>, k: int): (r: Result<seq<T>, WaveError>)
    ensures r.Ok? <==> k >= 0
    ensures r.Err? ==> r.error == NegativeDimension
    ensures r.Ok? ==> r.value == Repeat(xs, k)
  {
    if k < 0 then Err(NegativeDimension) else Ok(Repeat(xs, k))
  }

  /** Copy `r` of element `i` sits at position `i * k + r` of a repeated sequence. */
  lemma {:induction false} RepeatAt<T>(xs: seq<T>, k: nat, i: int, r: int)
    requires 0 <= i < |xs| && 0 <= r < k
    ensures i * k + r < |Repeat(xs, k)| && Repeat(xs, k)[i * k + r] == xs[i]
    decreases |xs|
  {
    if i > 0 {
      RepeatAt(xs[1..], k, i - 1, r);
      assert i * k + r == k + ((i - 1) * k + r);
    }
  }

  /** Concatenation of `lengths[i]` copies of `values[i]`: how a per-segment
      description expands into the per-sample stimulus. */
  function Expand<T>(values: seq<T>, lengths: seq<nat>): (r: seq<T>)
    requires |values| == |lengths|
    ensures |r| == Sum(lengths)
  {
    if values == [] then [] else Fill(lengths[0], values[0]) + Expand(values[1..], lengths[1..])
  }

  lemma {:induction false} ExpandAppend<T>(v1: seq<T>, l1: seq<nat>, v2: seq<T>, l2: seq<nat>)
    requires |v1| == |l1| && |v2| == |l2|
    ensures Expand(v1 + v2, l1 + l2) == Expand(v1, l1) + Expand(v2, l2)
    decreases |v1|
  {
    if v1 == [] {
      assert v1 + v2 == v2 && l1 + l2 == l2;
    } else {
      assert (v1 + v2)[1..] == v1[1..] + v2 && (l1 + l2)[1..] == l1[1..] + l2;
      ExpandAppend(v1[1..], l1[1..], v2, l2);
    }
  }

  /** Repeating every element `k` times is expanding with uniform lengths `k`. */
  lemma {:induction false} RepeatIsExpand<T>(xs: seq<T>, k: nat)
    ensures Repeat(xs, k) == Expand(xs, Fill(|xs|, k))
    decreases |xs|
  {
    if xs != [] {
      assert Fill(|xs|, k)[1..] == Fill(|xs| - 1, k);
      RepeatIsExpand(xs[1..], k);
    }
  }

  /** `c` back-to-back copies of a segment (none when `c <= 0`). */
  function Copies<T>(x: seq<T>, c: int): seq<T>
    decreases c
  {
    if c <= 0 then [] else Copies(x, c - 1) + x
  }

  lemma {:induction false} CopiesLength<T>(x: seq<T>, c: int)
    ensures |Copies(x, c)| == if c <= 0 then 0 else c * |x|
    decreases c
  {
    if c > 0 {
      CopiesLength(x, c - 1);
    }
  }

  lemma CopiesStep<T>(head: seq<T>, x: seq<T>, c: int)
    requires c >= 0
    ensures (head + Copies(x, c)) + x == head + Copies(x, c + 1)
  {
  }

  /** Per-sample labels of consecutive blocks numbered `first..last`, each
      `len` samples long (none when `last < first`). */
  function LabelBlocks(first: int, last: int, len: nat): seq<int>
    decreases last - first
  {
    if last < first then [] else LabelBlocks(first, last - 1, len) + Fill(len, last)
  }

  /** The blocks' labels cover exactly one copy of a block per label. */
  lemma {:induction false} LabelBlocksLength<T>(x: seq<T>, first: int, last: int)
    ensures |LabelBlocks(first, last, |x|)| == |Copies(x, last - first + 1)|
    decreases last - first
  {
    if last >= first {
      LabelBlocksLength(x, first, last - 1);
    }
  }

  lemma LabelBlocksStep(head: seq<int>, first: int, last: int, len: nat)
    requires last >= first - 1
    ensures (head + LabelBlocks(first, last, len)) + Fill(len, last + 1) == head + LabelBlocks(first, last + 1, len)
  {
  }

  lemma {:induction false} LabelBlocksBounds(first: int, last: int, len: nat)
    ensures forall i | 0 <= i < |LabelBlocks(first, last, len)| :: first <= LabelBlocks(first, last, len)[i] <= last
    ensures NonDecreasing(LabelBlocks(first, last, len))
    decreases last - first
  {
    if last >= first {
      LabelBlocksBounds(first, last - 1, len);
      FillBounds(len, last);
      if last - 1 >= first {
        ConcatOrdered(LabelBlocks(first, last - 1, len), Fill(len, last), first, last - 1, last);
      } else {
        ConcatOrdered(LabelBlocks(first, last - 1, len), Fill(len, last), first, first, last);
      }
    }
  }

  /** Repeating the elements of a concatenation repeats each part. */
  lemma {:induction false} RepeatAppend<T>(xs: seq<T>, ys: seq<T>, k: nat)
    ensures Repeat(xs + ys, k) == Repeat(xs, k) + Repeat(ys, k)
  {
    if xs == [] {
      assert xs + ys == ys;
    } else {
      assert (xs + ys)[1..] == xs[1..] + ys;
      RepeatAppend(xs[1..], ys, k);
    }
  }

  /** Repeating `c` copies of a segment is `c` copies of the repeated segment. */
  lemma {:induction false} RepeatCopies<T>(x: seq<T>, c: int, k: nat)
    ensures Repeat(Copies(x, c), k) == Copies(Repeat(x, k), c)
    decreases c
  {
    if c > 0 {
      RepeatCopies(x, c - 1, k);
      RepeatAppend(Copies(x, c - 1), x, k);
    }
  }

  lemma MulAssociates(a: int, b: int, c: int)
    ensures a * (b * c) == a * b * c
  {
  }

  lemma MulNonNegative(a: nat, b: nat)
    ensures a * b >= 0
  {
  }

  /** Element `i` of copy `m` sits at position `m * |x| + i`. */
  lemma {:induction false} CopiesAt<T>(x: seq<T>, c: int, m: int, i: int)
    requires 0 <= m < c && 0 <= i < |x|
    ensures 0 <= m * |x| + i < |Copies(x, c)| && Copies(x, c)[m * |x| + i] == x[i]
    decreases c
  {
    CopiesLength(x, c - 1);
    MulNonNegative(m, |x|);
    if m < c - 1 {
      CopiesAt(x, c - 1, m, i);
    } else {
      assert m * |x| == |Copies(x, c - 1)|;
    }
  }

  /** Copying a segment introduces no new values. */
  lemma {:induction false} CopiesElements<T>(x: seq<T>, c: int)
    ensures forall i | 0 <= i < |Copies(x, c)| :: Copies(x, c)[i] in x
    decreases c
  {
    if c > 0 {
      CopiesElements(x, c - 1);
      var r := Copies(x, c);
      forall i | 0 <= i < |r| ensures r[i] in x {
        if i >= |Copies(x, c - 1)| {
          assert r[i] == x[i - |Copies(x, c - 1)|];
        } else {
          assert r[i] == Copies(x, c - 1)[i];
        }
      }
    }
  }

  /** Repetition introduces no new values. */
  lemma {:induction false} RepeatElements<T>(xs: seq<T>, k: nat)
    ensures forall i | 0 <= i < |Repeat(xs, k)| :: Repeat(xs, k)[i] in xs
    decreases |xs|
  {
    if xs != [] {
      RepeatElements(xs[1..], k);
      var r := Repeat(xs, k);
      forall i | 0 <= i < |r| ensures r[i] in xs {
        if i >= k {
          assert r[i] == Repeat(xs[1..], k)[i - k];
          assert r[i] in xs[1..];
        }
      }
    }
  }
}
