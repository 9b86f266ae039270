/** Timespec arithmetic and the profile statistics of src/utils.c.

Times are integers without overflow, mean and variance are reals without rounding.
*/
module Profile {

  const NSEC_PER_SEC: int := 1_000_000_000

  /** struct timespec. */
  datatype Timespec = Timespec(sec: int, nsec: int)

  predicate Normal(t: Timespec) {
    0 <= t.nsec < NSEC_PER_SEC
  }

  function Nanos(t: Timespec): int {
    t.sec * NSEC_PER_SEC + t.nsec
  }

  /** time_sub. */
  function TimeSub(x: Timespec, y: Timespec): Timespec {
    var res := Timespec(x.sec - y.sec, x.nsec - y.nsec);
    if x.nsec < y.nsec then Timespec(res.sec - 1, res.nsec + NSEC_PER_SEC) else res
  }

  /** What time_add leaves in its first argument. */
  function TimeSum(x: Timespec, y: Timespec): Timespec {
    var res := Timespec(x.sec + y.sec, x.nsec + y.nsec);
    if res.nsec >= NSEC_PER_SEC then Timespec(res.sec + 1, res.nsec - NSEC_PER_SEC) else res
  }

  /** Difference and sum of normalised times are exact and normalised, and undo each other. */
  lemma TimesAreExact(x: Timespec, y: Timespec)
    requires Normal(x) && Normal(y)
    ensures Normal(TimeSub(x, y)) && Nanos(TimeSub(x, y)) == Nanos(x) - Nanos(y)
    ensures Normal(TimeSum(x, y)) && Nanos(TimeSum(x, y)) == Nanos(x) + Nanos(y)
    ensures Nanos(x) == x.sec * 1_000_000_000 + x.nsec
    ensures TimeSum(TimeSub(x, y), y) == x && TimeSub(TimeSum(x, y), y) == x
  {
  }

  /** timespec_to_double_ns. */
  function ToDoubleNs(t: Timespec): (ns: real)
    ensures ns == Nanos(t) as real
  {
    t.sec as real * 1000000000.0 + t.nsec as real
  }

  // ----- Specification of the statistics -----

  /** The time between two samples. */
  function Delta(data: seq<Timespec>, i: nat): real
    requires i + 1 < |data|
  {
    (Nanos(data[i + 1]) - Nanos(data[i])) as real
  }

  function Deltas(data: seq<Timespec>, n: nat): (ds: seq<real>)
    requires n < |data|
    ensures |ds| == n
  {
    if n == 0 then [] else Deltas(data, n - 1) + [Delta(data, n - 1)]
  }

  function Sum(ds: seq<real>): real {
    if ds == [] then 0.0 else Sum(ds[..|ds| - 1]) + ds[|ds| - 1]
  }

  function Square(x: real): real {
    x * x
  }

  /** The squares of the distances from m, added up. */
  function Distances(ds: seq<real>, m: real): real {
    if ds == [] then 0.0 else Distances(ds[..|ds| - 1], m) + Square(ds[|ds| - 1] - m)
  }

  function Squares(ds: seq<real>): real {
    if ds == [] then 0.0 else Squares(ds[..|ds| - 1]) + Square(ds[|ds| - 1])
  }

  /** The squared distances of the first n deltas from m, added up. */
  function SquaredDistances(data: seq<Timespec>, n: nat, m: real): real
    requires n < |data|
  {
    Distances(Deltas(data, n), m)
  }

  lemma DeltasAppend(data: seq<Timespec>, n: nat, m: real)
    requires n + 1 < |data|
    ensures SquaredDistances(data, n + 1, m) == SquaredDistances(data, n, m) + Square(Delta(data, n) - m)
  {
    assert Deltas(data, n + 1)[..n] == Deltas(data, n);
  }

  /** The deltas telescope. */
  lemma {:induction false} DeltasTelescope(data: seq<Timespec>, n: nat)
    requires n < |data|
    ensures Sum(Deltas(data, n)) == (Nanos(data[n]) - Nanos(data[0])) as real
  {
    if n > 0 {
      DeltasTelescope(data, n - 1);
      assert Deltas(data, n)[..n - 1] == Deltas(data, n - 1);
    }
  }

  lemma ProductIsPositive(x: real, y: real, q: real)
    requires x > 0.0 && y > 0.0 && q == x * y
    ensures q > 0.0
  {
  }

  lemma SquareIsPositive(x: real, q: real)
    requires x != 0.0 && q == x * x
    ensures q > 0.0
  {
    if x > 0.0 { ProductIsPositive(x, x, q); } else { ProductIsPositive(0.0 - x, 0.0 - x, q); }
  }

  lemma SquareIsZeroIff(x: real)
    ensures Square(x) >= 0.0 && (Square(x) == 0.0 <==> x == 0.0)
  {
    if x != 0.0 { SquareIsPositive(x, Square(x)); }
  }

  /** The squared distances of the first n deltas from m add up to 0 exactly if each of them is m, and to
      more otherwise. */
  lemma {:induction false} DistancesAreZeroIff(data: seq<Timespec>, n: nat, m: real)
    requires n < |data|
    ensures SquaredDistances(data, n, m) >= 0.0
    ensures SquaredDistances(data, n, m) == 0.0 <==> forall i | 0 <= i < n :: Delta(data, i) == m
  {
    if n > 0 {
      DistancesAreZeroIff(data, n - 1, m);
      DeltasAppend(data, n - 1, m);
      SquareIsZeroIff(Delta(data, n - 1) - m);
    }
  }

  /** The products of m with the elements, added up. */
  function Products(ds: seq<real>, m: real): real {
    if ds == [] then 0.0 else Products(ds[..|ds| - 1], m) + m * ds[|ds| - 1]
  }

  lemma {:induction false} ProductsIs(ds: seq<real>, m: real)
    ensures Products(ds, m) == m * Sum(ds)
  {
    if ds != [] {
      ProductsIs(ds[..|ds| - 1], m);
      Distributes(m, Sum(ds[..|ds| - 1]), ds[|ds| - 1]);
    }
  }

  lemma Distributes(m: real, x: real, y: real)
    ensures m * (x + y) == m * x + m * y
  {
  }

  function Copies(n: nat, x: real): real {
    if n == 0 then 0.0 else Copies(n - 1, x) + x
  }

  lemma {:induction false} CopiesIs(n: nat, x: real)
    ensures Copies(n, x) == x * n as real
  {
    if n > 0 {
      CopiesIs(n - 1, x);
      Distributes(x, (n - 1) as real, 1.0);
    }
  }

  lemma SquareOfDifference(d: real, m: real)
    ensures Square(d - m) == Square(d) - 2.0 * (m * d) + Square(m)
  {
  }

  /** Expanding the squares of the distances. */
  lemma {:induction false} DistancesExpand(ds: seq<real>, m: real)
    ensures Distances(ds, m) == Squares(ds) - 2.0 * Products(ds, m) + Copies(|ds|, Square(m))
  {
    if ds != [] {
      DistancesExpand(ds[..|ds| - 1], m);
      SquareOfDifference(ds[|ds| - 1], m);
    }
  }

  lemma {:induction false} DistancesNotNegative(ds: seq<real>, m: real)
    ensures Distances(ds, m) >= 0.0
  {
    if ds != [] {
      DistancesNotNegative(ds[..|ds| - 1], m);
      SquareIsZeroIff(ds[|ds| - 1] - m);
    }
  }

  lemma {:induction false} TimesCopies(m: real, n: nat)
    ensures m * Copies(n, m) == Copies(n, Square(m))
  {
    if n > 0 {
      TimesCopies(m, n - 1);
      Distributes(m, Copies(n - 1, m), m);
    }
  }

  lemma ProductsAtTheMean(ds: seq<real>, mean: real)
    requires Copies(|ds| + 1, mean) == Sum(ds)
    ensures Products(ds, mean) == Copies(|ds| + 1, Square(mean))
  {
    ProductsIs(ds, mean);
    TimesCopies(mean, |ds| + 1);
  }

  lemma TwoMoreCopies(n: nat, x: real)
    ensures Copies(n + 2, x) == 2.0 * Copies(n + 1, x) - Copies(n, x)
  {
  }

  lemma IdentityOf(ds: seq<real>, mean: real)
    requires Copies(|ds| + 1, mean) == Sum(ds)
    ensures Distances(ds, mean) == Squares(ds) - Copies(|ds| + 2, Square(mean))
  {
    DistancesExpand(ds, mean);
    ProductsAtTheMean(ds, mean);
    TwoMoreCopies(|ds|, Square(mean));
  }

  lemma MeanCopies(data: seq<Timespec>, r: nat, mean: real)
    requires 1 <= r <= |data| && mean * r as real == (Nanos(data[r - 1]) - Nanos(data[0])) as real
    ensures Copies(r, mean) == Sum(Deltas(data, r - 1))
  {
    DeltasTelescope(data, r - 1);
    CopiesIs(r, mean);
  }

  lemma IdentityInCopies(data: seq<Timespec>, r: nat, mean: real)
    requires 1 <= r <= |data| && mean * r as real == (Nanos(data[r - 1]) - Nanos(data[0])) as real
    ensures SquaredDistances(data, r - 1, mean) == Squares(Deltas(data, r - 1)) - Copies(r + 1, Square(mean))
  {
    MeanCopies(data, r, mean);
    IdentityOf(Deltas(data, r - 1), mean);
  }

  lemma CopiesOfSquare(n: nat, x: real)
    ensures Copies(n, Square(x)) == (x * x) * n as real
  {
    CopiesIs(n, x * x);
  }

  /** With the mean over r samples taken as total / r, the sum of squared distances of the r - 1 deltas is
      the sum of their squares less r + 1 times the squared mean; it is never negative. */
  lemma VarianceIdentity(data: seq<Timespec>, r: nat, mean: real)
    requires 1 <= r <= |data| && mean * r as real == (Nanos(data[r - 1]) - Nanos(data[0])) as real
    ensures SquaredDistances(data, r - 1, mean) == Squares(Deltas(data, r - 1)) - (mean * mean) * (r + 1) as real
    ensures SquaredDistances(data, r - 1, mean) >= 0.0
  {
    IdentityInCopies(data, r, mean);
    CopiesOfSquare(r + 1, mean);
    DistancesNotNegative(Deltas(data, r - 1), mean);
  }

  /** The reported mean divides r - 1 deltas by r: it is their average exactly when the clock did not move. */
  lemma MeanIsAverageIff(data: seq<Timespec>, r: nat, mean: real)
    requires 2 <= r <= |data| && mean * r as real == (Nanos(data[r - 1]) - Nanos(data[0])) as real
    ensures mean * (r - 1) as real == (Nanos(data[r - 1]) - Nanos(data[0])) as real
      <==> Nanos(data[r - 1]) == Nanos(data[0])
  {
    assert mean * (r - 1) as real == mean * r as real - mean;
    if mean == 0.0 {
      assert mean * r as real == 0.0;
    }
  }

  // ----- The code itself -----

  /** A struct timespec that is updated in place. */
  class Clock {
    var sec: int
    var nsec: int

    ghost function View(): Timespec
      reads this
    {
      Timespec(sec, nsec)
    }

    constructor ()
      ensures View() == Timespec(0, 0)
    {
      sec, nsec := 0, 0;
    }

    /** time_add. */
    method Add(y: Timespec)
      modifies this
      ensures View() == TimeSum(old(View()), y)
    {
      sec := sec + y.sec;
      nsec := nsec + y.nsec;
      if nsec >= NSEC_PER_SEC {
        sec := sec + 1;
        nsec := nsec - NSEC_PER_SEC;
      }
    }
  }

  /** A double: a real, or the outcome of 0.0 / 0. */
  datatype Double = Real(v: real) | NaN

  /** The fields of struct profile that profile_stats uses; variance is sd before the square root. */
  class Statistics {
    var repeat: int
    var data: array?<Timespec>
    var mean: Double
    var variance: Double

    /** The first loop of profile_stats: the deltas telescope to last minus first. */
    method Total(data: array<Timespec>) returns (total: Timespec)
      requires repeat <= data.Length && forall i | 0 <= i < repeat :: Normal(data[i])
      ensures Normal(total)
      ensures Nanos(total) == if repeat >= 1 then Nanos(data[repeat - 1]) - Nanos(data[0]) else 0
    {
      var sum := new Clock();
      var i := 0;
      while i < repeat - 1
        invariant 0 <= i && (repeat >= 1 ==> i <= repeat - 1) && (repeat < 1 ==> i == 0)
        invariant Normal(sum.View())
        invariant Nanos(sum.View()) == if repeat >= 1 then Nanos(data[i]) - Nanos(data[0]) else 0
      {
        var delta := TimeSub(data[i + 1], data[i]);
        TimesAreExact(data[i + 1], data[i]);
        TimesAreExact(sum.View(), delta);
        sum.Add(delta);
        i := i + 1;
      }
      total := Timespec(sum.sec, sum.nsec);
    }

    /** The second loop of profile_stats. */
    method SumDistances(data: array<Timespec>) returns (sum: real)
      requires repeat <= data.Length && forall i | 0 <= i < repeat :: Normal(data[i])
      requires repeat >= 1 ==> mean.Real?
      ensures sum == if repeat >= 1 then SquaredDistances(data[..], repeat - 1, mean.v) else 0.0
    {
      sum := 0.0;
      var i := 0;
      ghost var samples := data[..];
      while i < repeat - 1
        invariant 0 <= i && (repeat >= 1 ==> i <= repeat - 1) && (repeat < 1 ==> i == 0)
        invariant sum == if repeat >= 1 then SquaredDistances(samples, i, mean.v) else 0.0
      {
        var delta := TimeSub(data[i + 1], data[i]);
        TimesAreExact(data[i + 1], data[i]);
        var nsec := ToDoubleNs(delta);
        var diff := nsec - mean.v;
        sum := sum + diff * diff;
        DeltasAppend(samples, i, mean.v);
        i := i + 1;
      }
    }

    /** profile_stats. A repeat of 0 divides 0.0 by 0. */
    method Compute()
      requires data != null ==> repeat <= data.Length
      requires data != null ==> forall i | 0 <= i < repeat :: Normal(data[i])
      modifies this`mean, this`variance
      ensures data == null ==> mean == old(mean) && variance == old(variance)
      ensures data != null && repeat < 0 ==> mean == Real(0.0) && variance == Real(0.0)
      ensures data != null && repeat == 0 ==> mean == NaN && variance == NaN
      ensures data != null && repeat >= 1 ==>
        && mean.Real? && mean.v * repeat as real == (Nanos(data[repeat - 1]) - Nanos(data[0])) as real
        && variance.Real? && variance.v * repeat as real == SquaredDistances(data[..], repeat - 1, mean.v)
        && variance.v >= 0.0
    {
      if data == null {
        return;
      }
      var total := Total(data);
      mean := Divide(ToDoubleNs(total), repeat as real);
      var squares := SumDistances(data);
      if repeat >= 1 { DistancesNotNegative(Deltas(data[..], repeat - 1), mean.v); }
      variance := Divide(squares, repeat as real);
    }
  }

  method Divide(x: real, y: real) returns (q: Double)
    requires y == 0.0 ==> x == 0.0
    ensures if y == 0.0 then q == NaN else q.Real? && q.v * y == x
    ensures y != 0.0 && x == 0.0 ==> q == Real(0.0)
    ensures x >= 0.0 && y > 0.0 ==> q.v >= 0.0
  {
    q := if y == 0.0 then NaN else Real(x / y);
  }
}
