/** Accumulated wall-clock measurements in seconds and nanoseconds. */
module Timing {

  const NANOSEC := 1_000_000_000
  const LONG_MAX := 0x7fff_ffff_ffff_ffff
  const ULONG_SIZE := 0x1_0000_0000_0000_0000

  datatype Time = Time(sec: int, nsec: int)

  /** The time in nanoseconds. */
  function Value(t: Time): int {
    t.sec * NANOSEC + t.nsec
  }

  /** What a clock gives. */
  predicate Normal(t: Time) {
    0 <= t.nsec < NANOSEC
  }

  /** Lexicographic order, as the code compares times. */
  predicate Less(a: Time, b: Time) {
    a.sec < b.sec || (a.sec == b.sec && a.nsec < b.nsec)
  }

  /** For times from a clock the comparison is that of their values. */
  lemma LessIsLess(a: Time, b: Time)
    requires Normal(a) && Normal(b)
    ensures Less(a, b) <==> Value(a) < Value(b)
  {
  }

  /** A carry only above a whole second: the nanoseconds of a sum may be exactly one second. */
  method timespecadd(t1: Time, t2: Time) returns (sum: Time)
    requires 0 <= t1.nsec <= NANOSEC && Normal(t2)
    ensures Value(sum) == Value(t1) + Value(t2) && 0 <= sum.nsec <= NANOSEC
    ensures sum.nsec == NANOSEC <==> t1.nsec + t2.nsec == NANOSEC
  {
    sum := Time(t1.sec + t2.sec, t1.nsec + t2.nsec);
    if sum.nsec > NANOSEC {
      sum := Time(sum.sec + 1, sum.nsec - NANOSEC);
    }
  }

  method timespecdiff(t1: Time, t2: Time) returns (diff: Time)
    requires Normal(t1) && Normal(t2)
    ensures Value(diff) == Value(t1) - Value(t2) && Normal(diff) && diff.sec <= t1.sec - t2.sec
  {
    diff := Time(t1.sec - t2.sec, t1.nsec - t2.nsec);
    if diff.nsec < 0 {
      diff := Time(diff.sec - 1, diff.nsec + NANOSEC);
    }
  }

  function Sum(s: seq<int>): int {
    if s == [] then 0 else Sum(s[..|s| - 1]) + s[|s| - 1]
  }

  // ---- the average ----

  /** Seconds and nanoseconds divided separately, with the remaining seconds turned into
      nanoseconds per measurement first. */
  function Quotient(total: Time, nr: nat): Time
    requires nr > 0
  {
    Time(total.sec / nr, total.sec % nr * (NANOSEC / nr) + total.nsec / nr)
  }

  lemma Split(a: int, n: int, q: int, r: int)
    requires n > 0 && q == a / n && r == a % n
    ensures a == n * q + r && 0 <= r < n
  {
  }

  lemma Distribute(n: int, q: int, r: int, c: int, d: int, e: int, f: int)
    ensures (n * q + r) * (n * c + d) + (n * e + f) - n * (q * (n * c + d) + (r * c + e)) == r * d + f
  {
    assert (n * q + r) * (n * c + d) == n * q * (n * c + d) + r * (n * c + d);
    assert r * (n * c + d) == n * (r * c) + r * d;
    assert n * q * (n * c + d) == n * (q * (n * c + d));
    assert n * (q * (n * c + d) + (r * c + e)) == n * (q * (n * c + d)) + n * (r * c) + n * e;
  }

  /** What the truncated average loses is known exactly. */
  lemma QuotientLoss(total: Time, nr: nat)
    requires nr > 0
    ensures Value(total) - nr * Value(Quotient(total, nr)) == total.sec % nr * (NANOSEC % nr) + total.nsec % nr
  {
    var q, r := total.sec / nr, total.sec % nr;
    var c, d := NANOSEC / nr, NANOSEC % nr;
    var e, f := total.nsec / nr, total.nsec % nr;
    Split(total.sec, nr, q, r);
    Split(NANOSEC, nr, c, d);
    Split(total.nsec, nr, e, f);
    Distribute(nr, q, r, c, d, e, f);
    Exact(total, nr, q, r, c, d, e, f);
  }

  lemma Exact(total: Time, n: int, q: int, r: int, c: int, d: int, e: int, f: int)
    requires total.sec == n * q + r && NANOSEC == n * c + d && total.nsec == n * e + f
    ensures Value(total) - n * Value(Time(q, r * c + e))
         == (n * q + r) * (n * c + d) + (n * e + f) - n * (q * (n * c + d) + (r * c + e))
  {
    assert total.sec * NANOSEC == (n * q + r) * (n * c + d);
    assert q * NANOSEC == q * (n * c + d);
  }

  lemma Grows(a: int, b: int, c: int)
    requires 0 <= a <= b && 0 <= c
    ensures 0 <= c * a <= c * b
  {
    assert c * b - c * a == c * (b - a);
  }

  lemma SmallProduct(r: int, d: int, n: int)
    requires 0 <= r < n && 0 <= d < n
    ensures 0 <= r * d <= (n - 1) * (n - 1)
  {
    Grows(d, n - 1, r);
    Grows(r, n - 1, n - 1);
    assert r * (n - 1) == (n - 1) * r;
  }

  lemma Square(n: int)
    ensures (n - 1) * (n - 1) + (n - 1) == n * (n - 1)
  {
  }

  lemma NanosecondsFit(n: int, r: int, c: int, d: int, e: int)
    requires 0 < n && 0 <= r < n && 0 <= c && 0 <= d && NANOSEC == n * c + d && 0 <= e <= c
    ensures 0 <= r * c + e <= NANOSEC
  {
    Grows(r, n - 1, c);
    assert c * r == r * c && c * (n - 1) + c == n * c;
  }

  /** The truncated average of `nr` measurements is never above the true one, less than
      `nr` nanoseconds below it, and its nanoseconds never exceed one second. */
  lemma QuotientBound(total: Time, nr: nat)
    requires nr > 0 && 0 <= total.sec && 0 <= total.nsec <= NANOSEC
    ensures 0 <= Value(total) - nr * Value(Quotient(total, nr)) <= nr * (nr - 1)
    ensures 0 <= Quotient(total, nr).nsec <= NANOSEC && 0 <= Quotient(total, nr).sec <= total.sec
  {
    QuotientLoss(total, nr);
    Split(total.sec, nr, total.sec / nr, total.sec % nr);
    Split(NANOSEC, nr, NANOSEC / nr, NANOSEC % nr);
    Split(total.nsec, nr, total.nsec / nr, total.nsec % nr);
    SmallProduct(total.sec % nr, NANOSEC % nr, nr);
    Square(nr);
    Monotone(total.nsec, NANOSEC, nr);
    NanosecondsFit(nr, total.sec % nr, NANOSEC / nr, NANOSEC % nr, total.nsec / nr);
    AtMostWhole(total.sec, nr);
  }

  lemma AtMostWhole(a: int, n: int)
    requires 0 <= a && 0 < n
    ensures 0 <= a / n <= a && (n >= 2 ==> 2 * (a / n) <= a) && (n <= a ==> 1 <= a / n)
  {
    Split(a, n, a / n, a % n);
    NotNegative(a / n, a % n, n);
    Grows(1, n, a / n);
    if n >= 2 {
      Grows(2, n, a / n);
    }
  }

  // ---- dividing by an unsigned number ----

  /** A signed number of 64 bits where an unsigned one is wanted, and the other way round. */
  function Unsigned(x: int): int {
    if x < 0 then x + ULONG_SIZE else x
  }

  function Signed(x: int): int {
    if x > LONG_MAX then x - ULONG_SIZE else x
  }

  /** The average as it is computed: the number of measurements is unsigned, and so is
      everything divided by it. */
  function Average(total: Time, nr: nat): Time
    requires nr > 0
  {
    var q := Quotient(Time(Unsigned(total.sec), Unsigned(total.nsec)), nr);
    Time(Signed(q.sec), Signed(q.nsec))
  }

  /** The average is within the bound of the truncation. */
  ghost predicate Bounded(total: Time, nr: nat)
    requires nr > 0
  {
    var avg := Average(total, nr);
    0 <= Value(total) - nr * Value(avg) <= nr * (nr - 1) && 0 <= avg.nsec <= NANOSEC
  }

  predicate Fits(total: Time, nr: nat) {
    0 < nr < ULONG_SIZE && -LONG_MAX - 1 <= total.sec <= LONG_MAX && 0 <= total.nsec <= NANOSEC
  }

  lemma NegativeTotal(total: Time, nr: nat)
    requires Fits(total, nr) && total.sec < 0 && nr >= 2
    ensures !Bounded(total, nr)
  {
    var u := Time(Unsigned(total.sec), total.nsec);
    QuotientBound(u, nr);
    AtMostWhole(u.sec, nr);
    var avg := Average(total, nr);
    assert avg == Quotient(u, nr);
    if 1 <= avg.sec {
      Grows(1, Value(avg), nr);
    } else {
      assert u.sec < nr;
      Grows(0, Value(avg), nr);
    }
  }

  lemma SingleNegative(total: Time)
    requires Fits(total, 1) && total.sec < 0
    ensures Bounded(total, 1)
  {
    assert NANOSEC / 1 == NANOSEC;
    assert Average(total, 1) == total;
  }

  /** The average meets its bound exactly when the measurements do not add up to less than
      nothing, which a clock that has been set back may cause, or there is only one. */
  lemma AverageBound(total: Time, nr: nat)
    requires Fits(total, nr)
    ensures Bounded(total, nr) <==> 0 <= total.sec || nr == 1
  {
    if 0 <= total.sec {
      QuotientBound(total, nr);
      assert Average(total, nr) == Quotient(total, nr);
    } else if nr == 1 {
      SingleNegative(total);
    } else {
      NegativeTotal(total, nr);
    }
  }

  lemma Monotone(a: int, b: int, n: int)
    requires 0 < n && 0 <= a <= b
    ensures 0 <= a / n <= b / n
  {
    Split(a, n, a / n, a % n);
    Split(b, n, b / n, b % n);
    QuotientsOrdered(a / n, a % n, b / n, b % n, n);
  }

  lemma QuotientsOrdered(q: int, r: int, q': int, r': int, n: int)
    requires 0 <= r < n && 0 <= r' < n && 0 <= n * q + r <= n * q' + r'
    ensures 0 <= q <= q'
  {
    NotNegative(q, r, n);
    NotNegative(q', r', n);
    if q' < q {
      Grows(q' + 1, q, n);
    }
  }

  lemma NotNegative(q: int, r: int, n: int)
    requires 0 <= r < n && 0 <= n * q + r
    ensures 0 <= q
  {
    if q < 0 {
      Grows(1, -q, n);
    }
  }

  // ---- the timer ----

  /** The fields of a timer after the given measurements in nanoseconds. */
  ghost predicate Measured(elapsed: seq<int>, total: Time, last: Time, min: Time, max: Time) {
    && Value(total) == Sum(elapsed) && 0 <= total.nsec <= NANOSEC
    && Normal(max) && 0 <= Value(max) && (Value(max) == 0 || Value(max) in elapsed)
    && (elapsed == [] ==> min == Time(LONG_MAX, LONG_MAX))
    && (elapsed != [] ==>
          && Normal(min) && Value(min) in elapsed
          && Normal(last) && Value(last) == elapsed[|elapsed| - 1])
    && (forall x :: x in elapsed ==> Value(min) <= x <= Value(max))
  }

  lemma MeasuredNext(elapsed: seq<int>, total: Time, last: Time, min: Time, max: Time, time: Time, total': Time)
    requires Measured(elapsed, total, last, min, max) && Normal(time) && time.sec < LONG_MAX
    requires Value(total') == Value(total) + Value(time) && 0 <= total'.nsec <= NANOSEC
    ensures Measured(elapsed + [Value(time)], total', time,
                     if Less(time, min) then time else min, if Less(max, time) then time else max)
  {
    SumNext(elapsed, Value(time));
    LessIsLess(max, time);
    if elapsed == [] {
      assert Less(time, min);
    } else {
      LessIsLess(time, min);
    }
  }

  class Timer {
    var start: Time
    var corr: Time
    var total: Time
    var last: Time
    var min: Time
    var max: Time
    var nr: nat

    // the measurements since the last clearing, in nanoseconds
    ghost var elapsed: seq<int>

    ghost predicate Valid()
      reads this
    {
      Normal(start) && Normal(corr) && nr == |elapsed| && Measured(elapsed, total, last, min, max)
    }

    constructor ()
      ensures Valid() && nr == 0 && elapsed == [] && corr == Time(0, 0) && start == Time(0, 0)
    {
      start, corr := Time(0, 0), Time(0, 0);
      total, last, max := Time(0, 0), Time(0, 0), Time(0, 0);
      min := Time(LONG_MAX, LONG_MAX);
      nr, elapsed := 0, [];
    }

    method Clear()
      requires Valid()
      modifies this
      ensures Valid() && elapsed == [] && start == old(start) && corr == old(corr)
    {
      total, last, max := Time(0, 0), Time(0, 0), Time(0, 0);
      min := Time(LONG_MAX, LONG_MAX);
      nr, elapsed := 0, [];
    }

    method Start(now: Time)
      requires Valid() && Normal(now)
      modifies this`start
      ensures Valid() && start == now
    {
      start := now;
    }

    /** Adds one measurement; the time since the start may even be negative. */
    method Stop(now: Time)
      requires Valid() && Normal(now) && now.sec - start.sec - corr.sec < LONG_MAX
      modifies this
      ensures Valid() && start == old(start) && corr == old(corr)
      ensures elapsed == old(elapsed) + [Value(now) - Value(start) - Value(corr)]
    {
      var time := timespecdiff(now, start);
      time := timespecdiff(time, corr);
      ghost var before := total;
      total := timespecadd(total, time);
      MeasuredNext(elapsed, before, last, min, max, time, total);
      last := time;
      if Less(time, min) {
        min := time;
      }
      if Less(max, time) {
        max := time;
      }
      elapsed := elapsed + [Value(time)];
      nr := nr + 1;
    }

    /** The average of the measurements: never too long, and short by less than one
        nanosecond for every measurement, exactly as long as they do not add up to less than
        nothing. */
    method Avg() returns (avg: Time)
      requires Valid() && Fits(total, nr)
      ensures avg == Average(total, nr)
      ensures 0 <= total.sec || nr == 1 <==>
        0 <= Sum(elapsed) - nr * Value(avg) <= nr * (nr - 1) && 0 <= avg.nsec <= NANOSEC
    {
      var sec, nsec := Unsigned(total.sec), Unsigned(total.nsec);
      avg := Time(Signed(sec / nr), Signed(sec % nr * (NANOSEC / nr) + nsec / nr));
      AverageBound(total, nr);
    }
  }

  /** Two measurements with a clock that is set back while the timer runs: the average does not
      meet its bound. */
  method ClockSetBack() returns (timer: Timer)
    ensures timer.Valid() && timer.elapsed == [-2 * NANOSEC, -1 * NANOSEC] && timer.nr == 2
    ensures timer.total.sec < 0 && Fits(timer.total, 2) && !Bounded(timer.total, 2)
  {
    timer := new Timer();
    timer.Start(Time(10, 0));
    timer.Stop(Time(8, 0));
    timer.Stop(Time(9, 0));
    assert timer.elapsed == [-2 * NANOSEC, -1 * NANOSEC];
    SumNext([], -2 * NANOSEC);
    SumNext([-2 * NANOSEC], -1 * NANOSEC);
    AverageBound(timer.total, 2);
  }

  lemma SumNext(s: seq<int>, x: int)
    ensures Sum(s + [x]) == Sum(s) + x
  {
    assert (s + [x])[..|s|] == s;
  }
}
