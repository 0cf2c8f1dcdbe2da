/** Damping never amplifies: waves received within a bound lead only to answers within
    the same bound, over whole runs of one interface. */
module WaveBounds {
  import opened Samples
  import opened WaveHistory
  import opened WaveWindows
  import opened WaveRuns

  predicate Within(x: real, bound: real) {
    -bound <= x <= bound
  }

  ghost predicate AllWithin(d: seq<Sample>, bound: real) {
    forall i :: 0 <= i < |d| ==> Within(d[i].wave, bound)
  }

  lemma MulBound(a: real, f: real, bound: real)
    requires 0.0 <= a && Within(f, bound)
    ensures -(a * bound) <= a * f <= a * bound
  {
    assert 0.0 <= a * (bound - f) == a * bound - a * f;
    assert 0.0 <= a * (bound + f) == a * bound + a * f;
  }

  /** A weighted sum of two values within the bound. */
  lemma WeightedWithin(a: real, f: real, b: real, g: real, bound: real)
    requires 0.0 <= a && 0.0 <= b && Within(f, bound) && Within(g, bound)
    ensures -((a + b) * bound) <= a * f + b * g <= (a + b) * bound
  {
    MulBound(a, f, bound);
    MulBound(b, g, bound);
    assert (a + b) * bound == a * bound + b * bound;
  }

  lemma NotPositive(x: real, w: real)
    requires 0.0 < w && x * w <= 0.0
    ensures x <= 0.0
  {
  }

  lemma QuotientWithin(n: real, w: real, bound: real)
    requires 0.0 < w && -(w * bound) <= n <= w * bound
    ensures Within(n / w, bound)
  {
    var q := n / w;
    assert n == q * w;
    assert (q - bound) * w == n - w * bound && (-bound - q) * w == -(w * bound) - n;
    NotPositive(q - bound, w);
    NotPositive(-bound - q, w);
  }

  lemma InterpolationWithin(time: real, t0: real, t1: real, f0: real, f1: real, bound: real)
    requires t0 <= time <= t1 && t0 < t1 && Within(f0, bound) && Within(f1, bound)
    ensures Within(LinearInterpolate(time, t0, t1, f0, f1), bound)
  {
    var n := (time - t0) * f1 - (time - t1) * f0;
    assert n == (time - t0) * f1 + (t1 - time) * f0;
    assert (time - t0) + (t1 - time) == t1 - t0;
    WeightedWithin(time - t0, f1, t1 - time, f0, bound);
    QuotientWithin(n, t1 - t0, bound);
  }

  /** A lookup that does not extrapolate forward stays within the bound of the data. */
  lemma ReferenceWithin(d: seq<Sample>, request: Sample, onlyForce: bool, origin: real, bound: real)
    requires Determined(d, request.time) && AllWithin(d, bound) && 0.0 <= bound
    requires d != [] ==> request.time <= d[|d| - 1].time
    ensures Within(Reference(d, request, onlyForce, origin).wave, bound)
  {
    if Inside(d, request.time) {
      var i := Interval(d, request.time);
      InterpolationWithin(request.time, d[i].time, d[i + 1].time, d[i].wave, d[i + 1].wave, bound);
    }
  }

  lemma MixWithin(p: Params, answer: Sample, damped: Sample, bound: real)
    requires 0.0 <= p.alpha <= 1.0 && Within(answer.wave, bound) && Within(damped.wave, bound)
    ensures Within(Mix(p, answer, damped).wave, bound)
  {
    WeightedWithin(1.0 - p.alpha, answer.wave, p.alpha, damped.wave, bound);
    assert (1.0 - p.alpha) + p.alpha == 1.0;
  }

  ghost predicate Bounded(p: Params, h: History, bound: real) {
    Kept(p, h) && AllWithin(h.Received(), bound) && AllWithin(h.Damped(), bound)
  }

  /** Every answer an interface can be asked for is within the bound: the damped lookup
      lies so far back that it never extrapolates forward. */
  lemma AnswerWithin(p: Params, h: History, time: real, bound: real)
    requires 0.0 <= p.alpha <= 1.0 && 0.0 <= bound
    requires Bounded(p, h, bound) && Asks(p, h, time) && !Dividing(p, h, time)
    requires WithinData(p, h.Received(), time)
    ensures Within(WindowAnswer(p, h, time).wave, bound)
  {
    AsksGrounded(p, h, time);
    AnswerRefines(p, h, time);
    var request := RequestAt(p, time);
    var r := Undamped(p, h.Received(), request);
    ReferenceWithin(h.Received(), request, false, p.origin, bound);
    if UsesDamping(p, r, h.Damped()) {
      AnswerStamp(p, h.Received(), request);
      ReferenceWithin(h.Damped(), DampedRequest(p, r), true, p.origin, bound);
      MixWithin(p, r, Reference(h.Damped(), DampedRequest(p, r), true, p.origin), bound);
    }
  }

  ghost predicate ArrivesWithin(e: Event, bound: real) {
    e.Arrived? ==> AllWithin(e.samples, bound)
  }

  lemma BoundedMoved(p: Params, h: History, time: real, bound: real)
    requires 0.0 <= p.alpha <= 1.0 && 0.0 <= bound && Bounded(p, h, bound) && Possible(p, h, Moved(time))
    ensures Bounded(p, After(p, h, Moved(time)), bound)
  {
    KeptAfter(p, h, Moved(time));
    AsksGrounded(p, h, time);
    AnswerRefines(p, h, time);
    HoldsMoved(p, h, time);
    if p.alpha > 0.0 {
      AnswerWithin(p, h, time, bound);
      RememberWithin(p, h.Damped(), WindowAnswer(p, h, time), bound);
    }
  }

  lemma RememberWithin(p: Params, damped: seq<Sample>, answer: Sample, bound: real)
    requires AllWithin(damped, bound) && Within(answer.wave, bound)
    ensures AllWithin(Remember(p, damped, answer), bound)
  {
  }

  lemma BoundedArrived(p: Params, h: History, samples: seq<Sample>, bound: real)
    requires Bounded(p, h, bound) && Possible(p, h, Arrived(samples)) && AllWithin(samples, bound)
    ensures Bounded(p, After(p, h, Arrived(samples)), bound)
  {
    KeptAfter(p, h, Arrived(samples));
    HoldsArrived(p, h, samples);
  }

  lemma BoundedAfter(p: Params, h: History, e: Event, bound: real)
    requires 0.0 <= p.alpha <= 1.0 && 0.0 <= bound && ArrivesWithin(e, bound)
    requires Bounded(p, h, bound) && Possible(p, h, e)
    ensures Bounded(p, After(p, h, e), bound)
  {
    match e
    case Arrived(samples) => BoundedArrived(p, h, samples, bound);
    case Asked(time) => KeptAfter(p, h, e);
    case Moved(time) => BoundedMoved(p, h, time, bound);
  }

  lemma {:induction false} RunKeepsBound(p: Params, h: History, events: seq<Event>, bound: real)
    requires 0.0 <= p.alpha <= 1.0 && 0.0 <= bound && forall e :: e in events ==> ArrivesWithin(e, bound)
    requires Bounded(p, h, bound) && Run(p, h, events)
    ensures Bounded(p, Final(p, h, events), bound)
    decreases |events|
  {
    if events != [] {
      BoundedAfter(p, h, events[0], bound);
      RunKeepsBound(p, After(p, h, events[0]), events[1..], bound);
    }
  }

  /** Starting without data, whatever is received within the bound and however often the
      interface moves, every stored answer and every force wave stays within the bound, as
      long as no lookup divides by zero. */
  lemma DampingNeverAmplifies(p: Params, start: real, events: seq<Event>, bound: real, time: real)
    requires 0.0 < p.delay && 0.0 <= p.alpha <= 1.0 && 0.0 <= bound && TIME_WITHOUT_DATA < start - p.delay
    requires Run(p, Fresh(start), events) && forall e :: e in events ==> ArrivesWithin(e, bound)
    requires Possible(p, Final(p, Fresh(start), events), Asked(time))
    requires WithinData(p, Final(p, Fresh(start), events).Received(), time)
    ensures
      var h := Final(p, Fresh(start), events);
      AllWithin(h.Damped(), bound) && Within(WindowAnswer(p, h, time).wave, bound)
  {
    FreshKept(p, start);
    RunKeepsBound(p, Fresh(start), events, bound);
    AnswerWithin(p, Final(p, Fresh(start), events), time, bound);
  }
}
