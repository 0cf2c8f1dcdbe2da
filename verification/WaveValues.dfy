/** What answers, forces and outgoing waves are worth, said without the formulas that compute
    them. */
module WaveValues {
  import opened Samples
  import opened WaveHistory
  import opened WaveWindows

  // ---- interpolation ----

  /** `f` at `time` lies on the straight line through two points. */
  ghost predicate OnSegment(time: real, t0: real, f0: real, t1: real, f1: real, f: real) {
    (f - f0) * (t1 - t0) == (time - t0) * (f1 - f0)
  }

  lemma InterpolatesOnSegment(time: real, t0: real, t1: real, f0: real, f1: real)
    requires t0 != t1
    ensures OnSegment(time, t0, f0, t1, f1, LinearInterpolate(time, t0, t1, f0, f1))
  {
    var w, n := t1 - t0, (time - t0) * f1 - (time - t1) * f0;
    assert n / w * w == n;
    assert (time - t0) * (f1 - f0) == (time - t0) * f1 - (time - t0) * f0;
    assert (time - t1) * f0 == (time - t0) * f0 - w * f0;
    assert (n / w - f0) * w == n / w * w - f0 * w;
  }

  /** All values of an answer lie on the lines through two samples. */
  ghost predicate Between(r: Sample, p0: Sample, p1: Sample) {
    && OnSegment(r.time, p0.time, p0.wave, p1.time, p1.wave, r.wave)
    && OnSegment(r.time, p0.time, p0.position, p1.time, p1.position, r.position)
    && OnSegment(r.time, p0.time, p0.velocity, p1.time, p1.velocity, r.velocity)
  }

  /** A request between two neighbouring stamps, or beyond the last two, is answered at its own
      time on the lines through those two samples. A damped wave comes without motion. */
  lemma AnswerBetween(d: seq<Sample>, request: Sample, onlyForce: bool, origin: real, k: nat)
    requires OrderedStamps(d) && k + 1 < |d| && d[k].time < d[k + 1].time
    requires d[k].time <= request.time < d[k + 1].time ||
      (k + 2 == |d| && d[k + 1].time + 0.0000000001 < request.time)
    ensures Determined(d, request.time)
    ensures
      var r := Reference(d, request, onlyForce, origin);
      && r.time == request.time
      && (!onlyForce ==> Between(r, d[k], d[k + 1]))
      && (onlyForce ==> r == request.(wave := r.wave)
                        && OnSegment(r.time, d[k].time, d[k].wave, d[k + 1].time, d[k + 1].wave, r.wave))
  {
    var p0, p1, t := d[k], d[k + 1], request.time;
    assert d[0].time <= p0.time && p1.time <= d[|d| - 1].time;
    if t < p1.time {
      IntervalUnique(d, t, k);
    }
    assert Select(d, t) == Two(p0, p1);
    InterpolatesOnSegment(t, p0.time, p1.time, p0.wave, p1.wave);
    InterpolatesOnSegment(t, p0.time, p1.time, p0.position, p1.position);
    InterpolatesOnSegment(t, p0.time, p1.time, p0.velocity, p1.velocity);
  }

  /** Before the data the first sample acts, up to the tolerance behind it the last one, and with
      no data at all there is no wave and the nominal position. */
  lemma AnswerAtEdge(d: seq<Sample>, request: Sample, onlyForce: bool, origin: real)
    requires StrictStamps(d)
    ensures Determined(d, request.time)
    ensures
      var r := Reference(d, request, onlyForce, origin);
      && (d == [] ==> r == Sample(-111111.0, origin, request.velocity, 0.0))
      && (d != [] && (|d| == 1 || request.time < d[0].time) ==> r == d[0])
      && (d != [] && d[|d| - 1].time <= request.time <= d[|d| - 1].time + 0.0000000001 ==> r == d[|d| - 1])
  {
    StrictDetermined(d, request.time);
    if |d| > 1 {
      assert d[0].time < d[|d| - 1].time;
    }
  }

  // ---- waves on a straight line ----

  datatype Line = Line(offset: real, slope: real) {
    function At(time: real): real {
      offset + slope * time
    }
  }

  /** Wave, position and velocity change evenly with the stamps. */
  ghost predicate Straight(d: seq<Sample>, wave: Line, position: Line, velocity: Line) {
    forall i :: 0 <= i < |d| ==>
      d[i].wave == wave.At(d[i].time) && d[i].position == position.At(d[i].time)
      && d[i].velocity == velocity.At(d[i].time)
  }

  lemma SegmentOnLine(l: Line, time: real, t0: real, t1: real, f: real)
    requires t0 != t1 && OnSegment(time, t0, l.At(t0), t1, l.At(t1), f)
    ensures f == l.At(time)
  {
    var w := t1 - t0;
    assert l.At(t1) - l.At(t0) == l.slope * w;
    assert (time - t0) * (l.slope * w) == (l.slope * (time - t0)) * w;
    assert l.At(time) - l.At(t0) == l.slope * (time - t0);
    Cancel(f - l.At(t0), l.At(time) - l.At(t0), w);
  }

  lemma Cancel(a: real, b: real, w: real)
    requires w != 0.0 && a * w == b * w
    ensures a == b
  {
    assert (a - b) * w == 0.0;
  }

  /** The request lies behind the first sample, and not so close behind the last one that this
      is taken for it. */
  predicate Reached(d: seq<Sample>, time: real) {
    && |d| > 1 && d[0].time <= time
    && (time <= d[|d| - 1].time || d[|d| - 1].time + 0.0000000001 < time)
  }

  /** If everything received lies on straight lines, so does every answer, inside the data and
      extrapolated beyond it. */
  lemma StraightAnswer(d: seq<Sample>, request: Sample, origin: real, wave: Line, position: Line, velocity: Line)
    requires StrictStamps(d) && Straight(d, wave, position, velocity) && Reached(d, request.time)
    ensures Determined(d, request.time)
    ensures Reference(d, request, false, origin)
         == Sample(request.time, position.At(request.time), velocity.At(request.time), wave.At(request.time))
  {
    var n, t := |d|, request.time;
    if t == d[n - 1].time {
      AnswerAtEdge(d, request, false, origin);
    } else {
      var k := if t < d[n - 1].time then Interval(d, t) else n - 2;
      AnswerBetween(d, request, false, origin, k);
      SegmentOnLine(wave, t, d[k].time, d[k + 1].time, Reference(d, request, false, origin).wave);
      SegmentOnLine(position, t, d[k].time, d[k + 1].time, Reference(d, request, false, origin).position);
      SegmentOnLine(velocity, t, d[k].time, d[k + 1].time, Reference(d, request, false, origin).velocity);
    }
  }

  // ---- damping ----

  /** With damping and stored answers the wave moves from that of `r` towards the one of one and
      a half delays earlier, by the share `alpha`; nothing else changes. */
  ghost predicate Shares(p: Params, damped: seq<Sample>, r: Sample, answer: Sample) {
    var q := Sample(r.time - 1.5 * p.delay, 0.0, 0.0, 0.0);
    if p.alpha > 0.0 && damped != [] && r.time != -111111.0 then
      && Determined(damped, q.time)
      && answer.wave - r.wave == p.alpha * (Reference(damped, q, true, p.origin).wave - r.wave)
      && answer == r.(wave := answer.wave)
    else answer == r
  }

  lemma DampedShare(p: Params, received: seq<Sample>, damped: seq<Sample>, request: Sample)
    requires Answerable(p, received, damped, request)
    ensures Shares(p, damped, Undamped(p, received, request), Answer(p, received, damped, request))
  {
    var r := Undamped(p, received, request);
    if UsesDamping(p, r, damped) {
      var q := Sample(r.time - 1.5 * p.delay, 0.0, 0.0, 0.0);
      assert DampedRequest(p, r) == q;
      ShareOf(r.wave, Reference(damped, q, true, p.origin).wave, p.alpha);
    }
  }

  lemma ShareOf(a: real, b: real, share: real)
    ensures a * (1.0 - share) + b * share - a == share * (b - a)
  {
  }

  /** The same of the answers that interfaces give from their windows: they start from the wave
      received for one delay before. */
  lemma WindowShare(p: Params, h: History, time: real)
    requires Holds(p, h) && Grounded(p, h, time) && !Dividing(p, h, time)
    ensures Shares(p, h.Damped(), Undamped(p, h.Received(), Sample(time - p.delay, 0.0, 0.0, 0.0)),
                   WindowAnswer(p, h, time))
  {
    AnswerRefines(p, h, time);
    DampedShare(p, h.Received(), h.Damped(), RequestAt(p, time));
  }

  // ---- force and outgoing wave ----

  /** The force at an interface that moves with `speed`: the wave found, less what the impedance
      takes from motion; before any data the start value. Hydraulic flow counts the other way. */
  ghost predicate Acts(p: Params, init: Initial, speed: real, answer: Sample, force: real) {
    if answer.time == -111111.0 then force == init.force
    else if p.hydraulic then force - p.zf * speed == answer.wave
    else force + p.zf * speed == answer.wave
  }

  /** The wave sent back: with the force at the same end it makes up what the impedance gives for
      the motion; before any data it is built from the start values alone. */
  ghost predicate Sends(p: Params, init: Initial, speed: real, answer: Sample, wave: real) {
    if answer.time == -111111.0 then
      if p.hydraulic then wave - init.force == p.zf * (init.flow + speed)
      else wave + init.force == p.zf * (init.flow + speed)
    else
      if p.hydraulic then wave - (answer.wave + p.zf * speed) == p.zf * speed
      else wave + (answer.wave - p.zf * speed) == p.zf * speed
  }

  /** The sample that motion offers: the motion itself, and the wave that goes with it. */
  ghost predicate Offers(p: Params, init: Initial, answer: Sample, time: real, position: real, speed: real, x: Sample) {
    x.time == time && x.position == position && x.velocity == speed && Sends(p, init, speed, answer, x.wave)
  }

  lemma ForceActs(p: Params, init: Initial, speed: real, answer: Sample)
    ensures Acts(p, init, speed, answer, Force(p, init, speed, answer))
  {
  }

  lemma OutgoingSends(p: Params, init: Initial, speed: real, answer: Sample)
    ensures Sends(p, init, speed, answer, OutgoingWave(p, init, speed, answer))
  {
    assert p.zf * (init.flow + speed) == p.zf * init.flow + p.zf * speed;
  }

  /** Once there is data, sent wave and force at one end together are the impedance times the
      speed; in the hydraulic domain their difference is. */
  lemma SentAndForce(p: Params, init: Initial, speed: real, answer: Sample)
    requires answer.time != -111111.0
    ensures
      var sent, force := OutgoingWave(p, init, speed, answer), Force(p, init, speed, answer);
      (if p.hydraulic then sent - force else sent + force) == p.zf * speed
  {
    OutgoingSends(p, init, speed, answer);
    ForceActs(p, init, speed, answer);
  }

  /** Without damping, what was received along straight lines is answered along them, one delay
      back. */
  lemma StraightWindow(p: Params, h: History, time: real, wave: Line, position: Line, velocity: Line)
    requires Holds(p, h) && h.clock <= time && p.alpha <= 0.0
    requires Straight(h.Received(), wave, position, velocity) && Reached(h.Received(), time - p.delay)
    ensures !Dividing(p, h, time)
    ensures
      var t := time - p.delay;
      WindowAnswer(p, h, time) == Sample(t, position.At(t), velocity.At(t), wave.At(t))
  {
    UndampedNeverDivides(p, h, time);
    WindowShare(p, h, time);
    StraightAnswer(h.Received(), RequestAt(p, time), p.origin, wave, position, velocity);
  }

  /** ... and acts so on the interface. */
  lemma StraightForce(p: Params, init: Initial, h: History, time: real, speed: real, wave: Line, position: Line,
                      velocity: Line)
    requires Holds(p, h) && h.clock <= time && p.alpha <= 0.0 && time - p.delay != -111111.0
    requires Straight(h.Received(), wave, position, velocity) && Reached(h.Received(), time - p.delay)
    ensures !Dividing(p, h, time)
    ensures Force(p, init, speed, WindowAnswer(p, h, time))
         == wave.At(time - p.delay) + if p.hydraulic then p.zf * speed else -(p.zf * speed)
  {
    StraightWindow(p, h, time, wave, position, velocity);
    ForceActs(p, init, speed, WindowAnswer(p, h, time));
  }
}
