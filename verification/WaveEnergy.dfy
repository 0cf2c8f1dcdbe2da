/** Wave scattering at an interface and the energy balance of a connection whose two
    ends run with equal steps. */
module WaveEnergy {
  import opened Samples
  import opened WaveHistory
  import opened WaveWindows

  function Square(x: real): real {
    x * x
  }

  /** Force times velocity is what the squared wave loses at the interface, over four
      times the impedance; a hydraulic interface counts flow the other way round. */
  lemma Scattering(p: Params, init: Initial, speed: real, answer: Sample)
    requires p.zf > 0.0 && answer.time != TIME_WITHOUT_DATA
    ensures
      var loss := Square(answer.wave) - Square(OutgoingWave(p, init, speed, answer));
      4.0 * p.zf * (Force(p, init, speed, answer) * speed) == if p.hydraulic then -loss else loss
  {
    var c, z, v := answer.wave, p.zf, speed;
    if p.hydraulic {
      assert Force(p, init, v, answer) == c + z * v;
      assert OutgoingWave(p, init, v, answer) == c + 2.0 * (z * v);
      ScatteringAlgebra(c, z * v);
      assert 4.0 * z * ((c + z * v) * v) == 4.0 * (z * v) * (c + z * v);
    } else {
      assert Force(p, init, v, answer) == c - z * v;
      assert OutgoingWave(p, init, v, answer) == -c + 2.0 * (z * v);
      ScatteringAlgebra(-c, z * v);
      assert 4.0 * z * ((c - z * v) * v) == 4.0 * (z * v) * (c - z * v);
    }
  }

  lemma ScatteringAlgebra(c: real, q: real)
    ensures Square(c + 2.0 * q) - Square(c) == 4.0 * q * (c + q)
  {
  }

  // ---- bookkeeping over runs ----

  function Sum(d: seq<real>, lo: nat, hi: nat): real
    requires lo <= hi <= |d|
  {
    if lo == hi then 0.0 else Sum(d, lo, hi - 1) + d[hi - 1]
  }

  lemma {:induction false} SumHead(d: seq<real>, lo: nat, hi: nat)
    requires lo < hi <= |d|
    ensures Sum(d, lo, hi) == d[lo] + Sum(d, lo + 1, hi)
  {
    if lo + 1 < hi {
      SumHead(d, lo, hi - 1);
    }
  }

  /** What is in flight on a line when the step `k` begins: the last `n` entries sent. */
  function InFlight(sentA: seq<real>, sentB: seq<real>, n: nat, k: nat): real
    requires n <= k <= |sentA| && k <= |sentB|
  {
    Sum(sentA, k - n, k) + Sum(sentB, k - n, k)
  }

  /** If in every step both ends together take out what arrives and put in what they
      send, the sum over many steps is the change of what is in flight. */
  lemma {:induction false} Ledger(powerA: seq<real>, powerB: seq<real>, sentA: seq<real>, sentB: seq<real>,
                                  n: nat, lo: nat, hi: nat)
    requires 0 < n <= lo <= hi <= |powerA| && hi <= |powerB| && hi <= |sentA| && hi <= |sentB|
    requires forall k :: lo <= k < hi ==>
      powerA[k] + powerB[k] == sentA[k - n] + sentB[k - n] - sentA[k] - sentB[k]
    ensures Sum(powerA, lo, hi) + Sum(powerB, lo, hi)
         == InFlight(sentA, sentB, n, lo) - InFlight(sentA, sentB, n, hi)
  {
    if lo < hi {
      var k := hi - 1;
      Ledger(powerA, powerB, sentA, sentB, n, lo, k);
      SumHead(sentA, k - n, k + 1);
      SumHead(sentB, k - n, k + 1);
    }
  }

  // ---- two ends with equal steps ----

  /** One end of a connection: the samples it set, step by step, and how many samples of
      its peer it had received when it set each of them. */
  datatype End = End(samples: seq<Sample>, received: seq<nat>)

  /** The time of the k-th step. */
  function StepTime(start: real, h: real, k: nat): real {
    start + (k + 1) as real * h
  }

  lemma StepBack(start: real, h: real, n: nat, j: nat)
    requires 0.0 < h
    ensures StepTime(start, h, j + n) - n as real * h == StepTime(start, h, j)
    ensures start < StepTime(start, h, j)
  {
    assert (j + n + 1) as real == (j + 1) as real + n as real;
    assert ((j + 1) as real + n as real) * h == (j + 1) as real * h + n as real * h;
  }

  /** The samples of `e` are what an undamped interface produces at equal steps of length
      `h` after `start`, from the samples of the peer received so far. After `n` steps
      every request is covered by received data. */
  ghost predicate Produces(p: Params, init: Initial, start: real, h: real, n: nat, e: End, peer: End) {
    && |e.samples| == |e.received|
    && (forall k :: 0 <= k < |peer.samples| ==> peer.samples[k].time == StepTime(start, h, k))
    && (forall k :: 0 <= k < |e.samples| ==> e.samples[k].time == StepTime(start, h, k))
    && (forall k :: 0 <= k < |e.samples| ==> e.received[k] <= |peer.samples| && (n <= k ==> k - n < e.received[k]))
    && StrictStamps(peer.samples)
    && (forall k :: 0 <= k < |e.samples| ==> ProducesAt(p, init, e, peer, k))
  }

  ghost predicate ProducesAt(p: Params, init: Initial, e: End, peer: End, k: nat)
    requires k < |e.samples| == |e.received| && e.received[k] <= |peer.samples| && StrictStamps(peer.samples)
  {
    e.samples[k].wave == OutgoingWave(p, init, e.samples[k].velocity, AnswerIn(p, e, peer, k))
  }

  /** The answer an end gets at its k-th step. */
  function AnswerIn(p: Params, e: End, peer: End, k: nat): Sample
    requires k < |e.samples| == |e.received| && e.received[k] <= |peer.samples| && StrictStamps(peer.samples)
  {
    var d := peer.samples[..e.received[k]];
    assert StrictStamps(d);
    Answer(p, d, [], RequestAt(p, e.samples[k].time))
  }

  /** Force times velocity at the k-th step. */
  function PowerIn(p: Params, init: Initial, e: End, peer: End, k: nat): real
    requires k < |e.samples| == |e.received| && e.received[k] <= |peer.samples| && StrictStamps(peer.samples)
  {
    Force(p, init, e.samples[k].velocity, AnswerIn(p, e, peer, k)) * e.samples[k].velocity
  }

  ghost function Powers(p: Params, init: Initial, start: real, h: real, n: nat, e: End, peer: End): seq<real>
    requires Produces(p, init, start, h, n, e, peer)
  {
    seq(|e.samples|, k requires 0 <= k < |e.samples| => PowerIn(p, init, e, peer, k))
  }

  /** Squared waves over four times the impedance. */
  function Energies(p: Params, d: seq<Sample>): seq<real>
    requires p.zf > 0.0
  {
    seq(|d|, k requires 0 <= k < |d| => Square(d[k].wave) / (4.0 * p.zf))
  }

  /** After `n` steps the answer is exactly the sample the peer set `n` steps before. */
  lemma DelayedSample(p: Params, init: Initial, start: real, h: real, n: nat, e: End, peer: End, k: nat)
    requires p.delay == n as real * h && 0.0 < h && p.alpha == 0.0
    requires Produces(p, init, start, h, n, e, peer) && n <= k < |e.samples|
    ensures AnswerIn(p, e, peer, k) == peer.samples[k - n]
  {
    var d := peer.samples[..e.received[k]];
    var j := k - n;
    assert d[j] == peer.samples[j];
    StepBack(start, h, n, j);
    ExactHit(d, j, RequestAt(p, e.samples[k].time), p.origin);
  }

  /** One step at one end: force times velocity against the waves that arrive and leave. */
  lemma PowerBalance(p: Params, init: Initial, speed: real, answer: Sample, sent: real)
    requires p.zf > 0.0 && answer.time != TIME_WITHOUT_DATA && sent == OutgoingWave(p, init, speed, answer)
    ensures
      var taken := Square(answer.wave) / (4.0 * p.zf) - Square(sent) / (4.0 * p.zf);
      Force(p, init, speed, answer) * speed == if p.hydraulic then -taken else taken
  {
    Scattering(p, init, speed, answer);
    Divide(Force(p, init, speed, answer) * speed, Square(answer.wave), Square(sent), 4.0 * p.zf, p.hydraulic);
  }

  lemma StepBalance(p: Params, init: Initial, start: real, h: real, n: nat, e: End, peer: End, k: nat)
    requires p.zf > 0.0 && p.delay == n as real * h && 0.0 < h && p.alpha == 0.0
    requires Produces(p, init, start, h, n, e, peer) && n <= k < |e.samples|
    requires TIME_WITHOUT_DATA < start
    ensures k - n < e.received[k] <= |peer.samples|
    ensures
      var taken := Square(peer.samples[k - n].wave) / (4.0 * p.zf) - Square(e.samples[k].wave) / (4.0 * p.zf);
      PowerIn(p, init, e, peer, k) == if p.hydraulic then -taken else taken
  {
    DelayedSample(p, init, start, h, n, e, peer, k);
    StepBack(start, h, n, k - n);
    assert ProducesAt(p, init, e, peer, k);
    AnswerBalance(p, init, e, peer, k, peer.samples[k - n]);
  }

  lemma AnswerBalance(p: Params, init: Initial, e: End, peer: End, k: nat, answer: Sample)
    requires k < |e.samples| == |e.received| && e.received[k] <= |peer.samples| && StrictStamps(peer.samples)
    requires p.zf > 0.0 && answer.time != TIME_WITHOUT_DATA
    requires ProducesAt(p, init, e, peer, k) && AnswerIn(p, e, peer, k) == answer
    ensures
      var taken := Square(answer.wave) / (4.0 * p.zf) - Square(e.samples[k].wave) / (4.0 * p.zf);
      PowerIn(p, init, e, peer, k) == if p.hydraulic then -taken else taken
  {
    PowerBalance(p, init, e.samples[k].velocity, answer, e.samples[k].wave);
  }

  lemma Divide(power: real, arrived: real, left: real, z: real, flip: bool)
    requires z > 0.0 && z * power == if flip then -(arrived - left) else arrived - left
    ensures power == if flip then -(arrived / z - left / z) else arrived / z - left / z
  {
    assert arrived / z - left / z == (arrived - left) / z;
    assert power == (z * power) / z;
  }

  /** Over any window of steps after the first `n`, the work done at both ends together is
      the change of the squared waves in flight over four times the impedance, with the
      opposite sign in the hydraulic domain. Nothing is created or lost on the line. */
  lemma EnergyConservation(p: Params, initA: Initial, initB: Initial, start: real, h: real, n: nat, a: End, b: End,
                           lo: nat, hi: nat)
    requires p.zf > 0.0 && p.delay == n as real * h && 0.0 < h && p.alpha == 0.0
    requires TIME_WITHOUT_DATA < start
    requires Produces(p, initA, start, h, n, a, b) && Produces(p, initB, start, h, n, b, a)
    requires 0 < n <= lo <= hi <= |a.samples| && hi <= |b.samples|
    ensures
      var work := Sum(Powers(p, initA, start, h, n, a, b), lo, hi) + Sum(Powers(p, initB, start, h, n, b, a), lo, hi);
      var ea, eb := Energies(p, a.samples), Energies(p, b.samples);
      var change := InFlight(ea, eb, n, lo) - InFlight(ea, eb, n, hi);
      work == if p.hydraulic then -change else change
  {
    var pa, pb := Powers(p, initA, start, h, n, a, b), Powers(p, initB, start, h, n, b, a);
    var ea, eb := Energies(p, a.samples), Energies(p, b.samples);
    forall k | lo <= k < hi
      ensures
        var taken := ea[k - n] + eb[k - n] - ea[k] - eb[k];
        pa[k] + pb[k] == if p.hydraulic then -taken else taken
    {
      PowerAt(p, initA, start, h, n, a, b, k);
      PowerAt(p, initB, start, h, n, b, a, k);
    }
    Balance(pa, pb, ea, eb, n, lo, hi, p.hydraulic);
  }

  /** The balance of one step in the lists that are summed up. */
  lemma PowerAt(p: Params, init: Initial, start: real, h: real, n: nat, e: End, peer: End, k: nat)
    requires p.zf > 0.0 && p.delay == n as real * h && 0.0 < h && p.alpha == 0.0
    requires Produces(p, init, start, h, n, e, peer) && n <= k < |e.samples| && k < |peer.samples|
    requires TIME_WITHOUT_DATA < start
    ensures
      var taken := Energies(p, peer.samples)[k - n] - Energies(p, e.samples)[k];
      Powers(p, init, start, h, n, e, peer)[k] == if p.hydraulic then -taken else taken
  {
    StepBalance(p, init, start, h, n, e, peer, k);
  }

  /** The ledger, for power counted in either direction. */
  lemma Balance(pa: seq<real>, pb: seq<real>, ea: seq<real>, eb: seq<real>, n: nat, lo: nat, hi: nat, flip: bool)
    requires 0 < n <= lo <= hi <= |pa| && hi <= |pb| && hi <= |ea| && hi <= |eb|
    requires forall k :: lo <= k < hi ==>
      var taken := ea[k - n] + eb[k - n] - ea[k] - eb[k];
      pa[k] + pb[k] == if flip then -taken else taken
    ensures
      var change := InFlight(ea, eb, n, lo) - InFlight(ea, eb, n, hi);
      Sum(pa, lo, hi) + Sum(pb, lo, hi) == if flip then -change else change
  {
    if flip {
      Ledger(Negated(pa), Negated(pb), ea, eb, n, lo, hi);
      SumNegated(pa, lo, hi);
      SumNegated(pb, lo, hi);
    } else {
      Ledger(pa, pb, ea, eb, n, lo, hi);
    }
  }

  function Negated(d: seq<real>): seq<real> {
    seq(|d|, k requires 0 <= k < |d| => -d[k])
  }

  lemma {:induction false} SumNegated(d: seq<real>, lo: nat, hi: nat)
    requires lo <= hi <= |d|
    ensures Sum(Negated(d), lo, hi) == -Sum(d, lo, hi)
  {
    if lo < hi {
      SumNegated(d, lo, hi - 1);
    }
  }

  lemma {:induction false} EnergiesNotNegative(p: Params, d: seq<Sample>, lo: nat, hi: nat)
    requires p.zf > 0.0 && lo <= hi <= |d|
    ensures 0.0 <= Sum(Energies(p, d), lo, hi)
  {
    if lo < hi {
      EnergiesNotNegative(p, d, lo, hi - 1);
      assert 0.0 <= Square(d[hi - 1].wave);
      assert 0.0 <= Square(d[hi - 1].wave) / (4.0 * p.zf);
    }
  }

  /** The line is passive: what both ends together take out of it never exceeds what was
      in flight when the window began. */
  lemma LineIsPassive(p: Params, initA: Initial, initB: Initial, start: real, h: real, n: nat, a: End, b: End,
                      lo: nat, hi: nat)
    requires p.zf > 0.0 && p.delay == n as real * h && 0.0 < h && p.alpha == 0.0
    requires TIME_WITHOUT_DATA < start
    requires Produces(p, initA, start, h, n, a, b) && Produces(p, initB, start, h, n, b, a)
    requires 0 < n <= lo <= hi <= |a.samples| && hi <= |b.samples|
    ensures
      var work := Sum(Powers(p, initA, start, h, n, a, b), lo, hi) + Sum(Powers(p, initB, start, h, n, b, a), lo, hi);
      (if p.hydraulic then -work else work) <= InFlight(Energies(p, a.samples), Energies(p, b.samples), n, lo)
  {
    EnergyConservation(p, initA, initB, start, h, n, a, b, lo, hi);
    InFlightNotNegative(p, a.samples, b.samples, n, hi);
  }

  lemma InFlightNotNegative(p: Params, a: seq<Sample>, b: seq<Sample>, n: nat, k: nat)
    requires p.zf > 0.0 && n <= k <= |a| && k <= |b|
    ensures 0.0 <= InFlight(Energies(p, a), Energies(p, b), n, k)
  {
    EnergiesNotNegative(p, a, k - n, k);
    EnergiesNotNegative(p, b, k - n, k);
  }
}
