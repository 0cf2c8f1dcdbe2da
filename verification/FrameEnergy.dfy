/** Energy conservation of a three-dimensional connection from what its interfaces receive:
    each of the six wave components is looked up like a one-dimensional wave. */
module FrameEnergy {
  import opened Samples
  import opened WaveHistory
  import opened WaveWindows
  import opened WaveValues
  import opened WaveEnergy
  import opened Frames
  import opened TimeProtocol
  import opened TimeProtocolProofs
  import opened ProtocolEnergy

  /** One of the six numbers of a wave: three of force, three of moment. */
  function Part(w: Pair, m: nat): real {
    if m == 0 then w.linear.x
    else if m == 1 then w.linear.y
    else if m == 2 then w.linear.z
    else if m == 3 then w.angular.x
    else if m == 4 then w.angular.y
    else w.angular.z
  }

  /** The history of one component. */
  function PartOf(d: seq<Sample3D>, m: nat): (r: seq<Sample>)
    ensures |r| == |d| && forall k :: 0 <= k < |d| ==> r[k].time == d[k].time && r[k].wave == Part(d[k].wave, m)
  {
    seq(|d|, k requires 0 <= k < |d| => Sample(d[k].time, 0.0, 0.0, Part(d[k].wave, m)))
  }

  ghost predicate Strict3D(d: seq<Sample3D>) {
    forall i, j :: 0 <= i < j < |d| ==> d[i].time < d[j].time
  }

  /** The wave that acts at a time: none before any data, else each component on its own. */
  function WaveAt3D(d: seq<Sample3D>, time: real): Acting
    requires Strict3D(d)
  {
    if d == [] then NoWave
    else
      Wave(Pair(Vector(WaveAt(PartOf(d, 0), time), WaveAt(PartOf(d, 1), time), WaveAt(PartOf(d, 2), time)),
                Vector(WaveAt(PartOf(d, 3), time), WaveAt(PartOf(d, 4), time), WaveAt(PartOf(d, 5), time))))
  }

  lemma PartHit(d: seq<Sample3D>, m: nat, k: nat)
    requires Strict3D(d) && k < |d|
    ensures WaveAt(PartOf(d, m), d[k].time) == Part(d[k].wave, m)
  {
    ExactHit(PartOf(d, m), k, Sample(d[k].time, 0.0, 0.0, 0.0), 0.0);
  }

  /** A request at the stamp of a received sample returns its wave. */
  lemma ExactHit3D(d: seq<Sample3D>, k: nat)
    requires Strict3D(d) && k < |d|
    ensures WaveAt3D(d, d[k].time) == Wave(d[k].wave)
  {
    PartHit(d, 0, k);
    PartHit(d, 1, k);
    PartHit(d, 2, k);
    PartHit(d, 3, k);
    PartHit(d, 4, k);
    PartHit(d, 5, k);
  }

  /** Between two neighbouring stamps each of the six numbers lies on its own straight line. */
  lemma WaveBetween3D(d: seq<Sample3D>, time: real, k: nat, m: nat)
    requires Strict3D(d) && k + 1 < |d| && d[k].time <= time < d[k + 1].time && m < 6
    ensures WaveAt3D(d, time).Wave?
    ensures OnSegment(time, d[k].time, Part(d[k].wave, m), d[k + 1].time, Part(d[k + 1].wave, m),
                      Part(WaveAt3D(d, time).wave, m))
  {
    PartAt(d, time, m);
    AnswerBetween(PartOf(d, m), Sample(time, 0.0, 0.0, 0.0), false, 0.0, k);
  }

  lemma PartAt(d: seq<Sample3D>, time: real, m: nat)
    requires Strict3D(d) && d != [] && m < 6
    ensures WaveAt3D(d, time).Wave? && Part(WaveAt3D(d, time).wave, m) == WaveAt(PartOf(d, m), time)
  {
  }

  /** One end of a connection: the samples it sent in the global frame, the motion it took
      them from in its own frame, and how many samples of its peer it had received. */
  datatype End3D = End3D(samples: seq<Sample3D>, motion: seq<Pair>, received: seq<nat>)

  /** At equal steps of length `h` every sample sent reflects the wave looked up one delay of
      `n` steps before, and after `n` steps that lies within the data received. */
  ghost predicate Produces3D(p: Params3D, start: real, h: real, n: nat, e: End3D, peer: End3D) {
    && |e.samples| == |e.motion| == |e.received| && Strict3D(peer.samples)
    && (forall k :: 0 <= k < |e.samples| ==> e.samples[k].time == StepTime(start, h, k))
    && (forall k :: 0 <= k < |peer.samples| ==> peer.samples[k].time == StepTime(start, h, k))
    && (forall k {:trigger ReflectsCovered(p, h, n, e, peer, k)} ::
          0 <= k < |e.samples| ==> ReflectsCovered(p, h, n, e, peer, k))
  }

  ghost predicate ReflectsCovered(p: Params3D, h: real, n: nat, e: End3D, peer: End3D, k: nat)
    requires k < |e.samples| == |e.motion| == |e.received| && Strict3D(peer.samples)
  {
    (n <= k ==> k - n < e.received[k]) && ReflectsKnown(p, h, n, e, peer, k)
  }

  /** The k-th sample reflects the wave found in what has been received, when there is one. */
  ghost predicate ReflectsKnown(p: Params3D, h: real, n: nat, e: End3D, peer: End3D, k: nat)
    requires k < |e.samples| == |e.motion| == |e.received| && Strict3D(peer.samples)
  {
    && e.received[k] <= |peer.samples|
    && var w := WaveAt3D(peer.samples[..e.received[k]], OneDelayBefore(e.samples[k].time, h, n));
       w.Wave? ==> e.samples[k].wave == Reflected(p, w.wave, e.motion[k])
  }

  function OneDelayBefore(time: real, h: real, n: nat): real {
    time - n as real * h
  }

  /** The request at step `j + n` is for the stamp of step `j`. */
  lemma RequestedStamp(p: Params3D, start: real, h: real, n: nat, e: End3D, peer: End3D, j: nat)
    requires 0.0 < h && Produces3D(p, start, h, n, e, peer) && j + n < |e.samples|
    ensures j < e.received[j + n] <= |peer.samples|
    ensures OneDelayBefore(e.samples[j + n].time, h, n) == peer.samples[j].time
  {
    assert ReflectsCovered(p, h, n, e, peer, j + n);
    StepBack(start, h, n, j);
  }

  lemma PrefixHit(d: seq<Sample3D>, r: nat, j: nat, time: real)
    requires Strict3D(d) && j < r <= |d| && time == d[j].time
    ensures Strict3D(d[..r]) && WaveAt3D(d[..r], time) == Wave(d[j].wave)
  {
    ExactHit3D(d[..r], j);
  }

  /** What reflects the wave looked up at the stamp of a sample reflects the wave of that sample. */
  lemma ReflectsSample(p: Params3D, sent: Pair, motion: Pair, d: seq<Sample3D>, r: nat, j: nat, time: real)
    requires Strict3D(d) && j < r <= |d| && time == d[j].time && Strict3D(d[..r])
    requires
      var w := WaveAt3D(d[..r], time);
      w.Wave? ==> sent == Reflected(p, w.wave, motion)
    ensures sent == Reflected(p, d[j].wave, motion)
  {
    PrefixHit(d, r, j, time);
  }

  /** After `n` steps each end reflects exactly the wave its peer sent `n` steps before. */
  lemma DelayedWave(p: Params3D, start: real, h: real, n: nat, e: End3D, peer: End3D, j: nat)
    requires 0.0 < h && Produces3D(p, start, h, n, e, peer) && j + n < |e.samples|
    ensures j < |peer.samples| && e.samples[j + n].wave == Reflected(p, peer.samples[j].wave, e.motion[j + n])
  {
    var k := j + n;
    RequestedStamp(p, start, h, n, e, peer, j);
    assert ReflectsCovered(p, h, n, e, peer, k);
    ReflectsSample(p, e.samples[k].wave, e.motion[k], peer.samples, e.received[k], j,
                   OneDelayBefore(e.samples[k].time, h, n));
  }

  function Waves(d: seq<Sample3D>): seq<Pair> {
    seq(|d|, k requires 0 <= k < |d| => d[k].wave)
  }

  lemma LineHears(p: Params3D, start: real, h: real, n: nat, e: End3D, peer: End3D)
    requires 0.0 < h && Produces3D(p, start, h, n, e, peer)
    ensures Hears(p, n, Waves(e.samples), Waves(peer.samples), e.motion)
  {
    forall k | n <= k < |e.samples| ensures HearsAt(p, n, Waves(e.samples), Waves(peer.samples), e.motion, k) {
      DelayedWave(p, start, h, n, e, peer, k - n);
    }
  }

  /** Over any window of steps the work of both components, each measured in its own frame,
      is the change of the energy in flight between them. */
  lemma LineConservesEnergy3D(pa: Params3D, pb: Params3D, start: real, h: real, n: nat, a: End3D, b: End3D,
                              lo: nat, hi: nat)
    requires pa.zf > 0.0 && pa.zfr > 0.0 && pb.zf == pa.zf && pb.zfr == pa.zfr && 0.0 < h
    requires Orthogonal(pa.frame) && Orthogonal(pb.frame)
    requires Produces3D(pa, start, h, n, a, b) && Produces3D(pb, start, h, n, b, a)
    requires 0 < n <= lo <= hi <= |a.samples| && hi <= |b.samples|
    ensures
      var wa, wb := Waves(a.samples), Waves(b.samples);
      Sum(PowersOf(pa, n, wb, a.motion), lo, hi) + Sum(PowersOf(pb, n, wa, b.motion), lo, hi)
      == WaveEnergy.InFlight(EnergiesOf(pa, wa), EnergiesOf(pb, wb), n, lo)
       - WaveEnergy.InFlight(EnergiesOf(pa, wa), EnergiesOf(pb, wb), n, hi)
  {
    LineHears(pa, start, h, n, a, b);
    LineHears(pb, start, h, n, b, a);
    EnergyConservation3D(pa, pb, n, Waves(a.samples), Waves(b.samples), a.motion, b.motion, lo, hi);
  }

  // ---- within the time protocol ----

  /** The protocol looks at nothing but stamps: three-dimensional samples that travel in the
      packets of a run, stamp by stamp, and have arrived when the packets have. */
  ghost predicate Carries(e: End3D, t: End) {
    && |e.samples| == |e.motion| == |t.samples| && e.received == t.received && |e.received| == |e.samples|
    && (forall k :: 0 <= k < |e.samples| ==> e.samples[k].time == t.samples[k].time)
  }

  /** Each sample reflects the wave found in what had been received by then. */
  ghost predicate Honest3D(p: Params3D, h: real, n: nat, e: End3D, peer: End3D) {
    && |e.samples| == |e.motion| == |e.received| && Strict3D(peer.samples)
    && (forall k {:trigger ReflectsKnown(p, h, n, e, peer, k)} ::
          0 <= k < |e.samples| ==> ReflectsKnown(p, h, n, e, peer, k))
  }

  lemma StampsInStep(cfg: Config, run: seq<Action>, i: nat, h: real, n: nat, e: End3D)
    requires EqualLine(cfg, i, h, n) && Legal(cfg, Init(cfg), run) && Carries(e, Trace(cfg, run, i))
    ensures forall k :: 0 <= k < |e.samples| ==> e.samples[k].time == StepTime(cfg.startTime, h, k)
  {
    TraceHolds(cfg, run, i, h, n);
    OfferedInStep(cfg, run, i, h);
  }

  /** An end of an equally stepped line within a run of the protocol has received what it needs. */
  lemma RunProduces3D(cfg: Config, run: seq<Action>, i: nat, h: real, n: nat, p: Params3D, e: End3D, peer: End3D)
    requires EqualLine(cfg, i, h, n) && Legal(cfg, Init(cfg), run)
    requires Carries(e, Trace(cfg, run, i)) && Carries(peer, Trace(cfg, run, cfg.linked[i]))
    requires Honest3D(p, h, n, e, peer)
    ensures Produces3D(p, cfg.startTime, h, n, e, peer)
  {
    StampsInStep(cfg, run, i, h, n, e);
    StampsInStep(cfg, run, cfg.linked[i], h, n, peer);
    TraceHolds(cfg, run, i, h, n);
    forall k | 0 <= k < |e.samples| ensures ReflectsCovered(p, h, n, e, peer, k) {
      assert ReflectsKnown(p, h, n, e, peer, k);
    }
  }

  /** In every run of the protocol two three-dimensional components that take equal steps
      conserve the energy in flight between them, each in a frame of its own. */
  lemma ProtocolConservesEnergy3D(cfg: Config, run: seq<Action>, i: nat, h: real, n: nat, pa: Params3D, pb: Params3D,
                                  a: End3D, b: End3D, lo: nat, hi: nat)
    requires EqualLine(cfg, i, h, n) && Legal(cfg, Init(cfg), run)
    requires Carries(a, Trace(cfg, run, i)) && Carries(b, Trace(cfg, run, cfg.linked[i]))
    requires Honest3D(pa, h, n, a, b) && Honest3D(pb, h, n, b, a)
    requires pa.zf > 0.0 && pa.zfr > 0.0 && pb.zf == pa.zf && pb.zfr == pa.zfr
    requires Orthogonal(pa.frame) && Orthogonal(pb.frame)
    requires 0 < n <= lo <= hi <= |a.samples| && hi <= |b.samples|
    ensures
      var wa, wb := Waves(a.samples), Waves(b.samples);
      Sum(PowersOf(pa, n, wb, a.motion), lo, hi) + Sum(PowersOf(pb, n, wa, b.motion), lo, hi)
      == WaveEnergy.InFlight(EnergiesOf(pa, wa), EnergiesOf(pb, wb), n, lo)
       - WaveEnergy.InFlight(EnergiesOf(pa, wa), EnergiesOf(pb, wb), n, hi)
  {
    var j := cfg.linked[i];
    assert cfg.linked[j] == i && EqualLine(cfg, j, h, n);
    RunProduces3D(cfg, run, i, h, n, pa, a, b);
    RunProduces3D(cfg, run, j, h, n, pb, b, a);
    LineConservesEnergy3D(pa, pb, cfg.startTime, h, n, a, b, lo, hi);
  }
}
